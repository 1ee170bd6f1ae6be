// The move taxonomy of gym_supervisor/db.py: the normalisation of workout
// names into keys and labels, the seeded `move_body_areas` table, and the
// lookups and canonicalisation built on it.

module Taxonomy {
  import opened Text
  import opened Wrappers

  /** One entry of the built-in seed list: a move name and its body area. */
  datatype Move = Move(name: string, area: string)

  /** A row of `move_body_areas` after normalisation. */
  datatype SeedRow = SeedRow(key: string, display: string, area: string)

  /** What `move_body_areas` holds for a key. */
  datatype MoveInfo = MoveInfo(display: string, area: string)

  /** The `move_body_areas` table, keyed by `move_key`. */
  type MoveTable = map<string, MoveInfo>

  const Unmapped := "unmapped"

  // ---- normalisation ---------------------------------------------------------

  /** `_normalize_workout_label`: strip, lower-case, every whitespace run to one blank. */
  function NormalizeLabel(v: string): string {
    CollapseSpaces(Lower(Strip(v)))
  }

  predicate IsKeyChar(c: char) { IsLower(c) || IsDigit(c) }

  /** `re.sub(r"[^a-z0-9]+", "", s)`: the characters `a`-`z` and `0`-`9` of `s`, in order. */
  function KeyChars(s: string): (r: string)
    ensures forall i :: 0 <= i < |r| ==> IsKeyChar(r[i])
    ensures |r| <= |s|
  {
    if s == [] then []
    else (if IsKeyChar(s[0]) then [s[0]] else []) + KeyChars(s[1..])
  }

  /** Every `a`-`z` or `0`-`9` character of `s` is kept, as often as it occurs. */
  lemma {:induction false} KeyCharsCounts(s: string, c: char)
    requires IsKeyChar(c)
    ensures multiset(KeyChars(s))[c] == multiset(s)[c]
    decreases |s|
  {
    if s != [] {
      KeyCharsCounts(s[1..], c);
      assert s == [s[0]] + s[1..];
    }
  }

  /** The filter works character by character, so it keeps the order: the key
      characters of a concatenation are those of each part, one after the other. */
  lemma {:induction false} KeyCharsAppend(x: string, y: string)
    ensures KeyChars(x + y) == KeyChars(x) + KeyChars(y)
    decreases |x|
  {
    if x == [] {
      assert x + y == y;
    } else {
      KeyCharsAppend(x[1..], y);
      assert (x + y)[0] == x[0] && (x + y)[1..] == x[1..] + y;
    }
  }

  /** The key character at position `i` of `s` lands at position `|KeyChars(s[..i])|`
      of the result, so two key characters keep their relative order. */
  lemma KeyCharsInOrder(s: string, i: int, j: int)
    requires 0 <= i < j < |s| && IsKeyChar(s[i]) && IsKeyChar(s[j])
    ensures |KeyChars(s[..i])| < |KeyChars(s[..j])| < |KeyChars(s)|
    ensures KeyChars(s)[|KeyChars(s[..i])|] == s[i]
    ensures KeyChars(s)[|KeyChars(s[..j])|] == s[j]
  {
    KeyCharsAt(s, i);
    KeyCharsAt(s, j);
    assert s[..j] == s[..i] + s[i..j];
    KeyCharsAppend(s[..i], s[i..j]);
    assert s[i..j] == [s[i]] + s[i + 1..j];
  }

  lemma KeyCharsAt(s: string, i: int)
    requires 0 <= i < |s| && IsKeyChar(s[i])
    ensures |KeyChars(s[..i])| < |KeyChars(s)| && KeyChars(s)[|KeyChars(s[..i])|] == s[i]
  {
    assert s == s[..i] + s[i..];
    KeyCharsAppend(s[..i], s[i..]);
    assert s[i..] == [s[i]] + s[i + 1..];
  }

  /** `_normalize_workout_type_key`: strip, lower-case, keep only `a`-`z` and `0`-`9`. */
  function NormalizeKey(v: string): (r: string)
    ensures forall i :: 0 <= i < |r| ==> IsKeyChar(r[i])
  {
    KeyChars(Lower(Strip(v)))
  }

  /** Cutting whitespace off the ends does not change the key characters. */
  lemma KeyCharsOfTrimmed(l: string, a: int, b: int)
    requires TrimmedAt(l, IsSpace, a, b)
    ensures KeyChars(l[a..b]) == KeyChars(l)
  {
    assert l == l[..a] + l[a..b] + l[b..];
    KeyCharsAppend(l[..a] + l[a..b], l[b..]);
    KeyCharsAppend(l[..a], l[a..b]);
    assert forall i :: 0 <= i < a ==> IsSpace(l[..a][i]);
    assert forall i :: 0 <= i < |l| - b ==> IsSpace(l[b..][i]);
    KeyCharsSkipsSpaces(l[..a], a);
    KeyCharsSkipsSpaces(l[b..], |l| - b);
  }

  /** Stripping first makes no difference to the key: it is the `a`-`z` and `0`-`9`
      characters of the lower-cased input, every one of them, in their order. */
  lemma NormalizeKeyChars(v: string)
    ensures NormalizeKey(v) == KeyChars(Lower(v))
    ensures forall c :: IsKeyChar(c) ==> multiset(NormalizeKey(v))[c] == multiset(Lower(v))[c]
  {
    var a, b := StripCuts(v);
    LowerTrimmedAt(v, a, b);
    KeyCharsOfTrimmed(Lower(v), a, b);
    forall c | IsKeyChar(c) ensures multiset(KeyChars(Lower(v)))[c] == multiset(Lower(v))[c] {
      KeyCharsCounts(Lower(v), c);
    }
  }

  lemma {:induction false} KeyCharsFixesKeys(s: string)
    requires forall i :: 0 <= i < |s| ==> IsKeyChar(s[i])
    ensures KeyChars(s) == s
  {
    if s != [] {
      KeyCharsFixesKeys(s[1..]);
    }
  }

  /** Normalising a label a second time changes nothing. */
  lemma NormalizeLabelIdempotent(v: string)
    ensures NormalizeLabel(NormalizeLabel(v)) == NormalizeLabel(v)
  {
    var l := Lower(Strip(v));
    LowerKeepsSpaces(Strip(v));
    assert Trimmed(l);
    var r := CollapseSpaces(l);
    CollapseKeepsTrimmed(l);
    StripFixesTrimmed(r);
    CollapseKeepsLower(l);
    LowerFixesLower(r);
    CollapseIdempotent(l);
  }

  /** Normalising a key a second time changes nothing. */
  lemma NormalizeKeyIdempotent(v: string)
    ensures NormalizeKey(NormalizeKey(v)) == NormalizeKey(v)
  {
    var k := NormalizeKey(v);
    KeysAreTrimmedLower(k);
    StripFixesTrimmed(k);
    LowerFixesLower(k);
    KeyCharsFixesKeys(k);
  }

  /** A string of key characters has no blank at either end and no upper-case letter. */
  lemma KeysAreTrimmedLower(k: string)
    requires forall i :: 0 <= i < |k| ==> IsKeyChar(k[i])
    ensures Trimmed(k)
    ensures forall i :: 0 <= i < |k| ==> !IsUpper(k[i])
  {
    if k != [] {
      assert IsKeyChar(k[0]) && IsKeyChar(k[|k| - 1]);
    }
  }

  lemma {:induction false} KeyCharsSkipsSpaces(s: string, n: nat)
    requires n <= |s| && forall i :: 0 <= i < n ==> IsSpace(s[i])
    ensures KeyChars(s) == KeyChars(s[n..])
  {
    if n > 0 {
      assert !IsKeyChar(s[0]);
      assert s[1..][n - 1..] == s[n..];
      KeyCharsSkipsSpaces(s[1..], n - 1);
    }
  }

  /** Collapsing whitespace does not change which key characters a string holds. */
  lemma {:induction false} KeyCharsOfCollapsed(s: string)
    ensures KeyChars(CollapseSpaces(s)) == KeyChars(s)
    decreases |s|
  {
    if s == [] {
    } else if IsSpace(s[0]) {
      var k := LeadCount(s, IsSpace);
      var tail := CollapseSpaces(s[k..]);
      KeyCharsOfCollapsed(s[k..]);
      assert (" " + tail)[1..] == tail;
      KeyCharsSkipsSpaces(s, k);
    } else {
      KeyCharsOfCollapsed(s[1..]);
      assert ([s[0]] + CollapseSpaces(s[1..]))[1..] == CollapseSpaces(s[1..]);
    }
  }

  /** A move's key can be read off its normalised label as well as off its raw name. */
  lemma KeyOfLabel(v: string)
    ensures NormalizeKey(NormalizeLabel(v)) == NormalizeKey(v)
  {
    var l := Lower(Strip(v));
    LowerKeepsSpaces(Strip(v));
    var r := CollapseSpaces(l);
    CollapseKeepsTrimmed(l);
    StripFixesTrimmed(r);
    CollapseKeepsLower(l);
    LowerFixesLower(r);
    KeyCharsOfCollapsed(l);
  }

  /** A name with a non-empty key has a non-empty label. */
  lemma LabelOfKeyedName(v: string)
    requires NormalizeKey(v) != []
    ensures NormalizeLabel(v) != []
  {
    KeyOfLabel(v);
  }

  // ---- the seed --------------------------------------------------------------

  /** The built-in move list, in order; later rows overwrite earlier rows with the same key. */
  const MoveBodyAreaSeed: seq<Move> := [
    // Chest
    Move("bench press", "chest"),
    Move("barbell bench press", "chest"),
    Move("dumbbell bench press", "chest"),
    Move("incline bench press", "chest"),
    Move("decline bench press", "chest"),
    Move("incline dumbbell press", "chest"),
    Move("decline dumbbell press", "chest"),
    Move("machine chest press", "chest"),
    Move("chest press", "chest"),
    Move("smith machine bench press", "chest"),
    Move("push up", "chest"),
    Move("pushup", "chest"),
    Move("weighted push up", "chest"),
    Move("chest dip", "chest"),
    Move("dips", "chest"),
    Move("cable fly", "chest"),
    Move("cable crossover", "chest"),
    Move("pec deck", "chest"),
    Move("pec fly", "chest"),
    Move("dumbbell fly", "chest"),
    Move("svend press", "chest"),
    // Back
    Move("pull up", "back"),
    Move("pullup", "back"),
    Move("chin up", "back"),
    Move("lat pulldown", "back"),
    Move("wide grip lat pulldown", "back"),
    Move("close grip lat pulldown", "back"),
    Move("seated cable row", "back"),
    Move("seated row", "back"),
    Move("barbell row", "back"),
    Move("bent over row", "back"),
    Move("dumbbell row", "back"),
    Move("single arm dumbbell row", "back"),
    Move("pendlay row", "back"),
    Move("t bar row", "back"),
    Move("inverted row", "back"),
    Move("chest supported row", "back"),
    Move("face pull", "shoulders"),
    Move("facepull", "shoulders"),
    Move("straight arm pulldown", "back"),
    Move("back extension", "back"),
    Move("hyperextension", "back"),
    Move("reverse hyper", "back"),
    Move("good morning", "back"),
    Move("rack pull", "back"),
    Move("deadlift", "legs"),
    Move("sumo deadlift", "back"),
    Move("romanian deadlift", "back"),
    Move("rdl", "back"),
    // Shoulders
    Move("overhead press", "shoulders"),
    Move("shoulder press", "shoulders"),
    Move("barbell overhead press", "shoulders"),
    Move("dumbbell shoulder press", "shoulders"),
    Move("seated dumbbell press", "shoulders"),
    Move("military press", "shoulders"),
    Move("arnold press", "shoulders"),
    Move("push press", "shoulders"),
    Move("landmine press", "shoulders"),
    Move("lateral raise", "shoulders"),
    Move("side lateral raise", "shoulders"),
    Move("front raise", "shoulders"),
    Move("rear delt fly", "shoulders"),
    Move("reverse fly", "shoulders"),
    Move("upright row", "shoulders"),
    Move("cable lateral raise", "shoulders"),
    Move("shrug", "shoulders"),
    Move("dumbbell shrug", "shoulders"),
    Move("barbell shrug", "shoulders"),
    // Legs
    Move("squat", "legs"),
    Move("back squat", "legs"),
    Move("front squat", "legs"),
    Move("high bar squat", "legs"),
    Move("low bar squat", "legs"),
    Move("box squat", "legs"),
    Move("pause squat", "legs"),
    Move("goblet squat", "legs"),
    Move("hack squat", "legs"),
    Move("smith machine squat", "legs"),
    Move("leg press", "legs"),
    Move("leg extension", "legs"),
    Move("leg curl", "legs"),
    Move("seated leg curl", "legs"),
    Move("lying leg curl", "legs"),
    Move("nordic curl", "legs"),
    Move("walking lunge", "legs"),
    Move("lunge", "legs"),
    Move("reverse lunge", "legs"),
    Move("split squat", "legs"),
    Move("bulgarian split squat", "legs"),
    Move("step up", "legs"),
    Move("pistol squat", "legs"),
    Move("sissy squat", "legs"),
    Move("calf raise", "legs"),
    Move("standing calf raise", "legs"),
    Move("seated calf raise", "legs"),
    Move("donkey calf raise", "legs"),
    Move("adductor machine", "legs"),
    Move("abductor machine", "legs"),
    Move("hip adduction", "legs"),
    Move("hip abduction", "legs"),
    Move("glute bridge", "legs"),
    Move("hip thrust", "legs"),
    // Arms
    Move("barbell curl", "arms"),
    Move("dumbbell curl", "arms"),
    Move("dumbell curl", "arms"),
    Move("curl", "arms"),
    Move("alternating dumbbell curl", "arms"),
    Move("hammer curl", "arms"),
    Move("preacher curl", "arms"),
    Move("incline dumbbell curl", "arms"),
    Move("concentration curl", "arms"),
    Move("cable curl", "arms"),
    Move("ez bar curl", "arms"),
    Move("reverse curl", "arms"),
    Move("tricep pushdown", "arms"),
    Move("triceps pushdown", "arms"),
    Move("pushdown", "arms"),
    Move("rope pushdown", "arms"),
    Move("overhead tricep extension", "arms"),
    Move("overhead triceps extension", "arms"),
    Move("skull crusher", "arms"),
    Move("lying tricep extension", "arms"),
    Move("close grip bench press", "arms"),
    Move("close grip push up", "arms"),
    Move("bench dip", "arms"),
    Move("cable tricep extension", "arms"),
    Move("tricep kickback", "arms"),
    Move("triceps kickback", "arms"),
    Move("wrist curl", "arms"),
    Move("reverse wrist curl", "arms"),
    Move("farmer carry", "arms"),
    // Core
    Move("plank", "core"),
    Move("side plank", "core"),
    Move("crunch", "core"),
    Move("sit up", "core"),
    Move("v up", "core"),
    Move("dead bug", "core"),
    Move("hollow hold", "core"),
    Move("mountain climber", "core"),
    Move("russian twist", "core"),
    Move("hanging leg raise", "core"),
    Move("leg raise", "core"),
    Move("ab wheel", "core"),
    Move("ab rollout", "core"),
    Move("cable crunch", "core"),
    Move("pallof press", "core"),
    Move("wood chop", "core"),
    Move("back plank", "core"),
    Move("bird dog", "core"),
    Move("toes to bar", "core"),
    // Full body / athletic
    Move("clean", "full_body"),
    Move("power clean", "full_body"),
    Move("hang clean", "full_body"),
    Move("snatch", "full_body"),
    Move("power snatch", "full_body"),
    Move("clean and jerk", "full_body"),
    Move("thruster", "full_body"),
    Move("burpee", "full_body"),
    Move("man maker", "full_body"),
    Move("kettlebell swing", "full_body"),
    Move("turkish get up", "full_body"),
    Move("wall ball", "full_body"),
    Move("sled push", "full_body"),
    Move("sled pull", "full_body"),
    Move("bear crawl", "full_body"),
    Move("battle rope", "full_body"),
    // Cardio conditioning
    Move("run", "cardio"),
    Move("treadmill run", "cardio"),
    Move("jog", "cardio"),
    Move("sprint", "cardio"),
    Move("bike", "cardio"),
    Move("cycling", "cardio"),
    Move("stationary bike", "cardio"),
    Move("spin bike", "cardio"),
    Move("row", "cardio"),
    Move("rowing", "cardio"),
    Move("erg row", "cardio"),
    Move("jump rope", "cardio"),
    Move("stairmaster", "cardio"),
    Move("elliptical", "cardio"),
    Move("ski erg", "cardio")
  ]

  /** The row a seed move is stored as. */
  function SeedRowOf(m: Move): (r: SeedRow)
    ensures r.key == NormalizeKey(m.name) && r.display == NormalizeLabel(m.name)
    ensures r.area == NormalizeLabel(m.area)
  {
    SeedRow(NormalizeKey(m.name), NormalizeLabel(m.name), NormalizeLabel(m.area))
  }

  /** The rows that are written: every move whose key is not empty, in order. */
  function SeedRows(moves: seq<Move>): (rows: seq<SeedRow>)
    ensures forall r :: r in rows ==> r.key != [] && r.display != []
    ensures forall m :: m in moves && NormalizeKey(m.name) != [] ==> SeedRowOf(m) in rows
    ensures forall r :: r in rows ==> exists m :: m in moves && r == SeedRowOf(m)
  {
    if moves == [] then []
    else
      var init := SeedRows(moves[..|moves| - 1]);
      SeedRowsStep(moves, init);
      init + SeedRowFor(moves[|moves| - 1])
  }

  /** The row a move adds: none when its key is empty. */
  function SeedRowFor(m: Move): seq<SeedRow> {
    if NormalizeKey(m.name) != [] then [SeedRowOf(m)] else []
  }

  /** The rows of the moves before the last, plus the last move's row, are the
      rows of all the moves. */
  lemma SeedRowsStep(moves: seq<Move>, init: seq<SeedRow>)
    requires moves != []
    requires forall r :: r in init ==> r.key != [] && r.display != []
    requires forall m :: m in moves[..|moves| - 1] && NormalizeKey(m.name) != [] ==> SeedRowOf(m) in init
    requires forall r :: r in init ==> exists m :: m in moves[..|moves| - 1] && r == SeedRowOf(m)
    ensures var rows := init + SeedRowFor(moves[|moves| - 1]);
      && (forall r :: r in rows ==> r.key != [] && r.display != [])
      && (forall m :: m in moves && NormalizeKey(m.name) != [] ==> SeedRowOf(m) in rows)
      && (forall r :: r in rows ==> exists m :: m in moves && r == SeedRowOf(m))
  {
    var last := moves[|moves| - 1];
    var rows := init + SeedRowFor(last);
    LastSplit(moves);
    if NormalizeKey(last.name) != [] {
      LabelOfKeyedName(last.name);
    }
    forall r | r in rows
      ensures exists m :: m in moves && r == SeedRowOf(m)
    {
      if r !in init {
        assert r == SeedRowOf(last);
      }
    }
  }

  lemma LastSplit(moves: seq<Move>)
    requires moves != []
    ensures forall x :: x in moves <==> x in moves[..|moves| - 1] || x == moves[|moves| - 1]
  {
    assert moves == moves[..|moves| - 1] + [moves[|moves| - 1]];
  }

  function InfoOf(r: SeedRow): MoveInfo {
    MoveInfo(r.display, r.area)
  }

  /** `INSERT ... ON CONFLICT(move_key) DO UPDATE`, row after row. */
  function Upsert(table: MoveTable, rows: seq<SeedRow>): MoveTable {
    if rows == [] then table
    else
      var r := rows[|rows| - 1];
      Upsert(table, rows[..|rows| - 1])[r.key := InfoOf(r)]
  }

  /** The last row for `k`, the one whose values stay in the table. */
  function LastRowFor(rows: seq<SeedRow>, k: string): (r: Option<SeedRow>)
    ensures r.Some? ==> r.value in rows && r.value.key == k
    ensures r.None? ==> forall x :: x in rows ==> x.key != k
  {
    if rows == [] then None
    else if rows[|rows| - 1].key == k then Some(rows[|rows| - 1])
    else
      assert forall x :: x in rows[..|rows| - 1] ==> x in rows;
      assert rows == rows[..|rows| - 1] + [rows[|rows| - 1]];
      LastRowFor(rows[..|rows| - 1], k)
  }

  /** After the upsert, a key holds the values of the last row written for it, and
      a key no row names keeps what it had. */
  lemma {:induction false} UpsertLastWins(table: MoveTable, rows: seq<SeedRow>, k: string)
    ensures k in Upsert(table, rows) <==> k in table || LastRowFor(rows, k).Some?
    ensures LastRowFor(rows, k).Some? ==> Upsert(table, rows)[k] == InfoOf(LastRowFor(rows, k).value)
    ensures LastRowFor(rows, k).None? && k in table ==> Upsert(table, rows)[k] == table[k]
  {
    if rows != [] {
      UpsertLastWins(table, rows[..|rows| - 1], k);
    }
  }

  /** Seeding twice leaves the table as seeding once does. */
  lemma UpsertIdempotent(table: MoveTable, rows: seq<SeedRow>)
    ensures Upsert(Upsert(table, rows), rows) == Upsert(table, rows)
  {
    var once := Upsert(table, rows);
    var twice := Upsert(once, rows);
    forall k
      ensures k in twice <==> k in once
      ensures k in once ==> twice[k] == once[k]
    {
      UpsertLastWins(table, rows, k);
      UpsertLastWins(once, rows, k);
    }
  }

  /** `_seed_move_body_areas` with a given move list: the table after its rows are written. */
  function SeedWith(table: MoveTable, moves: seq<Move>): MoveTable {
    Upsert(table, SeedRows(moves))
  }

  /** `_seed_move_body_areas`: the table after the built-in seed rows are written. */
  function Seed(table: MoveTable): MoveTable {
    SeedWith(table, MoveBodyAreaSeed)
  }

  /** Seeding adds no row with an empty key; it adds a row for every move with a
      non-empty key, holding that key's last move's label and area; and every label
      it writes is non-empty. */
  lemma SeedKeysAndLabels(table: MoveTable, moves: seq<Move>, k: string)
    ensures k in SeedWith(table, moves) && k !in table ==> k != []
    ensures (exists m :: m in moves && NormalizeKey(m.name) == k != []) ==> k in SeedWith(table, moves)
    ensures LastRowFor(SeedRows(moves), k).Some? ==>
              SeedWith(table, moves)[k].display != [] &&
              exists m :: m in moves && SeedWith(table, moves)[k] == InfoOf(SeedRowOf(m))
  {
    var rows := SeedRows(moves);
    UpsertLastWins(table, rows, k);
    if exists m :: m in moves && NormalizeKey(m.name) == k != [] {
      var m :| m in moves && NormalizeKey(m.name) == k != [];
      assert SeedRowOf(m) in rows;
    }
  }

  /** Every label of the table is non-empty. */
  predicate LabelsNonEmpty(table: MoveTable) {
    forall k :: k in table ==> table[k].display != []
  }

  /** Two seed moves whose names share a key, as `push up` and `pushup` do: the
      later move's label and area are what the table keeps for that key. */
  lemma LaterSeedWins(table: MoveTable, a: Move, b: Move)
    requires NormalizeKey(a.name) == NormalizeKey(b.name) != []
    ensures var t := SeedWith(table, [a, b]);
      NormalizeKey(b.name) in t && t[NormalizeKey(b.name)] == MoveInfo(NormalizeLabel(b.name), NormalizeLabel(b.area))
  {
    var rows := SeedRows([a, b]);
    assert rows == [SeedRowOf(a), SeedRowOf(b)] by { SeedRowsOfTwo(a, b); }
    assert LastRowFor(rows, NormalizeKey(b.name)) == Some(SeedRowOf(b));
    UpsertLastWins(table, rows, NormalizeKey(b.name));
  }

  lemma SeedRowsOfTwo(a: Move, b: Move)
    requires NormalizeKey(a.name) != [] && NormalizeKey(b.name) != []
    ensures SeedRows([a, b]) == [SeedRowOf(a), SeedRowOf(b)]
  {
    var one := [a];
    var two := [a, b];
    assert one[..|one| - 1] == [] && one[|one| - 1] == a;
    assert two[..|two| - 1] == one && two[|two| - 1] == b;
    assert SeedRowFor(a) == [SeedRowOf(a)] && SeedRowFor(b) == [SeedRowOf(b)];
    assert SeedRows(one) == SeedRows([]) + SeedRowFor(a);
    assert SeedRows(two) == SeedRows(one) + SeedRowFor(b);
  }

  /** Seeding keeps every label non-empty. */
  lemma SeedKeepsLabelsNonEmpty(table: MoveTable, moves: seq<Move>)
    requires LabelsNonEmpty(table)
    ensures LabelsNonEmpty(SeedWith(table, moves))
  {
    forall k | k in SeedWith(table, moves) ensures SeedWith(table, moves)[k].display != [] {
      UpsertLastWins(table, SeedRows(moves), k);
    }
  }

  // ---- lookups ---------------------------------------------------------------

  /** `_display_label_for_key`: the stored label, or the key itself when there is no row. */
  function DisplayLabelForKey(table: MoveTable, key: string): (r: string)
    ensures key in table ==> r == table[key].display
    ensures key !in table ==> r == key
  {
    if key in table then table[key].display else key
  }

  /** With non-empty labels, a non-empty key always has a non-empty display label. */
  lemma DisplayLabelNonEmpty(table: MoveTable, key: string)
    requires LabelsNonEmpty(table) && key != []
    ensures DisplayLabelForKey(table, key) != []
  {
  }

  /** `_lookup_body_area`: the area of the name's key, or "unmapped" when the key is
      empty or not in the table. */
  function LookupBodyArea(table: MoveTable, workoutType: string): (r: string)
    ensures NormalizeKey(workoutType) in table && NormalizeKey(workoutType) != [] ==> r == table[NormalizeKey(workoutType)].area
    ensures NormalizeKey(workoutType) !in table || NormalizeKey(workoutType) == [] ==> r == Unmapped
  {
    var key := NormalizeKey(workoutType);
    if key == [] then Unmapped
    else if key in table then table[key].area
    else Unmapped
  }

  /** Names that normalise to the same key have the same body area. */
  lemma LookupByKey(table: MoveTable, a: string, b: string)
    requires NormalizeKey(a) == NormalizeKey(b)
    ensures LookupBodyArea(table, a) == LookupBodyArea(table, b)
  {
  }

  /** A stored key looks up its own area: keys are fixed points of normalisation. */
  lemma LookupOfStoredKey(table: MoveTable, key: string)
    requires key in table && key != [] && NormalizeKey(key) == key
    ensures LookupBodyArea(table, key) == table[key].area
  {
  }

  // ---- canonicalisation of stored entries ------------------------------------

  /** The key `_canonicalize_workout_entry_types` derives for a stored entry: the
      stored type, or the display name when the type is empty. */
  function CanonicalKey(currentType: string, currentLabel: string): string {
    var sourceLabel := if currentLabel != [] then currentLabel else currentType;
    NormalizeKey(if currentType != [] then currentType else sourceLabel)
  }

  /** The (type, display name) an entry is rewritten to, or None when its key is
      empty or it is already canonical. */
  function CanonicalUpdate(table: MoveTable, currentType: string, currentLabel: string): (u: Option<(string, string)>)
    ensures u.Some? ==> u.value.0 == CanonicalKey(currentType, currentLabel) != []
    ensures u.Some? ==> u.value.1 == DisplayLabelForKey(table, u.value.0)
    ensures u.Some? ==> u.value != (currentType, currentLabel)
    ensures u.None? ==> CanonicalKey(currentType, currentLabel) == []
                        || (currentType == CanonicalKey(currentType, currentLabel)
                            && currentLabel == DisplayLabelForKey(table, currentType))
  {
    var key := CanonicalKey(currentType, currentLabel);
    if key == [] then None
    else
      var display := DisplayLabelForKey(table, key);
      if key != currentType || display != currentLabel then Some((key, display)) else None
  }

  /** A rewritten entry needs no further rewrite. */
  lemma CanonicalUpdateStable(table: MoveTable, currentType: string, currentLabel: string)
    requires CanonicalUpdate(table, currentType, currentLabel).Some?
    ensures var (k, l) := CanonicalUpdate(table, currentType, currentLabel).value;
            CanonicalUpdate(table, k, l).None?
  {
    var (k, l) := CanonicalUpdate(table, currentType, currentLabel).value;
    NormalizeKeyIdempotent(if currentType != [] then currentType else if currentLabel != [] then currentLabel else currentType);
    assert CanonicalKey(k, l) == NormalizeKey(k);
  }
}
