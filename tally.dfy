// The `dict[str, int]` tallies the store returns (set counts per workout type
// or per body area), as insertion-ordered association lists, and the
// `sorted(..., key=lambda item: (-item[1], item[0]))` applied to them.

module Tally {
  import opened Text

  datatype Count = Count(name: string, count: int)

  type Tally = seq<Count>

  function Names(t: Tally): set<string> {
    set i | 0 <= i < |t| :: t[i].name
  }

  /** Dictionary keys are unique. */
  predicate DistinctNames(t: Tally) {
    forall i, j :: 0 <= i < j < |t| ==> t[i].name != t[j].name
  }

  /** Python's `d.get(name, 0)`. */
  function Get(t: Tally, name: string): int {
    if t == [] then 0 else if t[0].name == name then t[0].count else Get(t[1..], name)
  }

  /** Python's `d[name] = d.get(name, 0) + n`: an existing key keeps its place. */
  function Bump(t: Tally, name: string, n: int): (r: Tally)
    ensures |r| == |t| || |r| == |t| + 1
  {
    if t == [] then [Count(name, n)]
    else if t[0].name == name then [Count(name, t[0].count + n)] + t[1..]
    else [t[0]] + Bump(t[1..], name, n)
  }

  /** Python's `d[name] = n`: an existing key keeps its place, its value is replaced. */
  function Put(t: Tally, name: string, n: int): (r: Tally)
    ensures |r| == |t| || |r| == |t| + 1
  {
    if t == [] then [Count(name, n)]
    else if t[0].name == name then [Count(name, n)] + t[1..]
    else [t[0]] + Put(t[1..], name, n)
  }

  /** Python's `sum(d.values())`. */
  function Sum(t: Tally): int {
    if t == [] then 0 else Sum(t[..|t| - 1]) + t[|t| - 1].count
  }

  predicate NonNegative(t: Tally) {
    forall i :: 0 <= i < |t| ==> t[i].count >= 0
  }

  lemma {:induction false} SumFront(t: Tally)
    requires t != []
    ensures Sum(t) == t[0].count + Sum(t[1..])
    decreases |t|
  {
    if |t| > 1 {
      SumFront(t[..|t| - 1]);
      assert t[..|t| - 1][1..] == t[1..][..|t| - 2];
    } else {
      assert t[..0] == [];
    }
  }

  lemma {:induction false} NamesFront(t: Tally)
    requires t != []
    ensures Names(t) == {t[0].name} + Names(t[1..])
  {
    forall x | x in Names(t) ensures x in {t[0].name} + Names(t[1..]) {
      var i :| 0 <= i < |t| && t[i].name == x;
      if i > 0 {
        assert t[1..][i - 1].name == x;
      }
    }
    forall x | x in Names(t[1..]) ensures x in Names(t) {
      var i :| 0 <= i < |t| - 1 && t[1..][i].name == x;
      assert t[i + 1].name == x;
    }
  }

  lemma {:induction false} DistinctFront(t: Tally)
    requires t != [] && DistinctNames(t)
    ensures t[0].name !in Names(t[1..])
    ensures DistinctNames(t[1..])
  {
    forall i | 0 <= i < |t| - 1 ensures t[1..][i].name != t[0].name {
      assert t[1..][i] == t[i + 1];
    }
  }

  lemma {:induction false} DistinctCons(x: Count, t: Tally)
    requires DistinctNames(t) && x.name !in Names(t)
    ensures DistinctNames([x] + t)
  {
    var r := [x] + t;
    forall i, j | 0 <= i < j < |r| ensures r[i].name != r[j].name {
      assert r[j] == t[j - 1];
      if i > 0 {
        assert r[i] == t[i - 1];
      }
    }
  }

  /** Adding `n` under `name` raises the total by `n`. */
  lemma {:induction false} BumpSum(t: Tally, name: string, n: int)
    ensures Sum(Bump(t, name, n)) == Sum(t) + n
    decreases |t|
  {
    var r := Bump(t, name, n);
    if t == [] {
      assert Sum([Count(name, n)]) == Sum([]) + n;
    } else {
      SumFront(t);
      SumFront(r);
      if t[0].name != name {
        BumpSum(t[1..], name, n);
        assert r[1..] == Bump(t[1..], name, n);
      } else {
        assert r[1..] == t[1..];
      }
    }
  }

  /** Adding under `name` adds `name` to the keys and keeps them unique and the counts non-negative. */
  lemma {:induction false} BumpKeys(t: Tally, name: string, n: int)
    requires DistinctNames(t)
    ensures Names(Bump(t, name, n)) == Names(t) + {name}
    ensures DistinctNames(Bump(t, name, n))
    ensures NonNegative(t) && n >= 0 ==> NonNegative(Bump(t, name, n))
    decreases |t|
  {
    var r := Bump(t, name, n);
    if t == [] {
      NamesFront(r);
      assert Names(r[1..]) == {};
    } else {
      DistinctFront(t);
      NamesFront(t);
      NamesFront(r);
      if t[0].name == name {
        assert r[1..] == t[1..];
        DistinctCons(r[0], t[1..]);
        assert r == [r[0]] + t[1..];
      } else {
        BumpKeys(t[1..], name, n);
        assert r[1..] == Bump(t[1..], name, n);
        DistinctCons(t[0], r[1..]);
        assert r == [t[0]] + r[1..];
      }
    }
  }

  /** Setting `name` to `n` replaces its old value in the total. */
  lemma {:induction false} PutSum(t: Tally, name: string, n: int)
    ensures Sum(Put(t, name, n)) == Sum(t) - Get(t, name) + n
    decreases |t|
  {
    var r := Put(t, name, n);
    if t == [] {
      assert Sum([Count(name, n)]) == Sum([]) + n;
    } else {
      SumFront(t);
      SumFront(r);
      if t[0].name != name {
        PutSum(t[1..], name, n);
        assert r[1..] == Put(t[1..], name, n);
      } else {
        assert r[1..] == t[1..];
      }
    }
  }

  /** Setting `name` adds it to the keys and keeps them unique and the counts non-negative. */
  lemma {:induction false} PutKeys(t: Tally, name: string, n: int)
    requires DistinctNames(t)
    ensures Names(Put(t, name, n)) == Names(t) + {name}
    ensures DistinctNames(Put(t, name, n))
    ensures NonNegative(t) && n >= 0 ==> NonNegative(Put(t, name, n))
    decreases |t|
  {
    var r := Put(t, name, n);
    if t == [] {
      NamesFront(r);
      assert Names(r[1..]) == {};
    } else {
      DistinctFront(t);
      NamesFront(t);
      NamesFront(r);
      if t[0].name == name {
        assert r[1..] == t[1..];
        DistinctCons(r[0], t[1..]);
        assert r == [r[0]] + t[1..];
      } else {
        PutKeys(t[1..], name, n);
        assert r[1..] == Put(t[1..], name, n);
        DistinctCons(t[0], r[1..]);
        assert r == [t[0]] + r[1..];
      }
    }
  }

  lemma {:induction false} SumNonNegative(t: Tally)
    requires NonNegative(t)
    ensures Sum(t) >= 0
  {
    if t != [] {
      SumNonNegative(t[..|t| - 1]);
    }
  }

  lemma {:induction false} GetNonNegative(t: Tally, name: string)
    requires NonNegative(t)
    ensures Get(t, name) >= 0
    decreases |t|
  {
    if t != [] && t[0].name != name {
      GetNonNegative(t[1..], name);
    }
  }

  /** Order of `sorted` with key `(-count, name)`: larger count first, then the smaller name. */
  predicate KeyLe(a: Count, b: Count) {
    a.count > b.count || (a.count == b.count && StrLe(a.name, b.name))
  }

  predicate SortedByCount(t: Tally) {
    forall i, j :: 0 <= i < j < |t| ==> KeyLe(t[i], t[j])
  }

  lemma KeyLeTotal(a: Count, b: Count)
    ensures KeyLe(a, b) || KeyLe(b, a)
  {
    StrLeTotal(a.name, b.name);
  }

  lemma KeyLeTransitive(a: Count, b: Count, c: Count)
    requires KeyLe(a, b) && KeyLe(b, c)
    ensures KeyLe(a, c)
  {
    if a.count == b.count == c.count {
      StrLeTransitive(a.name, b.name, c.name);
    }
  }

  function Insert(x: Count, s: Tally): (r: Tally)
    ensures |r| == |s| + 1
  {
    if s == [] then [x]
    else if KeyLe(x, s[0]) then [x] + s
    else [s[0]] + Insert(x, s[1..])
  }

  /** Python's `sorted(d.items(), key=lambda item: (-item[1], item[0]))`, as an insertion sort. */
  function SortByCount(t: Tally): (r: Tally)
    ensures |r| == |t|
  {
    if t == [] then [] else Insert(t[0], SortByCount(t[1..]))
  }

  lemma {:induction false} InsertMultiset(x: Count, s: Tally)
    ensures multiset(Insert(x, s)) == multiset(s) + multiset{x}
    decreases |s|
  {
    if s != [] && !KeyLe(x, s[0]) {
      InsertMultiset(x, s[1..]);
      assert s == [s[0]] + s[1..];
    }
  }

  lemma {:induction false} InsertSum(x: Count, s: Tally)
    ensures Sum(Insert(x, s)) == x.count + Sum(s)
    decreases |s|
  {
    var r := Insert(x, s);
    if s == [] {
      assert Sum([x]) == Sum([]) + x.count;
    } else {
      SumFront(r);
      if KeyLe(x, s[0]) {
        assert r[1..] == s;
      } else {
        InsertSum(x, s[1..]);
        SumFront(s);
        assert r[1..] == Insert(x, s[1..]);
      }
    }
  }

  lemma {:induction false} InsertKeys(x: Count, s: Tally)
    requires DistinctNames(s) && x.name !in Names(s)
    ensures Names(Insert(x, s)) == Names(s) + {x.name}
    ensures DistinctNames(Insert(x, s))
    decreases |s|
  {
    var r := Insert(x, s);
    if s == [] {
    } else if KeyLe(x, s[0]) {
      DistinctCons(x, s);
      NamesFront(r);
      assert r[1..] == s;
    } else {
      DistinctFront(s);
      NamesFront(s);
      InsertKeys(x, s[1..]);
      assert r[1..] == Insert(x, s[1..]);
      NamesFront(r);
      DistinctCons(s[0], r[1..]);
      assert r == [s[0]] + r[1..];
    }
  }

  lemma {:induction false} InsertSorted(x: Count, s: Tally)
    requires SortedByCount(s)
    ensures SortedByCount(Insert(x, s))
    decreases |s|
  {
    var r := Insert(x, s);
    if s == [] {
    } else if KeyLe(x, s[0]) {
      forall i, j | 0 <= i < j < |r| ensures KeyLe(r[i], r[j]) {
        if i == 0 && j > 1 {
          KeyLeTransitive(x, s[0], s[j - 1]);
        }
      }
    } else {
      InsertSorted(x, s[1..]);
      InsertMultiset(x, s[1..]);
      KeyLeTotal(x, s[0]);
      assert r[1..] == Insert(x, s[1..]);
      forall j | 1 <= j < |r| ensures KeyLe(s[0], r[j]) {
        var y := r[j];
        assert y in multiset(Insert(x, s[1..])) by { assert r[1..][j - 1] == y; }
        if y != x {
          assert y in multiset(s[1..]);
          var k :| 0 <= k < |s| - 1 && s[1..][k] == y;
          assert s[k + 1] == y;
        }
      }
    }
  }

  /** Sorting keeps exactly the same items, so the same total, and orders them by (-count, name). */
  lemma SortFacts(t: Tally)
    ensures multiset(SortByCount(t)) == multiset(t)
    ensures Sum(SortByCount(t)) == Sum(t)
    ensures SortedByCount(SortByCount(t))
  {
    SortPermutes(t);
    SortKeepsSum(t);
    SortSorts(t);
  }

  lemma {:induction false} SortPermutes(t: Tally)
    ensures multiset(SortByCount(t)) == multiset(t)
    decreases |t|
  {
    if t != [] {
      SortPermutes(t[1..]);
      InsertMultiset(t[0], SortByCount(t[1..]));
      assert t == [t[0]] + t[1..];
    }
  }

  lemma {:induction false} SortKeepsSum(t: Tally)
    ensures Sum(SortByCount(t)) == Sum(t)
    decreases |t|
  {
    if t != [] {
      SortKeepsSum(t[1..]);
      InsertSum(t[0], SortByCount(t[1..]));
      SumFront(t);
    }
  }

  lemma {:induction false} SortSorts(t: Tally)
    ensures SortedByCount(SortByCount(t))
    decreases |t|
  {
    if t != [] {
      SortSorts(t[1..]);
      InsertSorted(t[0], SortByCount(t[1..]));
    }
  }

  /** With unique keys, sorting keeps the same keys, still unique. */
  lemma {:induction false} SortKeys(t: Tally)
    requires DistinctNames(t)
    ensures Names(SortByCount(t)) == Names(t)
    ensures DistinctNames(SortByCount(t))
    decreases |t|
  {
    if t != [] {
      DistinctFront(t);
      NamesFront(t);
      SortKeys(t[1..]);
      InsertKeys(t[0], SortByCount(t[1..]));
    }
  }
  /** After `d[name] = d.get(name, 0) + n`, `name` reads `n` more and every other key is unchanged. */
  lemma {:induction false} BumpGet(t: Tally, name: string, n: int, k: string)
    ensures Get(Bump(t, name, n), k) == Get(t, k) + (if k == name then n else 0)
    decreases |t|
  {
    if t != [] && t[0].name != name {
      BumpGet(t[1..], name, n, k);
    }
  }

  /** After `d[name] = n`, reading `name` gives `n` and every other key is unchanged. */
  lemma {:induction false} PutGet(t: Tally, name: string, n: int, k: string)
    ensures Get(Put(t, name, n), k) == (if k == name then n else Get(t, k))
    decreases |t|
  {
    if t != [] && t[0].name != name {
      PutGet(t[1..], name, n, k);
    }
  }

  /** After `d[name] = n` the keys are the old keys and `name`. */
  lemma {:induction false} PutNames(t: Tally, name: string, n: int)
    ensures Names(Put(t, name, n)) == Names(t) + {name}
    decreases |t|
  {
    var r := Put(t, name, n);
    NamesFront(r);
    if t == [] {
      assert Names(r[1..]) == {};
    } else {
      NamesFront(t);
      if t[0].name == name {
        assert r[1..] == t[1..];
      } else {
        PutNames(t[1..], name, n);
        assert r[1..] == Put(t[1..], name, n);
      }
    }
  }

  /** With unique keys, reading an item's name gives back its count. */
  lemma {:induction false} GetOfMember(t: Tally, c: Count)
    requires DistinctNames(t) && c in t
    ensures Get(t, c.name) == c.count
    decreases |t|
  {
    if t[0] != c {
      DistinctFront(t);
      var i :| 0 <= i < |t| && t[i] == c;
      assert t[1..][i - 1] == c;
      assert t[0].name != c.name;
      GetOfMember(t[1..], c);
    }
  }

  /** A key the tally does not hold reads as 0. */
  lemma {:induction false} GetAbsent(t: Tally, k: string)
    requires k !in Names(t)
    ensures Get(t, k) == 0
    decreases |t|
  {
    if t != [] {
      NamesFront(t);
      GetAbsent(t[1..], k);
    }
  }

  /** Sorting a dictionary's items changes no key's value. */
  lemma SortGet(t: Tally, k: string)
    requires DistinctNames(t)
    ensures Get(SortByCount(t), k) == Get(t, k)
  {
    var r := SortByCount(t);
    SortKeys(t);
    SortPermutes(t);
    if k in Names(t) {
      var i :| 0 <= i < |t| && t[i].name == k;
      assert t[i] in multiset(r);
      GetOfMember(t, t[i]);
      GetOfMember(r, t[i]);
    } else {
      GetAbsent(t, k);
      GetAbsent(r, k);
    }
  }
  /** What item `c` adds to the bucket `a` when its name is sent to bucket `f(name)`. */
  function Share(f: string -> string, c: Count, a: string): int {
    if f(c.name) == a then c.count else 0
  }

  function SumInts(xs: seq<int>): int {
    if xs == [] then 0 else xs[0] + SumInts(xs[1..])
  }

  /** The total of the items whose name `f` sends to bucket `a`. */
  function SumMapped(f: string -> string, t: Tally, a: string): int {
    SumInts(seq(|t|, i requires 0 <= i < |t| => Share(f, t[i], a)))
  }

  lemma {:induction false} SumIntsAppend(xs: seq<int>, ys: seq<int>)
    ensures SumInts(xs + ys) == SumInts(xs) + SumInts(ys)
    decreases |xs|
  {
    if xs == [] {
      assert xs + ys == ys;
    } else {
      SumIntsAppend(xs[1..], ys);
      assert (xs + ys)[1..] == xs[1..] + ys;
    }
  }

  lemma SumMappedFront(f: string -> string, t: Tally, a: string)
    requires t != []
    ensures SumMapped(f, t, a) == Share(f, t[0], a) + SumMapped(f, t[1..], a)
  {
    var xs := seq(|t|, i requires 0 <= i < |t| => Share(f, t[i], a));
    assert xs[1..] == seq(|t| - 1, i requires 0 <= i < |t| - 1 => Share(f, t[1..][i], a));
  }

  lemma SumMappedSnoc(f: string -> string, t: Tally, c: Count, a: string)
    ensures SumMapped(f, t + [c], a) == SumMapped(f, t, a) + Share(f, c, a)
  {
    var xs := seq(|t|, i requires 0 <= i < |t| => Share(f, t[i], a));
    var ys := seq(|t| + 1, i requires 0 <= i < |t| + 1 => Share(f, (t + [c])[i], a));
    assert ys == xs + [Share(f, c, a)];
    SumIntsAppend(xs, [Share(f, c, a)]);
  }

  /** Adding `n` under `name` adds `n` to the bucket of `name` and nothing to the others. */
  lemma {:induction false} SumMappedBump(f: string -> string, t: Tally, name: string, n: int, a: string)
    ensures SumMapped(f, Bump(t, name, n), a) == SumMapped(f, t, a) + Share(f, Count(name, n), a)
    decreases |t|
  {
    var r := Bump(t, name, n);
    SumMappedFront(f, r, a);
    if t == [] {
      assert SumMapped(f, r[1..], a) == 0;
    } else {
      SumMappedFront(f, t, a);
      if t[0].name == name {
        assert r[1..] == t[1..];
      } else {
        SumMappedBump(f, t[1..], name, n, a);
        assert r[1..] == Bump(t[1..], name, n);
      }
    }
  }
  /** The loop `totals[f(name)] = totals.get(f(name), 0) + count` over the items in order. */
  function RollUp(f: string -> string, t: Tally): Tally {
    if t == [] then []
    else Bump(RollUp(f, t[..|t| - 1]), f(t[|t| - 1].name), t[|t| - 1].count)
  }

  /** Each bucket of the roll-up holds the total of the items sent to it. */
  lemma {:induction false} RollUpGet(f: string -> string, t: Tally, a: string)
    ensures Get(RollUp(f, t), a) == SumMapped(f, t, a)
    decreases |t|
  {
    if t != [] {
      var init := t[..|t| - 1];
      var c := t[|t| - 1];
      RollUpGet(f, init, a);
      BumpGet(RollUp(f, init), f(c.name), c.count, a);
      assert t == init + [c];
      SumMappedSnoc(f, init, c, a);
    }
  }

  /** The buckets the items' names are sent to. */
  function Images(f: string -> string, t: Tally): set<string> {
    if t == [] then {} else Images(f, t[..|t| - 1]) + {f(t[|t| - 1].name)}
  }

  /** A bucket is an image exactly when some item's name is sent to it. */
  lemma {:induction false} ImagesMembers(f: string -> string, t: Tally)
    ensures forall i :: 0 <= i < |t| ==> f(t[i].name) in Images(f, t)
    ensures forall x :: x in Images(f, t) ==> exists i :: 0 <= i < |t| && f(t[i].name) == x
    decreases |t|
  {
    if t != [] {
      var init := t[..|t| - 1];
      ImagesMembers(f, init);
      assert forall i :: 0 <= i < |init| ==> init[i] == t[i];
    }
  }

  /** The roll-up keeps the total, has one item per bucket, and its buckets are
      exactly the images of the items' names. */
  lemma {:induction false} RollUpFacts(f: string -> string, t: Tally)
    ensures Sum(RollUp(f, t)) == Sum(t)
    ensures DistinctNames(RollUp(f, t))
    ensures NonNegative(t) ==> NonNegative(RollUp(f, t))
    ensures Names(RollUp(f, t)) == Images(f, t)
    decreases |t|
  {
    if t != [] {
      var init := t[..|t| - 1];
      var c := t[|t| - 1];
      RollUpFacts(f, init);
      SumInit(t);
      BumpSum(RollUp(f, init), f(c.name), c.count);
      BumpKeys(RollUp(f, init), f(c.name), c.count);
      assert NonNegative(t) ==> NonNegative(init) && c.count >= 0;
    }
  }

  lemma SumInit(t: Tally)
    requires t != []
    ensures Sum(t) == Sum(t[..|t| - 1]) + t[|t| - 1].count
  {
  }
  /** The position of the last item satisfying `p`, or -1 when none does. */
  function LastWhere(p: Count -> bool, t: Tally): (i: int)
    ensures -1 <= i < |t|
    ensures i >= 0 ==> p(t[i])
    ensures forall j :: i < j < |t| ==> !p(t[j])
  {
    if t == [] then -1
    else if p(t[|t| - 1]) then |t| - 1
    else LastWhere(p, t[..|t| - 1])
  }
}
