/** Python's `collections.Counter` as the analytics service uses it:
    `Counter(values)` keeps one `(value, count)` pair per distinct value, in
    the order each value was first seen, and `most_common(n)` sorts those
    pairs by count, largest first, with a stable sort (equal counts keep their
    first-seen order), then keeps the first `n` (all of them when `n` is
    omitted). The in-place `list.sort(key=count, reverse=True)` of the
    referrer list is the same stable sort. */
module Tallies {
  import opened Wrappers

  /** One `(value, count)` pair. */
  datatype Entry = Entry(key: string, count: nat)

  /** How often `v` occurs in `vs`. */
  function Occurrences(vs: seq<string>, v: string): (n: nat)
    ensures n <= |vs|
    ensures n == 0 <==> v !in vs
  {
    if vs == [] then 0
    else
      assert vs == vs[..|vs| - 1] + [vs[|vs| - 1]];
      Occurrences(vs[..|vs| - 1], v) + (if vs[|vs| - 1] == v then 1 else 0)
  }

  /** The distinct values of `vs`, each at the position where it first occurs. */
  function FirstSeen(vs: seq<string>): (r: seq<string>)
    ensures forall v :: v in r <==> v in vs
    ensures forall i, j :: 0 <= i < j < |r| ==> r[i] != r[j]
  {
    if vs == [] then []
    else
      var front, last := vs[..|vs| - 1], vs[|vs| - 1];
      assert vs == front + [last];
      if last in front then FirstSeen(front) else FirstSeen(front) + [last]
  }

  function KeysOf(t: seq<Entry>): (ks: seq<string>)
    ensures |ks| == |t| && forall i :: 0 <= i < |t| ==> ks[i] == t[i].key
  {
    seq(|t|, i requires 0 <= i < |t| => t[i].key)
  }

  predicate DistinctKeys(t: seq<Entry>) {
    forall i, j :: 0 <= i < j < |t| ==> t[i].key != t[j].key
  }

  /** The sum of the counts of the entries whose key is `k` (with distinct
      keys, the count of the one entry for `k`, or 0). */
  function CountOf(t: seq<Entry>, k: string): nat {
    if t == [] then 0
    else (if t[0].key == k then t[0].count else 0) + CountOf(t[1..], k)
  }

  /** The sum of all counts. */
  function Total(t: seq<Entry>): nat {
    if t == [] then 0 else t[0].count + Total(t[1..])
  }

  /** `counter[v] += 1`: raise the entry of `v`, or append a new entry with
      count 1 when `v` has none yet. */
  function Bump(t: seq<Entry>, v: string): seq<Entry> {
    if t == [] then [Entry(v, 1)]
    else if t[0].key == v then [Entry(v, t[0].count + 1)] + t[1..]
    else [t[0]] + Bump(t[1..], v)
  }

  /** `Counter(vs)`, built by counting the values left to right. */
  function Tally(vs: seq<string>): seq<Entry> {
    if vs == [] then [] else Bump(Tally(vs[..|vs| - 1]), vs[|vs| - 1])
  }

  lemma KeysOfCons(t: seq<Entry>)
    requires t != []
    ensures KeysOf(t) == [t[0].key] + KeysOf(t[1..])
  {
    assert KeysOf(t)[1..] == KeysOf(t[1..]);
  }

  /** Bumping `v` raises its count by one and leaves every other count alone. */
  lemma {:induction false} BumpCount(t: seq<Entry>, v: string, k: string)
    ensures CountOf(Bump(t, v), k) == CountOf(t, k) + (if k == v then 1 else 0)
  {
    var b := Bump(t, v);
    if t == [] {
      assert b[1..] == [];
    } else if t[0].key == v {
      assert b[1..] == t[1..];
    } else {
      BumpCount(t[1..], v, k);
      assert b[1..] == Bump(t[1..], v);
    }
  }

  /** Bumping keeps the key order and appends a key seen for the first time. */
  lemma {:induction false} BumpKeys(t: seq<Entry>, v: string)
    ensures KeysOf(Bump(t, v)) == if v in KeysOf(t) then KeysOf(t) else KeysOf(t) + [v]
  {
    var b := Bump(t, v);
    if t == [] {
      assert b == [Entry(v, 1)];
    } else {
      KeysOfCons(b);
      KeysOfCons(t);
      if t[0].key == v {
        assert b[1..] == t[1..];
      } else {
        BumpKeys(t[1..], v);
        assert b[1..] == Bump(t[1..], v);
        assert v in KeysOf(t) <==> v in KeysOf(t[1..]);
      }
    }
  }

  /** Bumping adds one to the total and keeps every count positive. */
  lemma {:induction false} BumpTotal(t: seq<Entry>, v: string)
    ensures Total(Bump(t, v)) == Total(t) + 1
    ensures (forall i :: 0 <= i < |t| ==> t[i].count > 0) ==>
              forall i :: 0 <= i < |Bump(t, v)| ==> Bump(t, v)[i].count > 0
  {
    var b := Bump(t, v);
    if t == [] {
      assert b[1..] == [];
    } else if t[0].key == v {
      assert b[1..] == t[1..];
    } else {
      BumpTotal(t[1..], v);
      assert b[1..] == Bump(t[1..], v);
    }
  }

  lemma BumpFacts(t: seq<Entry>, v: string)
    ensures forall k :: CountOf(Bump(t, v), k) == CountOf(t, k) + (if k == v then 1 else 0)
    ensures KeysOf(Bump(t, v)) == if v in KeysOf(t) then KeysOf(t) else KeysOf(t) + [v]
    ensures Total(Bump(t, v)) == Total(t) + 1
    ensures (forall i :: 0 <= i < |t| ==> t[i].count > 0) ==>
              forall i :: 0 <= i < |Bump(t, v)| ==> Bump(t, v)[i].count > 0
  {
    forall k ensures CountOf(Bump(t, v), k) == CountOf(t, k) + (if k == v then 1 else 0) {
      BumpCount(t, v, k);
    }
    BumpKeys(t, v);
    BumpTotal(t, v);
  }

  lemma {:induction false} TallyCounts(vs: seq<string>)
    ensures KeysOf(Tally(vs)) == FirstSeen(vs)
    ensures forall k :: CountOf(Tally(vs), k) == Occurrences(vs, k)
    ensures Total(Tally(vs)) == |vs|
    ensures forall i :: 0 <= i < |Tally(vs)| ==> Tally(vs)[i].count > 0
  {
    if vs != [] {
      var front, last := vs[..|vs| - 1], vs[|vs| - 1];
      TallyCounts(front);
      BumpFacts(Tally(front), last);
      assert forall k :: Occurrences(vs, k) == Occurrences(front, k) + (if k == last then 1 else 0);
    }
  }

  /** `Counter(vs)` holds exactly one entry per distinct value of `vs`, in
      first-seen order, whose count is how often that value occurs. */
  lemma TallyIsCounter(vs: seq<string>)
    ensures KeysOf(Tally(vs)) == FirstSeen(vs)
    ensures DistinctKeys(Tally(vs))
    ensures forall v :: v in vs <==> v in KeysOf(Tally(vs))
    ensures forall e :: e in Tally(vs) ==> e.count == Occurrences(vs, e.key) >= 1
    ensures Total(Tally(vs)) == |vs|
  {
    var t := Tally(vs);
    TallyCounts(vs);
    assert DistinctKeys(t) by {
      forall i, j | 0 <= i < j < |t| ensures t[i].key != t[j].key {
        assert KeysOf(t)[i] == t[i].key && KeysOf(t)[j] == t[j].key;
      }
    }
    forall e | e in t ensures e.count == Occurrences(vs, e.key) >= 1 {
      var i :| 0 <= i < |t| && t[i] == e;
      CountOfDistinct(t, i);
    }
  }

  lemma {:induction false} CountOfAbsent(t: seq<Entry>, k: string)
    requires k !in KeysOf(t)
    ensures CountOf(t, k) == 0
  {
    if t != [] {
      KeysOfCons(t);
      CountOfAbsent(t[1..], k);
    }
  }

  /** With distinct keys, `CountOf` finds the one entry of a key. */
  lemma {:induction false} CountOfDistinct(t: seq<Entry>, i: nat)
    requires DistinctKeys(t) && i < |t|
    ensures CountOf(t, t[i].key) == t[i].count
  {
    var rest := t[1..];
    if i == 0 {
      assert t[0].key !in KeysOf(rest) by {
        forall j | 0 <= j < |rest| ensures KeysOf(rest)[j] != t[0].key {
          assert rest[j] == t[j + 1];
        }
      }
      CountOfAbsent(rest, t[0].key);
    } else {
      assert t[0].key != t[i].key;
      assert rest[i - 1] == t[i];
      assert DistinctKeys(rest) by {
        forall j, l | 0 <= j < l < |rest| ensures rest[j].key != rest[l].key {
          assert rest[j] == t[j + 1] && rest[l] == t[l + 1];
        }
      }
      CountOfDistinct(rest, i - 1);
    }
  }

  predicate SortedDesc(s: seq<Entry>) {
    forall i, j :: 0 <= i < j < |s| ==> s[i].count >= s[j].count
  }

  /** The entries with count `c`, in their order in `s`. */
  function WithCount(s: seq<Entry>, c: nat): seq<Entry> {
    if s == [] then []
    else (if s[0].count == c then [s[0]] else []) + WithCount(s[1..], c)
  }

  /** Places `e` before the first entry whose count is not larger, so that `e`
      goes after every entry that outranks it and before every entry it ties. */
  function Insert(e: Entry, s: seq<Entry>): seq<Entry> {
    if s == [] then [e]
    else if s[0].count > e.count then [s[0]] + Insert(e, s[1..])
    else [e] + s
  }

  /** `sorted(t, key=count, reverse=True)`: a stable sort, largest count first. */
  function SortDesc(t: seq<Entry>): seq<Entry> {
    if t == [] then [] else Insert(t[0], SortDesc(t[1..]))
  }

  lemma {:induction false} InsertMultiset(e: Entry, s: seq<Entry>)
    ensures multiset(Insert(e, s)) == multiset(s) + multiset{e}
    ensures |Insert(e, s)| == |s| + 1
  {
    if s != [] && s[0].count > e.count {
      InsertMultiset(e, s[1..]);
      assert Insert(e, s) == [s[0]] + Insert(e, s[1..]);
      assert s == [s[0]] + s[1..];
    }
  }

  lemma {:induction false} InsertSorted(e: Entry, s: seq<Entry>)
    requires SortedDesc(s)
    ensures SortedDesc(Insert(e, s))
  {
    var r := Insert(e, s);
    if s != [] && s[0].count > e.count {
      var rest := Insert(e, s[1..]);
      InsertSorted(e, s[1..]);
      InsertMultiset(e, s[1..]);
      assert r == [s[0]] + rest;
      forall i | 0 <= i < |rest| ensures s[0].count >= rest[i].count {
        assert rest[i] in multiset(rest);
        assert rest[i] == e || rest[i] in multiset(s[1..]);
      }
    }
  }

  lemma {:induction false} InsertWithCount(e: Entry, s: seq<Entry>, c: nat)
    requires SortedDesc(s)
    ensures WithCount(Insert(e, s), c) == (if e.count == c then [e] else []) + WithCount(s, c)
  {
    var r := Insert(e, s);
    if s == [] {
      assert r[1..] == [];
    } else if s[0].count > e.count {
      InsertWithCount(e, s[1..], c);
      assert r[1..] == Insert(e, s[1..]);
    } else {
      assert r[1..] == s;
    }
  }

  lemma {:induction false} InsertTotal(e: Entry, s: seq<Entry>)
    ensures Total(Insert(e, s)) == e.count + Total(s)
  {
    var r := Insert(e, s);
    if s == [] {
      assert r[1..] == [];
    } else if s[0].count > e.count {
      InsertTotal(e, s[1..]);
      assert r[1..] == Insert(e, s[1..]);
    } else {
      assert r[1..] == s;
    }
  }

  /** The sort orders by count, keeps every entry, and is stable: for each
      count, the entries with that count keep their relative order. */
  lemma {:induction false} SortDescFacts(t: seq<Entry>)
    ensures SortedDesc(SortDesc(t))
    ensures multiset(SortDesc(t)) == multiset(t)
    ensures |SortDesc(t)| == |t|
    ensures forall c :: WithCount(SortDesc(t), c) == WithCount(t, c)
    ensures Total(SortDesc(t)) == Total(t)
  {
    if t != [] {
      var rest := SortDesc(t[1..]);
      SortDescFacts(t[1..]);
      InsertSorted(t[0], rest);
      InsertMultiset(t[0], rest);
      InsertTotal(t[0], rest);
      forall c ensures WithCount(SortDesc(t), c) == WithCount(t, c) {
        InsertWithCount(t[0], rest, c);
      }
      assert t == [t[0]] + t[1..];
    }
  }

  /** `Counter.most_common(n)` (`n == None` for `most_common()`). */
  function MostCommon(t: seq<Entry>, n: Option<nat>): seq<Entry> {
    var s := SortDesc(t);
    match n
    case None => s
    case Some(k) => s[..Min(k, |s|)]
  }

  lemma {:induction false} WithCountPrefix(s: seq<Entry>, k: nat, c: nat)
    requires k <= |s|
    ensures WithCount(s[..k], c) <= WithCount(s, c)
  {
    if k > 0 {
      WithCountPrefix(s[1..], k - 1, c);
      assert s[..k][1..] == s[1..][..k - 1];
    }
  }

  lemma {:induction false} TotalSplit(s: seq<Entry>, k: nat)
    requires k <= |s|
    ensures Total(s) == Total(s[..k]) + Total(s[k..])
  {
    if k > 0 {
      TotalSplit(s[1..], k - 1);
      assert s[..k][1..] == s[1..][..k - 1];
      assert s[k..] == s[1..][k - 1..];
    }
  }

  lemma {:induction false} TotalConcat(a: seq<Entry>, b: seq<Entry>)
    ensures Total(a + b) == Total(a) + Total(b)
  {
    TotalSplit(a + b, |a|);
    assert (a + b)[..|a|] == a && (a + b)[|a|..] == b;
  }

  /** A sequence with distinct keys holds each of its entries once. */
  lemma CountOnce(t: seq<Entry>, a: nat)
    requires DistinctKeys(t) && a < |t|
    ensures multiset(t)[t[a]] == 1
  {
    assert t == t[..a] + [t[a]] + t[a + 1..];
    assert forall x :: x in t[..a] ==> x.key != t[a].key;
    assert forall x :: x in t[a + 1..] ==> x.key != t[a].key;
  }

  lemma TwiceInMultiset(r: seq<Entry>, i: nat, j: nat)
    requires i < j < |r|
    ensures r[i] == r[j] ==> multiset(r)[r[i]] >= 2
  {
    assert r == r[..i] + [r[i]] + r[i + 1..j] + [r[j]] + r[j + 1..];
  }

  /** Keys stay distinct when entries are only reordered or dropped. */
  lemma DistinctKeysSub(r: seq<Entry>, t: seq<Entry>)
    requires DistinctKeys(t) && multiset(r) <= multiset(t)
    ensures DistinctKeys(r)
  {
    forall i, j | 0 <= i < j < |r| ensures r[i].key != r[j].key {
      assert r[i] in multiset(t) && r[j] in multiset(t);
      var a :| 0 <= a < |t| && t[a] == r[i];
      var b :| 0 <= b < |t| && t[b] == r[j];
      CountOnce(t, a);
      TwiceInMultiset(r, i, j);
    }
  }

  lemma MostCommonShape(t: seq<Entry>, n: Option<nat>)
    ensures var r := MostCommon(t, n);
      && |r| == (if n.Some? then Min(n.value, |t|) else |t|)
      && SortedDesc(r)
      && r == SortDesc(t)[..|r|]
      && multiset(r) <= multiset(t)
      && Total(r) <= Total(t)
      && (n.None? ==> multiset(r) == multiset(t))
      && (DistinctKeys(t) ==> DistinctKeys(r))
  {
    var s := SortDesc(t);
    SortDescFacts(t);
    var r := MostCommon(t, n);
    var k := |r|;
    assert r == s[..k];
    PrefixFacts(s, k);
    if DistinctKeys(t) { DistinctKeysSub(r, t); }
  }

  /** A prefix of a sorted list is sorted, and its entries and total are
      part of the list's. */
  lemma PrefixFacts(s: seq<Entry>, k: nat)
    requires SortedDesc(s) && k <= |s|
    ensures SortedDesc(s[..k])
    ensures multiset(s[..k]) <= multiset(s)
    ensures Total(s[..k]) <= Total(s)
  {
    assert s == s[..k] + s[k..];
    assert multiset(s) == multiset(s[..k]) + multiset(s[k..]);
    TotalSplit(s, k);
  }

  lemma PrefixOutranks(s: seq<Entry>, k: nat)
    requires SortedDesc(s) && k <= |s|
    ensures forall e, x :: e in s[k..] && x in s[..k] ==> x.count >= e.count
  {
    forall e, x | e in s[k..] && x in s[..k] ensures x.count >= e.count {
      var j :| 0 <= j < |s| - k && s[k..][j] == e;
      var i :| 0 <= i < k && s[..k][i] == x;
      assert s[i] == x && s[k + j] == e;
    }
  }

  lemma MostCommonRanks(t: seq<Entry>, n: Option<nat>)
    ensures var r := MostCommon(t, n);
      forall e :: e in t && e !in r ==> forall x :: x in r ==> x.count >= e.count
  {
    var s := SortDesc(t);
    SortDescFacts(t);
    MostCommonShape(t, n);
    var r := MostCommon(t, n);
    var k := |r|;
    assert s == r + s[k..];
    PrefixOutranks(s, k);
    forall e | e in t && e !in r ensures e in s[k..] {
      assert e in multiset(s);
    }
  }

  /** `most_common(n)` keeps at most `n` entries, largest count first, each
      taken from the counter; nothing it drops outranks anything it keeps;
      among equal counts it keeps the ones that came first, in that order. */
  lemma MostCommonFacts(t: seq<Entry>, n: Option<nat>)
    ensures var r := MostCommon(t, n);
      && |r| == (if n.Some? then Min(n.value, |t|) else |t|)
      && SortedDesc(r)
      && multiset(r) <= multiset(t)
      && (forall e :: e in t && e !in r ==> forall x :: x in r ==> x.count >= e.count)
      && (forall c :: WithCount(r, c) <= WithCount(t, c))
      && Total(r) <= Total(t)
      && (n.None? ==> multiset(r) == multiset(t))
      && (DistinctKeys(t) ==> DistinctKeys(r))
  {
    MostCommonShape(t, n);
    MostCommonRanks(t, n);
    SortDescFacts(t);
    var r := MostCommon(t, n);
    forall c ensures WithCount(r, c) <= WithCount(t, c) {
      WithCountPrefix(SortDesc(t), |r|, c);
    }
  }
}
