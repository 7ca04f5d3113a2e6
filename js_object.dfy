/** The plain JavaScript objects the chart pages use as tallies: `o[k] = (o[k] || 0) + v`
    inside a `forEach`, then `Object.keys(o)`. An object remembers the order in which its
    keys were first assigned; `Object.keys` lists the array-index keys first, in ascending
    numeric order, and then the other keys in that insertion order. */
module JsObject {
  import opened Common

  predicate IsDigit(c: char) {
    '0' <= c <= '9'
  }

  function DigitValue(c: char): nat
    requires IsDigit(c)
  {
    c as int - '0' as int
  }

  function DigitsValue(s: string): nat
    requires forall i :: 0 <= i < |s| ==> IsDigit(s[i])
  {
    if s == [] then 0 else DigitsValue(s[..|s| - 1]) * 10 + DigitValue(s[|s| - 1])
  }

  /** A canonical decimal numeral below 2^32 - 1: the keys JavaScript orders numerically. */
  predicate IsArrayIndex(k: string) {
    && k != []
    && (forall i :: 0 <= i < |k| ==> IsDigit(k[i]))
    && (k[0] != '0' || |k| == 1)
    && DigitsValue(k) < 0xFFFF_FFFF
  }

  function IndexValue(k: string): nat {
    if IsArrayIndex(k) then DigitsValue(k) else 0
  }

  /** A key that is not an array index: `Object.keys` lists these in insertion order. */
  predicate IsOtherKey(k: string) {
    !IsArrayIndex(k)
  }

  /** `Object.keys` of an object whose keys were first assigned in the order `insertion`. */
  function ObjectKeys(insertion: seq<string>): (r: seq<string>)
    ensures multiset(r) == multiset(insertion)
    ensures forall i, j :: 0 <= i < j < |r| && IsArrayIndex(r[j]) ==> IsArrayIndex(r[i])
    ensures forall i, j :: 0 <= i < j < |r| && IsArrayIndex(r[i]) && IsArrayIndex(r[j]) ==>
              IndexValue(r[i]) <= IndexValue(r[j])
    ensures Filter(r, IsOtherKey) == Filter(insertion, IsOtherKey)
  {
    var ascending: string -> int := k => -(IndexValue(k) as int);
    var indices := SortDesc(Filter(insertion, IsArrayIndex), ascending);
    var others := Filter(insertion, IsOtherKey);
    FilterPartition(insertion, IsArrayIndex, IsOtherKey);
    SortDescSorted(Filter(insertion, IsArrayIndex), ascending);
    IndicesThenOthers(indices, others);
    FilterAppend(indices, others, IsOtherKey);
    FilterNoneKept(indices, IsOtherKey);
    FilterAllKept(others, IsOtherKey);
    indices + others
  }

  /** Without array-index keys, `Object.keys` is exactly the insertion order. */
  lemma ObjectKeysWithoutIndices(insertion: seq<string>)
    requires forall i :: 0 <= i < |insertion| ==> IsOtherKey(insertion[i])
    ensures ObjectKeys(insertion) == insertion
  {
    var r := ObjectKeys(insertion);
    FilterAllKept(insertion, IsOtherKey);
    forall i | 0 <= i < |r| ensures IsOtherKey(r[i]) {
      assert r[i] in multiset(insertion);
    }
    FilterAllKept(r, IsOtherKey);
  }

  /** Of two keys, an array index is listed before a key that is not one, whatever the
      order of assignment. */
  lemma IndexKeyFirst(other: string, index: string)
    requires IsOtherKey(other) && IsArrayIndex(index)
    ensures ObjectKeys([other, index]) == [index, other]
  {
    var keys := [other, index];
    assert keys[1..] == [index] && [index][1..] == [];
    assert Filter(keys, IsArrayIndex) == [index];
    assert Filter(keys, IsOtherKey) == [other];
    assert SortDesc([index], k => -(IndexValue(k) as int)) == [index];
  }

  /** "2024" is an array index. */
  lemma YearIsIndex()
    ensures IsArrayIndex("2024") && IndexValue("2024") == 2024
  {
    assert "2024"[..3] == "202" && "202"[..2] == "20" && "20"[..1] == "2" && "2"[..0] == "";
  }

  /** Ascending array indices followed by non-index keys have the order `Object.keys` gives. */
  lemma IndicesThenOthers(indices: seq<string>, others: seq<string>)
    requires forall i, j :: 0 <= i < j < |indices| ==> -(IndexValue(indices[i]) as int) >= -(IndexValue(indices[j]) as int)
    requires forall x :: x in indices ==> IsArrayIndex(x)
    requires forall i :: 0 <= i < |others| ==> !IsArrayIndex(others[i])
    ensures forall i, j :: 0 <= i < j < |indices + others| && IsArrayIndex((indices + others)[j]) ==>
              IsArrayIndex((indices + others)[i])
    ensures forall i, j ::
              0 <= i < j < |indices + others| && IsArrayIndex((indices + others)[i]) && IsArrayIndex((indices + others)[j])
              ==> IndexValue((indices + others)[i]) <= IndexValue((indices + others)[j])
  {
    var r := indices + others;
    forall i, j | 0 <= i < j < |r| && IsArrayIndex(r[j]) ensures IsArrayIndex(r[i]) {
      assert j < |indices|;
      assert r[i] == indices[i];
    }
  }

  /** An object used as a tally: its values and the order its keys were first assigned. */
  datatype Obj = Obj(vals: map<string, int>, order: seq<string>)

  ghost predicate Valid(o: Obj) {
    && (forall i, j :: 0 <= i < j < |o.order| ==> o.order[i] != o.order[j])
    && (forall k :: k in o.vals <==> k in o.order)
  }

  const Empty := Obj(map[], [])

  /** `o[k] = (o[k] || 0) + v`: a new key goes to the end of the insertion order, an existing
      key keeps its place. */
  function Bump(o: Obj, k: string, v: int): (r: Obj)
    ensures k in r.vals
    ensures r.vals[k] == (if k in o.vals then o.vals[k] else 0) + v
    ensures forall k' :: k' != k ==> (k' in r.vals <==> k' in o.vals)
    ensures forall k' :: k' != k && k' in o.vals ==> r.vals[k'] == o.vals[k']
    ensures k in o.vals ==> r.order == o.order
    ensures k !in o.vals ==> r.order == o.order + [k]
    ensures Valid(o) ==> Valid(r)
  {
    if k in o.vals then Obj(o.vals[k := o.vals[k] + v], o.order)
    else Obj(o.vals[k := v], o.order + [k])
  }

  /** The object left by bumping `e.0` by `e.1` for every entry, in order. */
  function Tally(entries: seq<(string, int)>): (o: Obj)
    ensures Valid(o)
  {
    if entries == [] then Empty
    else
      var last := entries[|entries| - 1];
      Bump(Tally(entries[..|entries| - 1]), last.0, last.1)
  }

  /** The total of the amounts of the entries filed under `k`. */
  function AmountFor(entries: seq<(string, int)>, k: string): int {
    if entries == [] then 0
    else
      var last := entries[|entries| - 1];
      AmountFor(entries[..|entries| - 1], k) + (if last.0 == k then last.1 else 0)
  }

  function TotalAmount(entries: seq<(string, int)>): int {
    if entries == [] then 0 else TotalAmount(entries[..|entries| - 1]) + entries[|entries| - 1].1
  }

  /** The tally holds a key iff some entry has it, and then the sum of that key's amounts. */
  lemma TallyValues(entries: seq<(string, int)>)
    ensures forall k :: k in Tally(entries).vals <==> exists i :: 0 <= i < |entries| && entries[i].0 == k
    ensures forall k :: k in Tally(entries).vals ==> Tally(entries).vals[k] == AmountFor(entries, k)
  {
    TallyKeys(entries);
    TallyAmounts(entries);
  }

  lemma TallyKeys(entries: seq<(string, int)>)
    ensures forall k :: k in Tally(entries).vals <==> exists i :: 0 <= i < |entries| && entries[i].0 == k
  {
    forall k ensures k in Tally(entries).vals <==> exists i :: 0 <= i < |entries| && entries[i].0 == k {
      TallyHas(entries, k);
    }
  }

  lemma {:induction false} TallyHas(entries: seq<(string, int)>, k: string)
    ensures k in Tally(entries).vals <==> exists i :: 0 <= i < |entries| && entries[i].0 == k
  {
    if entries != [] {
      var n := |entries|;
      var prefix := entries[..n - 1];
      TallyHas(prefix, k);
      if k != entries[n - 1].0 {
        if exists i :: 0 <= i < n && entries[i].0 == k {
          var i :| 0 <= i < n && entries[i].0 == k;
          assert prefix[i].0 == k;
        }
        if exists i :: 0 <= i < |prefix| && prefix[i].0 == k {
          var i :| 0 <= i < |prefix| && prefix[i].0 == k;
          assert entries[i].0 == k;
        }
      }
    }
  }

  lemma {:induction false} TallyAmounts(entries: seq<(string, int)>)
    ensures forall k :: k in Tally(entries).vals ==> Tally(entries).vals[k] == AmountFor(entries, k)
  {
    if entries != [] {
      var prefix := entries[..|entries| - 1];
      var last := entries[|entries| - 1];
      TallyAmounts(prefix);
      TallyKeys(prefix);
      forall k | k in Tally(entries).vals ensures Tally(entries).vals[k] == AmountFor(entries, k) {
        if k != last.0 {
          assert k in Tally(prefix).vals;
        } else if k !in Tally(prefix).vals {
          AmountForAbsent(prefix, k);
        }
      }
    }
  }

  lemma {:induction false} AmountForAbsent(entries: seq<(string, int)>, k: string)
    requires forall i :: 0 <= i < |entries| ==> entries[i].0 != k
    ensures AmountFor(entries, k) == 0
  {
    if entries != [] {
      AmountForAbsent(entries[..|entries| - 1], k);
    }
  }

  /** The value of `k` in `m`, or 0 when it has none: `m[k] || 0`. */
  function ValueOr0(m: map<string, int>, k: string): int {
    if k in m then m[k] else 0
  }

  /** The sum of `m[k]` over the keys `ks`. */
  function SumOver(ks: seq<string>, m: map<string, int>): int {
    if ks == [] then 0 else SumOver(ks[..|ks| - 1], m) + ValueOr0(m, ks[|ks| - 1])
  }

  lemma {:induction false} SumOverUpdateOutside(ks: seq<string>, m: map<string, int>, k: string, v: int)
    requires forall i :: 0 <= i < |ks| ==> ks[i] != k
    ensures SumOver(ks, m[k := v]) == SumOver(ks, m)
  {
    if ks != [] {
      SumOverUpdateOutside(ks[..|ks| - 1], m, k, v);
    }
  }

  lemma {:induction false} SumOverUpdateOnce(ks: seq<string>, m: map<string, int>, k: string, d: int)
    requires forall i, j :: 0 <= i < j < |ks| ==> ks[i] != ks[j]
    requires k in ks && k in m
    ensures SumOver(ks, m[k := m[k] + d]) == SumOver(ks, m) + d
  {
    var prefix := ks[..|ks| - 1];
    if ks[|ks| - 1] == k {
      SumOverUpdateOutside(prefix, m, k, m[k] + d);
    } else {
      assert k in prefix;
      SumOverUpdateOnce(prefix, m, k, d);
    }
  }

  /** Summing the tally's values over its keys gives the total of all amounts. */
  lemma {:induction false} TallySum(entries: seq<(string, int)>)
    ensures SumOver(Tally(entries).order, Tally(entries).vals) == TotalAmount(entries)
  {
    if entries != [] {
      var prefix := entries[..|entries| - 1];
      var last := entries[|entries| - 1];
      TallySum(prefix);
      assert Valid(Tally(prefix));
      BumpSum(Tally(prefix), last.0, last.1);
    }
  }

  /** One bump raises the sum over the keys by the bumped amount. */
  lemma BumpSum(o: Obj, k: string, v: int)
    requires forall i, j :: 0 <= i < j < |o.order| ==> o.order[i] != o.order[j]
    requires k in o.vals <==> k in o.order
    ensures SumOver(Bump(o, k, v).order, Bump(o, k, v).vals) == SumOver(o.order, o.vals) + v
  {
    if k in o.vals {
      assert Bump(o, k, v) == Obj(o.vals[k := o.vals[k] + v], o.order);
      SumOverUpdateOnce(o.order, o.vals, k, v);
    } else {
      assert Bump(o, k, v) == Obj(o.vals[k := v], o.order + [k]);
      SumOverAppend(o.order, o.vals, k, v);
    }
  }

  /** Adding a new key at the end adds its value to the sum. */
  lemma SumOverAppend(ks: seq<string>, m: map<string, int>, k: string, v: int)
    requires forall i :: 0 <= i < |ks| ==> ks[i] != k
    ensures SumOver(ks + [k], m[k := v]) == SumOver(ks, m) + v
  {
    assert (ks + [k])[..|ks|] == ks;
    SumOverUpdateOutside(ks, m, k, v);
  }

  lemma {:induction false} SumOverRemoveAt(ks: seq<string>, m: map<string, int>, i: nat)
    requires i < |ks|
    ensures SumOver(ks, m) == SumOver(ks[..i] + ks[i + 1..], m) + ValueOr0(m, ks[i])
  {
    var n := |ks|;
    if i < n - 1 {
      var prefix := ks[..n - 1];
      SumOverRemoveAt(prefix, m, i);
      var shorter := ks[..i] + ks[i + 1..];
      assert shorter[..|shorter| - 1] == prefix[..i] + prefix[i + 1..];
      assert shorter[|shorter| - 1] == ks[n - 1];
    } else {
      assert ks[..i] + ks[i + 1..] == ks[..n - 1];
    }
  }

  /** The sum over keys does not depend on the order in which the keys are listed. */
  lemma {:induction false} SumOverPermutation(a: seq<string>, b: seq<string>, m: map<string, int>)
    requires multiset(a) == multiset(b)
    ensures SumOver(a, m) == SumOver(b, m)
    decreases |a|
  {
    if a != [] {
      var n := |a|;
      var x := a[n - 1];
      var i := MatchLast(a, b);
      var b' := b[..i] + b[i + 1..];
      calc {
        SumOver(a, m);
        SumOver(a[..n - 1], m) + ValueOr0(m, x);
        { SumOverPermutation(a[..n - 1], b', m); }
        SumOver(b', m) + ValueOr0(m, x);
        { SumOverRemoveAt(b, m, i); }
        SumOver(b, m);
      }
    } else {
      assert |b| == |multiset(b)|;
    }
  }

  /** Where the last element of `a` sits in its permutation `b`, and what is left of both. */
  lemma MatchLast(a: seq<string>, b: seq<string>) returns (i: nat)
    requires multiset(a) == multiset(b) && a != []
    ensures i < |b| && b[i] == a[|a| - 1]
    ensures multiset(a[..|a| - 1]) == multiset(b[..i] + b[i + 1..])
  {
    var n := |a|;
    assert a[n - 1] in multiset(b);
    i :| 0 <= i < |b| && b[i] == a[n - 1];
    MultisetRemoveAt(b, i);
    assert a == a[..n - 1] + [a[n - 1]];
    assert multiset(a) == multiset(a[..n - 1]) + multiset{a[n - 1]};
  }

  lemma MultisetRemoveAt(s: seq<string>, i: nat)
    requires i < |s|
    ensures multiset(s[..i] + s[i + 1..]) == multiset(s) - multiset{s[i]}
  {
    assert s == s[..i] + [s[i]] + s[i + 1..];
  }

  /** Every key `Object.keys` lists has a value. */
  lemma ObjectKeysPresent(o: Obj)
    requires Valid(o)
    ensures forall j :: 0 <= j < |ObjectKeys(o.order)| ==> ObjectKeys(o.order)[j] in o.vals
  {
    var keys := ObjectKeys(o.order);
    forall j | 0 <= j < |keys| ensures keys[j] in o.vals {
      assert keys[j] in multiset(o.order);
    }
  }

  /** The values listed under `Object.keys` of a tally add up to the total of all amounts. */
  lemma ObjectKeysSum(entries: seq<(string, int)>)
    ensures forall j :: 0 <= j < |ObjectKeys(Tally(entries).order)| ==>
              ObjectKeys(Tally(entries).order)[j] in Tally(entries).vals
    ensures SumOver(ObjectKeys(Tally(entries).order), Tally(entries).vals) == TotalAmount(entries)
  {
    var o := Tally(entries);
    var keys := ObjectKeys(o.order);
    TallySum(entries);
    ObjectKeysPresent(o);
    SumOverPermutation(o.order, keys, o.vals);
  }
}
