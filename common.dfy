/** Shared building blocks: optional JavaScript values, string helpers with
    JavaScript semantics, and the sequence operations (filter, first-occurrence
    de-duplication, newest-first ordering) that the routes and pages reuse. */
module Common {

  /** A JavaScript value that may be `undefined`. */
  datatype Option<T> = None | Some(value: T)

  /** A string field is falsy in JavaScript when it is undefined or empty. */
  predicate Truthy(s: Option<string>) {
    s.Some? && s.value != ""
  }

  /** Template-literal rendering of a possibly undefined string. */
  function JsText(s: Option<string>): (r: string)
    ensures s.Some? ==> r == s.value
    ensures s.None? ==> r == "undefined"
  {
    match s
    case Some(v) => v
    case None => "undefined"
  }

  predicate StartsWith(s: string, prefix: string) {
    |prefix| <= |s| && s[..|prefix|] == prefix
  }

  predicate EndsWith(s: string, suffix: string) {
    |suffix| <= |s| && s[|s| - |suffix|..] == suffix
  }

  /** `s.replace(pat, "")` with a string pattern: only the first occurrence is removed. */
  function ReplaceFirst(s: string, pat: string): (r: string)
    requires pat != ""
    decreases |s|
  {
    if |s| < |pat| then s
    else if s[..|pat|] == pat then s[|pat|..]
    else [s[0]] + ReplaceFirst(s[1..], pat)
  }

  /** Removing a pattern that the string starts with leaves exactly the rest of the string. */
  lemma ReplaceFirstOfPrefix(s: string, pat: string)
    requires pat != "" && StartsWith(s, pat)
    ensures ReplaceFirst(s, pat) == s[|pat|..]
    ensures |ReplaceFirst(s, pat)| == |s| - |pat|
  {
  }

  /** The characters JavaScript's `\s` and `String.prototype.trim` treat as white space. */
  predicate IsWhitespace(c: char) {
    c == ' ' || c == '\t' || c == '\n' || c == '\r' || c == '\U{B}' || c == '\U{C}'
    || c == '\U{A0}' || c == '\U{1680}' || ('\U{2000}' <= c <= '\U{200A}')
    || c == '\U{2028}' || c == '\U{2029}' || c == '\U{202F}' || c == '\U{205F}'
    || c == '\U{3000}' || c == '\U{FEFF}'
  }

  function TrimStart(s: string): (r: string)
    ensures |r| <= |s| && r == s[|s| - |r|..]
    ensures r == [] || !IsWhitespace(r[0])
    ensures forall i :: 0 <= i < |s| - |r| ==> IsWhitespace(s[i])
  {
    if s != [] && IsWhitespace(s[0]) then TrimStart(s[1..]) else s
  }

  /** The index of the first non-white character at or after `i`, or `|s|`. */
  function SkipSpaceFrom(s: string, i: nat): (k: nat)
    requires i <= |s|
    ensures i <= k <= |s|
    ensures forall j :: i <= j < k ==> IsWhitespace(s[j])
    ensures k < |s| ==> !IsWhitespace(s[k])
    decreases |s| - i
  {
    if i < |s| && IsWhitespace(s[i]) then SkipSpaceFrom(s, i + 1) else i
  }

  /** Scanning back from `j`, no further than `lo`: the index where the trailing white space
      of `s[lo..j]` starts. */
  function SkipSpaceBack(s: string, lo: nat, j: nat): (k: nat)
    requires lo <= j <= |s|
    ensures lo <= k <= j
    ensures forall m :: k <= m < j ==> IsWhitespace(s[m])
    ensures k > lo ==> !IsWhitespace(s[k - 1])
    decreases j
  {
    if j > lo && IsWhitespace(s[j - 1]) then SkipSpaceBack(s, lo, j - 1) else j
  }

  /** Where the trimmed text starts in `s`. */
  function TrimFrom(s: string): nat {
    SkipSpaceFrom(s, 0)
  }

  /** Where the trimmed text ends in `s`. */
  function TrimTo(s: string): nat
    requires TrimFrom(s) <= |s|
  {
    SkipSpaceBack(s, TrimFrom(s), |s|)
  }

  /** `String.prototype.trim`: drops exactly the leading and the trailing white space. */
  function Trim(s: string): (r: string)
    ensures TrimFrom(s) <= TrimTo(s) <= |s| && r == s[TrimFrom(s)..TrimTo(s)]
    ensures forall i :: 0 <= i < TrimFrom(s) ==> IsWhitespace(s[i])
    ensures forall i :: TrimTo(s) <= i < |s| ==> IsWhitespace(s[i])
    ensures r == [] || (!IsWhitespace(r[0]) && !IsWhitespace(r[|r| - 1]))
    ensures r == [] <==> forall i :: 0 <= i < |s| ==> IsWhitespace(s[i])
  {
    var a := TrimFrom(s);
    var b := TrimTo(s);
    if a == b then
      []
    else
      assert s[a..b][0] == s[a] && s[a..b][b - a - 1] == s[b - 1];
      s[a..b]
  }

  /** `Array.prototype.filter`. */
  function Filter<T(==)>(s: seq<T>, p: T -> bool): (r: seq<T>)
    ensures |r| <= |s|
    ensures forall i :: 0 <= i < |r| ==> p(r[i]) && r[i] in s
    ensures forall i :: 0 <= i < |s| && p(s[i]) ==> s[i] in r
  {
    if s == [] then []
    else if p(s[0]) then [s[0]] + Filter(s[1..], p)
    else Filter(s[1..], p)
  }

  /** `findOne` with a single-field query: the first element that matches, if any. */
  function FindFirst<T(==)>(s: seq<T>, p: T -> bool): (r: Option<T>)
    ensures r.Some? ==> exists i :: 0 <= i < |s| && s[i] == r.value && p(s[i]) && forall j :: 0 <= j < i ==> !p(s[j])
    ensures r.None? <==> forall i :: 0 <= i < |s| ==> !p(s[i])
  {
    if s == [] then None
    else if p(s[0]) then Some(s[0])
    else
      var r := FindFirst(s[1..], p);
      assert r.Some? ==> exists i :: 0 <= i < |s| - 1 && s[1..][i] == r.value && p(s[1..][i]) && forall j :: 0 <= j < i ==> !p(s[1..][j]);
      if r.Some? then
        var i :| 0 <= i < |s| - 1 && s[1..][i] == r.value && p(s[1..][i]) && forall j :: 0 <= j < i ==> !p(s[1..][j]);
        assert forall j :: 0 <= j < i + 1 ==> !p(s[j]) by {
          forall j | 0 <= j < i + 1 ensures !p(s[j]) {
            if j > 0 { assert s[j] == s[1..][j - 1]; }
          }
        }
        r
      else
        assert forall i :: 1 <= i < |s| ==> s[i] == s[1..][i - 1];
        r
  }

  /** `a` is obtained from `b` by deleting elements, keeping the order of the rest. */
  predicate IsSubseq<T(==)>(a: seq<T>, b: seq<T>)
    decreases |b|
  {
    a == [] || (b != [] && ((a[0] == b[0] && IsSubseq(a[1..], b[1..])) || IsSubseq(a, b[1..])))
  }

  lemma {:induction false} FilterIsSubseq<T>(s: seq<T>, p: T -> bool)
    ensures IsSubseq(Filter(s, p), s)
  {
    if s != [] {
      FilterIsSubseq(s[1..], p);
      if !p(s[0]) {
        var r := Filter(s[1..], p);
        SubseqDropHead(r, s);
      }
    }
  }

  /** A subsequence of the tail is a subsequence of the whole. */
  lemma {:induction false} SubseqDropHead<T>(a: seq<T>, b: seq<T>)
    requires b != [] && IsSubseq(a, b[1..])
    ensures IsSubseq(a, b)
    decreases |b|
  {
  }

  /** Appending an element to the whole keeps a subsequence one, with or without that
      element appended to the subsequence too. */
  lemma {:induction false} SubseqSnoc<T>(a: seq<T>, b: seq<T>, x: T)
    requires IsSubseq(a, b)
    ensures IsSubseq(a, b + [x]) && IsSubseq(a + [x], b + [x])
    decreases |b|
  {
    if b == [] {
      assert a == [] && a + [x] == [x] && [x][1..] == [];
    } else {
      assert (b + [x])[1..] == b[1..] + [x];
      if a == [] {
        SubseqSnoc(a, b[1..], x);
        SubseqDropHead(a + [x], b + [x]);
      } else {
        assert (a + [x])[1..] == a[1..] + [x];
        if a[0] == b[0] && IsSubseq(a[1..], b[1..]) {
          SubseqSnoc(a[1..], b[1..], x);
        } else {
          SubseqSnoc(a, b[1..], x);
          SubseqDropHead(a, b + [x]);
          SubseqDropHead(a + [x], b + [x]);
        }
      }
    }
  }

  /** Filtering keeps a sequence whole when every element passes. */
  lemma {:induction false} FilterAllKept<T>(s: seq<T>, p: T -> bool)
    requires forall i :: 0 <= i < |s| ==> p(s[i])
    ensures Filter(s, p) == s
  {
    if s != [] {
      FilterAllKept(s[1..], p);
    }
  }

  /** Filtering keeps nothing when no element passes. */
  lemma {:induction false} FilterNoneKept<T>(s: seq<T>, p: T -> bool)
    requires forall i :: 0 <= i < |s| ==> !p(s[i])
    ensures Filter(s, p) == []
  {
    if s != [] {
      FilterNoneKept(s[1..], p);
    }
  }

  /** Filtering a sequence extended by one element extends the result by that element iff it is kept. */
  lemma {:induction false} FilterSnoc<T>(s: seq<T>, x: T, p: T -> bool)
    ensures Filter(s + [x], p) == Filter(s, p) + (if p(x) then [x] else [])
  {
    if s != [] {
      assert (s + [x])[1..] == s[1..] + [x];
      FilterSnoc(s[1..], x, p);
    } else {
      assert [x][1..] == [];
    }
  }

  /** Filtering a concatenation filters each part. */
  lemma {:induction false} FilterAppend<T>(a: seq<T>, b: seq<T>, p: T -> bool)
    ensures Filter(a + b, p) == Filter(a, p) + Filter(b, p)
  {
    if a != [] {
      assert (a + b)[1..] == a[1..] + b;
      FilterAppend(a[1..], b, p);
    } else {
      assert a + b == b;
    }
  }

  /** The elements a filter keeps and the elements it drops together make up the input. */
  lemma {:induction false} FilterPartition<T>(s: seq<T>, p: T -> bool, q: T -> bool)
    requires forall x :: q(x) == !p(x)
    ensures multiset(Filter(s, p)) + multiset(Filter(s, q)) == multiset(s)
    ensures |Filter(s, p)| + |Filter(s, q)| == |s|
  {
    if s != [] {
      FilterPartition(s[1..], p, q);
      assert s == [s[0]] + s[1..];
    }
  }

  // ---------------------------------------------------------------------------
  // Keeping the first element per key (a `seen` set threaded through a filter).

  function KeySet<T(==), K(==)>(s: seq<T>, key: T -> K): set<K> {
    set x | x in s :: key(x)
  }

  /** Keep an element iff its key is neither in `seen` nor the key of an earlier element. */
  function KeepFirst<T(==), K(==)>(s: seq<T>, key: T -> K, seen: set<K>): (r: seq<T>)
    ensures |r| <= |s|
    ensures forall i :: 0 <= i < |r| ==> r[i] in s && key(r[i]) !in seen
  {
    if s == [] then []
    else if key(s[0]) in seen then KeepFirst(s[1..], key, seen)
    else [s[0]] + KeepFirst(s[1..], key, seen + {key(s[0])})
  }

  predicate KeysDistinct<T(==), K(==)>(s: seq<T>, key: T -> K) {
    forall i, j :: 0 <= i < j < |s| ==> key(s[i]) != key(s[j])
  }

  lemma {:induction false} KeepFirstIsSubseq<T, K>(s: seq<T>, key: T -> K, seen: set<K>)
    ensures IsSubseq(KeepFirst(s, key, seen), s)
  {
    if s != [] {
      if key(s[0]) in seen {
        KeepFirstIsSubseq(s[1..], key, seen);
        SubseqDropHead(KeepFirst(s[1..], key, seen), s);
      } else {
        KeepFirstIsSubseq(s[1..], key, seen + {key(s[0])});
      }
    }
  }

  /** No two kept elements share a key. */
  lemma {:induction false} KeepFirstKeysDistinct<T, K>(s: seq<T>, key: T -> K, seen: set<K>)
    ensures KeysDistinct(KeepFirst(s, key, seen), key)
  {
    if s != [] {
      if key(s[0]) in seen {
        KeepFirstKeysDistinct(s[1..], key, seen);
      } else {
        var seen' := seen + {key(s[0])};
        KeepFirstKeysDistinct(s[1..], key, seen');
        var rest := KeepFirst(s[1..], key, seen');
        var r := [s[0]] + rest;
        forall i, j | 0 <= i < j < |r| ensures key(r[i]) != key(r[j]) {
          if i == 0 {
            assert r[j] in rest;
          }
        }
      }
    }
  }

  /** Every key of the input that is not already seen is the key of some kept element. */
  lemma {:induction false} KeepFirstKeySet<T, K>(s: seq<T>, key: T -> K, seen: set<K>)
    ensures KeySet(KeepFirst(s, key, seen), key) == KeySet(s, key) - seen
  {
    if s != [] {
      var t := s[1..];
      assert s == [s[0]] + t;
      assert KeySet(s, key) == {key(s[0])} + KeySet(t, key);
      if key(s[0]) in seen {
        KeepFirstKeySet(t, key, seen);
      } else {
        var seen' := seen + {key(s[0])};
        KeepFirstKeySet(t, key, seen');
        var rest := KeepFirst(t, key, seen');
        assert KeySet([s[0]] + rest, key) == {key(s[0])} + KeySet(rest, key);
      }
    }
  }

  /** The first element carrying a key not yet seen is kept. */
  lemma {:induction false} KeepFirstKeepsFirst<T, K>(s: seq<T>, key: T -> K, seen: set<K>, i: nat)
    requires i < |s| && key(s[i]) !in seen
    requires forall j :: 0 <= j < i ==> key(s[j]) != key(s[i])
    ensures s[i] in KeepFirst(s, key, seen)
  {
    if i > 0 {
      var seen' := if key(s[0]) in seen then seen else seen + {key(s[0])};
      KeepFirstKeepsFirst(s[1..], key, seen', i - 1);
    }
  }

  /** A later element whose key was already carried by an earlier one is dropped
      (unless it is equal to a kept element, in which case it is indistinguishable). */
  lemma KeepFirstDropsLater<T, K>(s: seq<T>, key: T -> K, i: nat, j: nat)
    requires i < j < |s| && key(s[i]) == key(s[j]) && s[i] != s[j]
    requires forall k :: 0 <= k < i ==> key(s[k]) != key(s[i])
    ensures s[j] !in KeepFirst(s, key, {})
  {
    var r := KeepFirst(s, key, {});
    KeepFirstKeepsFirst(s, key, {}, i);
    KeepFirstKeysDistinct(s, key, {});
    var a :| 0 <= a < |r| && r[a] == s[i];
    forall b | 0 <= b < |r| ensures r[b] != s[j] {
      if b < a {
        assert key(r[b]) != key(r[a]);
      } else if a < b {
        assert key(r[a]) != key(r[b]);
      }
    }
  }

  /** Keeping the first element per key changes nothing once the keys are distinct. */
  lemma {:induction false} KeepFirstOfDistinct<T, K>(s: seq<T>, key: T -> K, seen: set<K>)
    requires KeysDistinct(s, key)
    requires forall x :: x in s ==> key(x) !in seen
    ensures KeepFirst(s, key, seen) == s
  {
    if s != [] {
      var t := s[1..];
      forall x | x in t ensures key(x) !in seen + {key(s[0])} {
        var k :| 0 <= k < |t| && t[k] == x;
        assert s[k + 1] == x;
      }
      assert KeysDistinct(t, key) by {
        forall i, j | 0 <= i < j < |t| ensures key(t[i]) != key(t[j]) {
          assert t[i] == s[i + 1] && t[j] == s[j + 1];
        }
      }
      KeepFirstOfDistinct(t, key, seen + {key(s[0])});
    }
  }

  /** De-duplicating by key is idempotent. */
  lemma KeepFirstIdempotent<T, K>(s: seq<T>, key: T -> K)
    ensures KeepFirst(KeepFirst(s, key, {}), key, {}) == KeepFirst(s, key, {})
  {
    KeepFirstKeysDistinct(s, key, {});
    KeepFirstOfDistinct(KeepFirst(s, key, {}), key, {});
  }

  /** The position of the first occurrence of `x` in `s`. */
  function FirstIndex<T(==)>(s: seq<T>, x: T): (k: nat)
    requires x in s
    ensures k < |s| && s[k] == x
    ensures forall j :: 0 <= j < k ==> s[j] != x
  {
    if s[0] == x then 0 else 1 + FirstIndex(s[1..], x)
  }

  /** The elements kept by `KeepFirst` under the identity key come in the order of their
      first occurrences in `s`. */
  lemma {:induction false} KeepFirstOrder<T>(s: seq<T>, id: T -> T, seen: set<T>)
    requires forall x :: id(x) == x
    ensures forall i, j :: 0 <= i < j < |KeepFirst(s, id, seen)| ==>
              FirstIndex(s, KeepFirst(s, id, seen)[i]) < FirstIndex(s, KeepFirst(s, id, seen)[j])
  {
    if s != [] {
      var t := s[1..];
      var seen' := if s[0] in seen then seen else seen + {s[0]};
      KeepFirstOrder(t, id, seen');
      var rest := KeepFirst(t, id, seen');
      var r := KeepFirst(s, id, seen);
      forall k | 0 <= k < |rest| ensures FirstIndex(s, rest[k]) == 1 + FirstIndex(t, rest[k]) {
        assert rest[k] != s[0];
      }
      if s[0] in seen {
        assert r == rest;
      } else {
        assert r == [s[0]] + rest;
        forall i, j | 0 <= i < j < |r| ensures FirstIndex(s, r[i]) < FirstIndex(s, r[j]) {
          assert r[j] == rest[j - 1];
          if i > 0 {
            assert r[i] == rest[i - 1];
          }
        }
      }
    }
  }

  /** `[...new Set(s)]`: the distinct values in order of first appearance. */
  function Distinct<T(==)>(s: seq<T>): (r: seq<T>)
  {
    KeepFirst(s, x => x, {})
  }

  lemma DistinctProperties<T>(s: seq<T>)
    ensures IsSubseq(Distinct(s), s)
    ensures forall i, j :: 0 <= i < j < |Distinct(s)| ==> Distinct(s)[i] != Distinct(s)[j]
    ensures forall x :: x in Distinct(s) <==> x in s
    ensures forall i, j :: 0 <= i < j < |Distinct(s)| ==> FirstIndex(s, Distinct(s)[i]) < FirstIndex(s, Distinct(s)[j])
  {
    var id := (x: T) => x;
    KeepFirstOrder(s, id, {});
    KeepFirstIsSubseq(s, id, {});
    KeepFirstKeysDistinct(s, id, {});
    KeepFirstKeySet(s, id, {});
    forall x ensures x in Distinct(s) <==> x in s {
      if x in s {
        assert id(x) in KeySet(s, id);
        assert id(x) in KeySet(Distinct(s), id);
        var y :| y in Distinct(s) && id(y) == x;
      }
    }
  }

  // ---------------------------------------------------------------------------
  // Newest-first ordering (`.sort({ field: -1 })`), as a stable insertion sort.

  predicate SortedDesc<T(==)>(s: seq<T>, key: T -> int) {
    forall i, j :: 0 <= i < j < |s| ==> key(s[i]) >= key(s[j])
  }

  function Insert<T(==)>(x: T, s: seq<T>, key: T -> int): (r: seq<T>)
    ensures multiset(r) == multiset(s) + multiset{x}
    ensures |r| == |s| + 1
  {
    if s == [] then [x]
    else if key(s[0]) <= key(x) then [x] + s
    else
      assert s == [s[0]] + s[1..];
      [s[0]] + Insert(x, s[1..], key)
  }

  function SortDesc<T(==)>(s: seq<T>, key: T -> int): (r: seq<T>)
    ensures multiset(r) == multiset(s)
    ensures |r| == |s|
  {
    if s == [] then []
    else
      assert s == [s[0]] + s[1..];
      Insert(s[0], SortDesc(s[1..], key), key)
  }

  lemma {:induction false} InsertSorted<T>(x: T, s: seq<T>, key: T -> int)
    requires SortedDesc(s, key)
    ensures SortedDesc(Insert(x, s, key), key)
  {
    if s != [] && key(s[0]) > key(x) {
      InsertSorted(x, s[1..], key);
      var rest := Insert(x, s[1..], key);
      forall y | y in rest ensures key(s[0]) >= key(y) {
        assert y in multiset(rest);
        assert y in multiset(s[1..]) + multiset{x};
      }
    }
  }

  /** The listing order is newest first, and it holds exactly the records it was given. */
  lemma {:induction false} SortDescSorted<T>(s: seq<T>, key: T -> int)
    ensures SortedDesc(SortDesc(s, key), key)
    ensures forall x :: x in SortDesc(s, key) <==> x in s
  {
    if s != [] {
      SortDescSorted(s[1..], key);
      InsertSorted(s[0], SortDesc(s[1..], key), key);
    }
    forall x ensures x in SortDesc(s, key) <==> x in s {
      assert x in SortDesc(s, key) <==> x in multiset(SortDesc(s, key));
    }
  }
}
