/** Sequence operations that the dataframe expressions of the application are built from:
    selecting rows by a boolean mask, selecting rows by position, dropping duplicate keys
    and summing a column. */
module Collections {

  /** The elements of `s` that satisfy `p`, in their original order: `df[mask]`. */
  function Where<T(!new)>(s: seq<T>, p: T -> bool): (r: seq<T>)
    ensures |r| <= |s|
    ensures forall x :: x in r <==> x in s && p(x)
  {
    if s == [] then [] else (if p(s[0]) then [s[0]] else []) + Where(s[1..], p)
  }

  /** Filtering distributes over concatenation: the relative order of rows is kept. */
  lemma {:induction false} WhereAppend<T(!new)>(s: seq<T>, t: seq<T>, p: T -> bool)
    ensures Where(s + t, p) == Where(s, p) + Where(t, p)
  {
    if s != [] {
      assert (s + t)[0] == s[0] && (s + t)[1..] == s[1..] + t;
      WhereAppend(s[1..], t, p);
      assert Where(s + t, p) == (if p(s[0]) then [s[0]] else []) + Where(s[1..] + t, p);
    } else {
      assert s + t == t;
    }
  }

  /** Two masks in a row select what their conjunction selects. */
  lemma {:induction false} WhereWhere<T(!new)>(s: seq<T>, p: T -> bool, q: T -> bool, pq: T -> bool)
    requires forall x :: x in s ==> pq(x) == (p(x) && q(x))
    ensures Where(Where(s, p), q) == Where(s, pq)
  {
    if s != [] {
      WhereWhere(s[1..], p, q, pq);
      WhereAppend(if p(s[0]) then [s[0]] else [], Where(s[1..], p), q);
    }
  }

  /** Masks that agree on every element select the same rows. */
  lemma {:induction false} WhereExt<T(!new)>(s: seq<T>, p: T -> bool, q: T -> bool)
    requires forall x :: x in s ==> p(x) == q(x)
    ensures Where(s, p) == Where(s, q)
  {
    if s != [] {
      WhereExt(s[1..], p, q);
    }
  }

  /** A mask that every element passes keeps the whole sequence. */
  lemma {:induction false} WhereAll<T(!new)>(s: seq<T>, p: T -> bool)
    requires forall x :: x in s ==> p(x)
    ensures Where(s, p) == s
  {
    if s != [] {
      WhereAll(s[1..], p);
    }
  }

  /** A mask that no element passes keeps nothing. */
  lemma WhereNone<T(!new)>(s: seq<T>, p: T -> bool)
    requires forall x :: x in s ==> !p(x)
    ensures Where(s, p) == []
  {
    if Where(s, p) != [] {
      assert Where(s, p)[0] in Where(s, p);
    }
  }
  /** One step of locating part `k` in a concatenation of parts: appending part `j` adds
      part `k`'s rows only when `j` is `k`. */
  lemma WherePartStep<T(!new)>(before: seq<T>, last: seq<T>, p: T -> bool, j: nat, k: nat, part: seq<T>)
    requires Where(before, p) == if k < j then part else []
    requires Where(last, p) == if j == k then last else []
    requires j == k ==> last == part
    ensures Where(before + last, p) == if k < j + 1 then part else []
  {
    WhereAppend(before, last, p);
    if k < j {
      assert Where(before, p) + Where(last, p) == part + [];
    } else if k == j {
      assert Where(before, p) + Where(last, p) == [] + part;
    } else {
      assert Where(before, p) + Where(last, p) == [] + [];
    }
  }

  /** The parts, concatenated in order. */
  function Concat<T>(parts: seq<seq<T>>): seq<T>
  {
    if parts == [] then [] else Concat(parts[..|parts| - 1]) + parts[|parts| - 1]
  }

  /** Concatenating one more part appends it. */
  lemma ConcatStep<T>(parts: seq<seq<T>>, i: nat)
    requires i < |parts|
    ensures Concat(parts[..i + 1]) == Concat(parts[..i]) + parts[i]
  {
    assert parts[..i + 1][..i] == parts[..i];
  }

  /** The length of a concatenation is the sum of the parts' lengths. */
  lemma {:induction false} ConcatLength<T>(parts: seq<seq<T>>, lens: seq<int>)
    requires |parts| == |lens|
    requires forall j :: 0 <= j < |parts| ==> |parts[j]| == lens[j]
    ensures |Concat(parts)| == SumInt(lens)
    decreases |parts|
  {
    if parts != [] {
      var n := |parts| - 1;
      ConcatLength(parts[..n], lens[..n]);
      SumIntPrefixStep(lens, |lens|);
      assert lens[..|lens|] == lens;
    }
  }

  /** Each element of a concatenation of parts drawn from groups lies in one of the groups. */
  lemma {:induction false} ConcatMembers<T>(parts: seq<seq<T>>, groups: seq<seq<T>>)
    requires |parts| <= |groups|
    requires forall j, x :: 0 <= j < |parts| && x in parts[j] ==> x in groups[j]
    ensures forall x :: x in Concat(parts) ==> exists j :: 0 <= j < |parts| && x in groups[j]
    decreases |parts|
  {
    if parts != [] {
      var n := |parts| - 1;
      ConcatMembers(parts[..n], groups);
      forall x | x in Concat(parts)
        ensures exists j :: 0 <= j < |parts| && x in groups[j]
      {
        if x !in Concat(parts[..n]) {
          assert x in groups[n];
        }
      }
    }
  }

  /** A part whose elements all lie in group `j`, under a mask that holds exactly on
      group `k`: the mask keeps the whole part when `j` is `k`, and nothing otherwise. */
  lemma OnePart<T(!new)>(groups: seq<seq<T>>, part: seq<T>, j: nat, k: nat, p: T -> bool)
    requires j < |groups| && forall x :: x in part ==> x in groups[j]
    requires forall i, x :: 0 <= i < |groups| && x in groups[i] ==> (p(x) <==> i == k)
    ensures Where(part, p) == if j == k then part else []
  {
    if k == j {
      WhereAll(part, p);
    } else {
      WhereNone(part, p);
    }
  }

  /** Parts drawn from disjoint groups, concatenated: a mask that holds exactly on group
      `k` recovers part `k` and nothing else, in its own order. */
  lemma {:induction false} PartOfConcat<T(!new)>(parts: seq<seq<T>>, groups: seq<seq<T>>, k: nat, p: T -> bool)
    requires |parts| <= |groups|
    requires forall j, x :: 0 <= j < |parts| && x in parts[j] ==> x in groups[j]
    requires forall j, x :: 0 <= j < |groups| && x in groups[j] ==> (p(x) <==> j == k)
    ensures Where(Concat(parts), p) == if k < |parts| then parts[k] else []
    decreases |parts|
  {
    if parts != [] {
      var j := |parts| - 1;
      var init := parts[..j];
      var part := if k < |parts| then parts[k] else [];
      assert Where(Concat(init), p) == if k < j then part else [] by {
        PartOfConcat(init, groups, k, p);
      }
      assert Where(parts[j], p) == if j == k then parts[j] else [] by {
        OnePart(groups, parts[j], j, k, p);
      }
      assert Concat(parts) == Concat(init) + parts[j];
      WherePartStep(Concat(init), parts[j], p, j, k, part);
    } else {
      assert Where(Concat(parts), p) == [];
    }
  }


  /** Filtering keeps every passing row as often as it occurs, and no other row. */
  lemma {:induction false} WhereCount<T(!new)>(s: seq<T>, p: T -> bool, x: T)
    ensures multiset(Where(s, p))[x] == if p(x) then multiset(s)[x] else 0
  {
    if s != [] {
      WhereCount(s[1..], p, x);
      assert s == [s[0]] + s[1..];
    }
  }

  /** Filtering twice by the same mask changes nothing. */
  lemma WhereIdempotent<T(!new)>(s: seq<T>, p: T -> bool)
    ensures Where(Where(s, p), p) == Where(s, p)
  {
    WhereAll(Where(s, p), p);
  }

  /** Filtering only removes rows: every row keeps (at most) its multiplicity. */
  lemma {:induction false} WhereSubMultiset<T(!new)>(s: seq<T>, p: T -> bool)
    ensures multiset(Where(s, p)) <= multiset(s)
  {
    if s != [] {
      WhereSubMultiset(s[1..], p);
      assert s == [s[0]] + s[1..];
    }
  }

  predicate Distinct<T(==)>(s: seq<T>)
  {
    forall i, j :: 0 <= i < j < |s| ==> s[i] != s[j]
  }

  predicate InBounds(idx: seq<nat>, size: nat)
  {
    forall k :: 0 <= k < |idx| ==> idx[k] < size
  }

  predicate StrictlyIncreasing(s: seq<int>)
  {
    forall i, j :: 0 <= i < j < |s| ==> s[i] < s[j]
  }

  /** The rows of `s` at the positions `idx`, in the order of `idx`: `df.iloc[idx]`. */
  function Select<T>(s: seq<T>, idx: seq<nat>): (r: seq<T>)
    requires InBounds(idx, |s|)
    ensures |r| == |idx|
    ensures forall k :: 0 <= k < |idx| ==> r[k] == s[idx[k]]
  {
    seq(|idx|, k requires 0 <= k < |idx| => s[idx[k]])
  }

  /** The positions `idx` renumbered for the sequence with position `i` removed. */
  function Reindex(idx: seq<nat>, i: nat): (r: seq<nat>)
    ensures |r| == |idx|
    ensures forall k :: 0 <= k < |idx| ==> r[k] == if idx[k] <= i then idx[k] else idx[k] - 1
  {
    seq(|idx|, k requires 0 <= k < |idx| => if idx[k] <= i then idx[k] else idx[k] - 1)
  }

  lemma RemoveAt<T>(s: seq<T>, i: nat)
    requires i < |s|
    ensures multiset(s) == multiset(s[..i] + s[i + 1..]) + multiset{s[i]}
  {
    assert s == s[..i] + [s[i]] + s[i + 1..];
  }

  /** Selecting after the first position equals selecting the renumbered positions from
      the sequence without that position. */
  lemma SelectRemoved<T>(s: seq<T>, idx: seq<nat>)
    requires |idx| >= 1 && InBounds(idx, |s|) && Distinct(idx)
    ensures InBounds(Reindex(idx[1..], idx[0]), |s| - 1)
    ensures Distinct(Reindex(idx[1..], idx[0]))
    ensures Select(s, idx) == [s[idx[0]]] + Select(s[..idx[0]] + s[idx[0] + 1..], Reindex(idx[1..], idx[0]))
  {
    var i := idx[0];
    var s' := s[..i] + s[i + 1..];
    var rest := Reindex(idx[1..], i);
    forall k | 0 <= k < |rest|
      ensures rest[k] < |s'| && s'[rest[k]] == s[idx[k + 1]]
    {
      assert idx[0] != idx[k + 1];
    }
    forall a, b | 0 <= a < b < |rest|
      ensures rest[a] != rest[b]
    {
      assert idx[0] != idx[a + 1] && idx[0] != idx[b + 1] && idx[a + 1] != idx[b + 1];
    }
  }

  /** Rows taken at distinct positions form a sub-multiset of the table: no row is
      taken more often than it occurs. */
  lemma {:induction false} SelectSubMultiset<T>(s: seq<T>, idx: seq<nat>)
    requires InBounds(idx, |s|) && Distinct(idx)
    ensures multiset(Select(s, idx)) <= multiset(s)
    decreases |idx|
  {
    if idx != [] {
      var i := idx[0];
      SelectRemoved(s, idx);
      SelectSubMultiset(s[..i] + s[i + 1..], Reindex(idx[1..], i));
      RemoveAt(s, i);
    }
  }

  /** Every element of a sub-multiset is an element of the whole. */
  lemma SubMultisetMembers<T>(r: seq<T>, s: seq<T>)
    requires multiset(r) <= multiset(s)
    ensures forall x :: x in r ==> x in s
  {
    forall x | x in r
      ensures x in s
    {
      assert x in multiset(r);
    }
  }

  /** The set of keys of the rows of `s`. */
  function KeySet<T, K>(s: seq<T>, key: T -> K): set<K>
  {
    set i | 0 <= i < |s| :: key(s[i])
  }

  predicate DistinctKeys<T, K(==)>(s: seq<T>, key: T -> K)
  {
    forall i, j :: 0 <= i < j < |s| ==> key(s[i]) != key(s[j])
  }

  lemma KeySetAppend<T, K>(s: seq<T>, x: T, key: T -> K)
    ensures KeySet(s + [x], key) == KeySet(s, key) + {key(x)}
  {
    var l, r := KeySet(s + [x], key), KeySet(s, key) + {key(x)};
    forall k | k in l ensures k in r {
      var i :| 0 <= i < |s| + 1 && key((s + [x])[i]) == k;
      if i < |s| { assert key(s[i]) == k; }
    }
    forall k | k in r ensures k in l {
      if k == key(x) {
        assert (s + [x])[|s|] == x;
      } else {
        var i :| 0 <= i < |s| && key(s[i]) == k;
        assert (s + [x])[i] == s[i];
      }
    }
  }

  /** The first row for each key, in order: `drop_duplicates(subset=[key])`, which keeps
      the first occurrence. */
  function DedupBy<T, K(==)>(s: seq<T>, key: T -> K): (r: seq<T>)
    ensures |r| <= |s|
    ensures KeySet(r, key) == KeySet(s, key)
    ensures DistinctKeys(r, key)
    decreases |s|
  {
    if s == [] then []
    else
      var init, last := s[..|s| - 1], s[|s| - 1];
      var d := DedupBy(init, key);
      KeySetAppend(init, last, key);
      assert s == init + [last];
      KeySetAppend(d, last, key);
      if key(last) in KeySet(d, key) then d
      else
        assert forall i :: 0 <= i < |d| ==> key(d[i]) in KeySet(d, key);
        d + [last]
  }

  lemma KeySetConcat<T, K>(a: seq<T>, b: seq<T>, key: T -> K)
    ensures KeySet(a + b, key) == KeySet(a, key) + KeySet(b, key)
  {
    forall k | k in KeySet(a + b, key)
      ensures k in KeySet(a, key) + KeySet(b, key)
    {
      var i :| 0 <= i < |a + b| && key((a + b)[i]) == k;
      if i >= |a| {
        assert (a + b)[i] == b[i - |a|];
      }
    }
    forall k | k in KeySet(a, key) + KeySet(b, key)
      ensures k in KeySet(a + b, key)
    {
      if k in KeySet(a, key) {
        var i :| 0 <= i < |a| && key(a[i]) == k;
        assert (a + b)[i] == a[i];
      } else {
        var i :| 0 <= i < |b| && key(b[i]) == k;
        assert (a + b)[|a| + i] == b[i];
      }
    }
  }

  /** Deduplicating one more row keeps it exactly when its key is new. */
  lemma DedupByAppend<T, K>(s: seq<T>, x: T, key: T -> K)
    ensures DedupBy(s + [x], key) == if key(x) in KeySet(s, key) then DedupBy(s, key) else DedupBy(s, key) + [x]
  {
    assert (s + [x])[..|s|] == s;
  }

  /** Every row that survives deduplication is the first row of `s` with its key. */
  lemma {:induction false} DedupByFirstOccurrences<T, K>(s: seq<T>, key: T -> K)
    ensures forall j :: 0 <= j < |DedupBy(s, key)| ==>
      exists i :: 0 <= i < |s| && s[i] == DedupBy(s, key)[j] && key(s[i]) !in KeySet(s[..i], key)
    decreases |s|
  {
    if s != [] {
      var init, last := s[..|s| - 1], s[|s| - 1];
      DedupByFirstOccurrences(init, key);
      var d, r := DedupBy(init, key), DedupBy(s, key);
      assert r == d || (r == d + [last] && key(last) !in KeySet(d, key));
      forall j | 0 <= j < |r|
        ensures exists i :: 0 <= i < |s| && s[i] == r[j] && key(s[i]) !in KeySet(s[..i], key)
      {
        if j < |d| {
          assert r[j] == d[j];
          var i :| 0 <= i < |init| && init[i] == d[j] && key(init[i]) !in KeySet(init[..i], key);
          assert s[i] == init[i] && s[..i] == init[..i];
        } else {
          assert r[j] == last && s[..|s| - 1] == init;
          assert key(s[|s| - 1]) !in KeySet(s[..|s| - 1], key);
        }
      }
    } else {
      assert DedupBy(s, key) == [];
    }
  }

  /** Deduplicating a concatenation starts with the deduplicated first part: rows are only
      ever added after it. */
  lemma {:induction false} DedupByPrefix<T, K>(a: seq<T>, b: seq<T>, key: T -> K)
    ensures |DedupBy(a, key)| <= |DedupBy(a + b, key)|
    ensures DedupBy(a + b, key)[..|DedupBy(a, key)|] == DedupBy(a, key)
    decreases |b|
  {
    if b == [] {
      assert a + b == a;
    } else {
      var b' := b[..|b| - 1];
      assert (a + b)[..|a + b| - 1] == a + b';
      DedupByPrefix(a, b', key);
    }
  }

  /** Rows whose keys are already distinct are left as they are. */
  lemma {:induction false} DedupByDistinct<T, K>(s: seq<T>, key: T -> K)
    requires DistinctKeys(s, key)
    ensures DedupBy(s, key) == s
    decreases |s|
  {
    if s != [] {
      var init := s[..|s| - 1];
      DedupByDistinct(init, key);
      forall i | 0 <= i < |init| ensures key(init[i]) != key(s[|s| - 1]) {
        assert init[i] == s[i];
      }
      assert key(s[|s| - 1]) !in KeySet(init, key);
      assert s == init + [s[|s| - 1]];
    }
  }

  /** Deduplication only removes rows. */
  lemma {:induction false} DedupBySubMultiset<T, K>(s: seq<T>, key: T -> K)
    ensures multiset(DedupBy(s, key)) <= multiset(s)
    decreases |s|
  {
    if s != [] {
      DedupBySubMultiset(s[..|s| - 1], key);
      assert s == s[..|s| - 1] + [s[|s| - 1]];
    }
  }

  function SumReal(s: seq<real>): real
  {
    if s == [] then 0.0 else s[0] + SumReal(s[1..])
  }

  function SumInt(s: seq<int>): int
  {
    if s == [] then 0 else s[0] + SumInt(s[1..])
  }

  lemma {:induction false} SumRealAppend(s: seq<real>, t: seq<real>)
    ensures SumReal(s + t) == SumReal(s) + SumReal(t)
  {
    if s == [] {
      assert s + t == t;
    } else {
      assert (s + t)[1..] == s[1..] + t;
      SumRealAppend(s[1..], t);
    }
  }

  /** The sum of the first `i` entries adds entry `i - 1` to the sum of the first `i - 1`. */
  lemma SumIntPrefixStep(s: seq<int>, i: nat)
    requires 0 < i <= |s|
    ensures SumInt(s[..i]) == SumInt(s[..i - 1]) + s[i - 1]
  {
    assert s[..i] == s[..i - 1] + [s[i - 1]];
    SumIntAppend(s[..i - 1], [s[i - 1]]);
  }

  lemma {:induction false} SumIntAppend(s: seq<int>, t: seq<int>)
    ensures SumInt(s + t) == SumInt(s) + SumInt(t)
  {
    if s == [] {
      assert s + t == t;
    } else {
      assert (s + t)[1..] == s[1..] + t;
      SumIntAppend(s[1..], t);
    }
  }

  /** Changing one entry changes the sum by the difference. */
  lemma {:induction false} SumIntUpdate(s: seq<int>, k: nat, v: int)
    requires k < |s|
    ensures SumInt(s[k := v]) == SumInt(s) - s[k] + v
  {
    if k > 0 {
      assert s[k := v][1..] == s[1..][k - 1 := v];
      SumIntUpdate(s[1..], k - 1, v);
    } else {
      assert s[k := v][1..] == s[1..];
    }
  }

  /** Entry by entry smaller sequences have the smaller sum. */
  lemma {:induction false} SumIntPointwise(s: seq<int>, t: seq<int>)
    requires |s| == |t|
    requires forall i :: 0 <= i < |s| ==> s[i] <= t[i]
    ensures SumInt(s) <= SumInt(t)
  {
    if s != [] {
      SumIntPointwise(s[1..], t[1..]);
    }
  }

  /** A sum of non-negative entries is at least each entry. */
  lemma {:induction false} SumIntNonNegative(s: seq<int>)
    requires forall i :: 0 <= i < |s| ==> s[i] >= 0
    ensures SumInt(s) >= 0
  {
    if s != [] {
      SumIntNonNegative(s[1..]);
    }
  }

  lemma {:induction false} SumIntBoundsEntry(s: seq<int>, k: nat)
    requires k < |s|
    requires forall i :: 0 <= i < |s| ==> s[i] >= 0
    ensures 0 <= s[k] <= SumInt(s)
  {
    if k > 0 {
      SumIntBoundsEntry(s[1..], k - 1);
    } else if |s| > 1 {
      SumIntBoundsEntry(s[1..], 0);
    }
  }

  /** Rows whose keys all occur already are dropped entirely by deduplication. */
  lemma {:induction false} DedupByCovered<T, K>(a: seq<T>, b: seq<T>, key: T -> K)
    requires KeySet(b, key) <= KeySet(a, key)
    ensures DedupBy(a + b, key) == DedupBy(a, key)
    decreases |b|
  {
    if b == [] {
      assert a + b == a;
    } else {
      var b', last := b[..|b| - 1], b[|b| - 1];
      assert b == b' + [last];
      KeySetAppend(b', last, key);
      DedupByCovered(a, b', key);
      assert a + b == (a + b') + [last];
      KeySetConcat(a, b', key);
      DedupByAppend(a + b', last, key);
    }
  }
}
