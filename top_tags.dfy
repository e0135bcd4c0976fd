/**
 * `TagTimeLog.top_n_tags(n, extra_tags)` in script/pytagtime.py: the tags
 * ranked by descending total, cut to the first `n` (with Python's slice
 * rules), followed by every extra tag not yet listed, in the given order.
 *
 * The per-tag totals are those of the daily-resampled table, which pandas
 * computes; here they are an input `total`.  The column order pandas
 * presents them in is the input order `tags`.
 */
module TopTags {
  import opened Wrappers

  // ---------------------------------------------------------------------------
  // Ranking: `sorted(keys, key=total, reverse=True)`
  // ---------------------------------------------------------------------------

  /** Descending by total. */
  predicate SortedDesc(r: seq<string>, total: string -> real) {
    forall i, j :: 0 <= i < j < |r| ==> total(r[i]) >= total(r[j])
  }

  /** The elements of a list as a set. */
  function Elems(s: seq<string>): set<string> {
    set x | x in s
  }

  /** The first position at or after `from` whose total is below `v`, or |r|. */
  function FirstBelow(r: seq<string>, total: string -> real, v: real, from: nat): (m: nat)
    requires from <= |r|
    ensures from <= m <= |r|
    ensures forall i :: from <= i < m ==> total(r[i]) >= v
    ensures m < |r| ==> total(r[m]) < v
    decreases |r| - from
  {
    if from == |r| || total(r[from]) < v then from else FirstBelow(r, total, v, from + 1)
  }

  /** `x` placed after every element whose total is at least its own. */
  function Insert(r: seq<string>, x: string, total: string -> real): (s: seq<string>)
    ensures |s| == |r| + 1
  {
    var m := FirstBelow(r, total, total(x), 0);
    r[..m] + [x] + r[m..]
  }

  /** The tags ranked by descending total; tags with equal totals keep their input order. */
  function Rank(tags: seq<string>, total: string -> real): (r: seq<string>)
    ensures |r| == |tags|
  {
    if tags == [] then [] else Insert(Rank(tags[..|tags| - 1], total), tags[|tags| - 1], total)
  }

  /** The tags whose total is `v`, in order. */
  function WithTotal(s: seq<string>, total: string -> real, v: real): (r: seq<string>)
    ensures forall x :: x in r ==> x in s && total(x) == v
  {
    if s == [] then []
    else (if total(s[0]) == v then [s[0]] else []) + WithTotal(s[1..], total, v)
  }

  lemma {:induction false} WithTotalConcat(a: seq<string>, b: seq<string>, total: string -> real, v: real)
    ensures WithTotal(a + b, total, v) == WithTotal(a, total, v) + WithTotal(b, total, v)
  {
    if a == [] {
      assert a + b == b;
    } else {
      assert (a + b)[1..] == a[1..] + b;
      WithTotalConcat(a[1..], b, total, v);
    }
  }

  lemma InsertSorted(r: seq<string>, x: string, total: string -> real)
    requires SortedDesc(r, total)
    ensures SortedDesc(Insert(r, x, total), total)
  {
    var m := FirstBelow(r, total, total(x), 0);
    var s := Insert(r, x, total);
    forall i, j | 0 <= i < j < |s|
      ensures total(s[i]) >= total(s[j])
    {
      if j == m {
        assert s[i] == r[i];
      } else if i == m {
        assert s[j] == r[j - 1];
        assert total(r[m]) >= total(r[j - 1]);
      }
    }
  }

  lemma InsertPermutes(r: seq<string>, x: string, total: string -> real)
    ensures multiset(Insert(r, x, total)) == multiset(r) + multiset{x}
  {
    var m := FirstBelow(r, total, total(x), 0);
    assert r == r[..m] + r[m..];
  }

  lemma InsertStable(r: seq<string>, x: string, total: string -> real, v: real)
    requires SortedDesc(r, total)
    ensures WithTotal(Insert(r, x, total), total, v)
         == WithTotal(r, total, v) + (if total(x) == v then [x] else [])
  {
    var m := FirstBelow(r, total, total(x), 0);
    InsertSplits(r, x, total, v);
    if total(x) == v {
      TailBelow(r, total, v, m);
    }
  }

  /** The tags of total `v` after inserting `x`: those before its place, `x` itself, those after. */
  lemma InsertSplits(r: seq<string>, x: string, total: string -> real, v: real)
    ensures var m := FirstBelow(r, total, total(x), 0);
      && WithTotal(Insert(r, x, total), total, v)
         == WithTotal(r[..m], total, v) + (if total(x) == v then [x] else []) + WithTotal(r[m..], total, v)
      && WithTotal(r, total, v) == WithTotal(r[..m], total, v) + WithTotal(r[m..], total, v)
  {
    var m := FirstBelow(r, total, total(x), 0);
    var a, b := r[..m], r[m..];
    assert r == a + b;
    WithTotalConcat(a, b, total, v);
    WithTotalConcat(a + [x], b, total, v);
    WithTotalConcat(a, [x], total, v);
    assert WithTotal([x], total, v) == if total(x) == v then [x] else [] by {
      assert [x][1..] == [];
    }
  }

  /** In a descending list, everything from the first total below `v` on is below `v`. */
  lemma TailBelow(r: seq<string>, total: string -> real, v: real, m: nat)
    requires SortedDesc(r, total) && m <= |r| && (m < |r| ==> total(r[m]) < v)
    ensures WithTotal(r[m..], total, v) == []
  {
    forall k | 0 <= k < |r[m..]|
      ensures total(r[m..][k]) < v
    {
      assert total(r[m]) >= total(r[m + k]);
    }
    WithTotalEmpty(r[m..], total, v);
  }

  lemma {:induction false} WithTotalEmpty(b: seq<string>, total: string -> real, v: real)
    requires forall k :: 0 <= k < |b| ==> total(b[k]) < v
    ensures WithTotal(b, total, v) == []
  {
    if b != [] {
      WithTotalEmpty(b[1..], total, v);
    }
  }

  /** The ranking is in descending order of total. */
  lemma {:induction false} RankSorted(tags: seq<string>, total: string -> real)
    ensures SortedDesc(Rank(tags, total), total)
  {
    if tags != [] {
      RankSorted(tags[..|tags| - 1], total);
      InsertSorted(Rank(tags[..|tags| - 1], total), tags[|tags| - 1], total);
    }
  }

  /** The ranking lists the same tags, each as often as the input does. */
  lemma {:induction false} RankPermutes(tags: seq<string>, total: string -> real)
    ensures multiset(Rank(tags, total)) == multiset(tags)
  {
    if tags != [] {
      var init := tags[..|tags| - 1];
      RankPermutes(init, total);
      InsertPermutes(Rank(init, total), tags[|tags| - 1], total);
      assert tags == init + [tags[|tags| - 1]];
    }
  }

  /** Python's sort is stable: the tags of any one total appear in their input order. */
  lemma {:induction false} RankStable(tags: seq<string>, total: string -> real, v: real)
    ensures WithTotal(Rank(tags, total), total, v) == WithTotal(tags, total, v)
  {
    if tags != [] {
      var init := tags[..|tags| - 1];
      var x := tags[|tags| - 1];
      RankStable(init, total, v);
      RankInsertStable(init, x, total, v);
      WithTotalSnoc(tags, total, v);
    }
  }

  lemma RankInsertStable(init: seq<string>, x: string, total: string -> real, v: real)
    ensures WithTotal(Insert(Rank(init, total), x, total), total, v)
         == WithTotal(Rank(init, total), total, v) + (if total(x) == v then [x] else [])
  {
    RankSorted(init, total);
    InsertStable(Rank(init, total), x, total, v);
  }

  lemma WithTotalSnoc(s: seq<string>, total: string -> real, v: real)
    requires s != []
    ensures var x := s[|s| - 1];
      WithTotal(s, total, v) == WithTotal(s[..|s| - 1], total, v) + (if total(x) == v then [x] else [])
  {
    var x := s[|s| - 1];
    assert s == s[..|s| - 1] + [x];
    WithTotalConcat(s[..|s| - 1], [x], total, v);
    assert WithTotal([x], total, v) == if total(x) == v then [x] else [] by {
      assert [x][1..] == [];
    }
  }

  /** The first `n` ranked tags are the `n` largest: none after them has a greater total. */
  lemma TopAreLargest(tags: seq<string>, total: string -> real, n: int)
    ensures var ranked := Rank(tags, total);
      var top := SliceTo(ranked, n);
      forall i, j :: 0 <= i < |top| <= j < |ranked| ==> total(ranked[i]) >= total(ranked[j])
  {
    RankSorted(tags, total);
  }

  // ---------------------------------------------------------------------------
  // The extra tags
  // ---------------------------------------------------------------------------

  /** The extras, in order, without those already `seen` and without repeats. */
  function NewExtras(extras: seq<string>, seen: set<string>): (r: seq<string>)
    ensures |r| <= |extras|
  {
    if extras == [] then []
    else if extras[0] in seen then NewExtras(extras[1..], seen)
    else [extras[0]] + NewExtras(extras[1..], seen + {extras[0]})
  }

  /** No duplicates. */
  predicate Distinct(s: seq<string>) {
    forall i, j :: 0 <= i < j < |s| ==> s[i] != s[j]
  }

  /** An extra is appended exactly when it is neither seen nor already appended, and never twice. */
  lemma {:induction false} NewExtrasMembers(extras: seq<string>, seen: set<string>)
    ensures var r := NewExtras(extras, seen);
      && (forall t :: t in r <==> t in extras && t !in seen)
      && Distinct(r)
  {
    if extras != [] {
      var x := extras[0];
      NewExtrasMembers(extras[1..], seen);
      NewExtrasMembers(extras[1..], seen + {x});
      if x !in seen {
        var rest := NewExtras(extras[1..], seen + {x});
        assert forall k :: 0 <= k < |rest| ==> rest[k] != x by {
          forall k | 0 <= k < |rest|
            ensures rest[k] != x
          {
            assert rest[k] in rest;
          }
        }
      }
    }
  }

  /**
   * `top_n_tags(n, extra_tags)`: the ranked tags cut to `n`; without extras
   * that is the answer, otherwise each extra not yet listed is appended in
   * turn.
   */
  method TopNTags(tags: seq<string>, total: string -> real, n: int, extraTags: Option<seq<string>>)
    returns (keys: seq<string>)
    ensures extraTags.None? ==> keys == SliceTo(Rank(tags, total), n)
    ensures extraTags.Some? ==>
      var top := SliceTo(Rank(tags, total), n);
      keys == top + NewExtras(extraTags.value, Elems(top))
  {
    keys := Rank(tags, total);
    keys := SliceTo(keys, n);
    if extraTags.None? {
      return;
    }
    ghost var top := keys;
    var extras := extraTags.value;
    var i := 0;
    while i < |extras|
      invariant 0 <= i <= |extras|
      invariant top <= keys
      invariant keys + NewExtras(extras[i..], Elems(keys)) == top + NewExtras(extras, Elems(top))
    {
      var x := extras[i];
      assert extras[i..][1..] == extras[i + 1..];
      if x in keys {
        i := i + 1;
        continue;
      }
      assert Elems(keys + [x]) == Elems(keys) + {x};
      keys := keys + [x];
      i := i + 1;
    }
  }

  /**
   * What `top_n_tags` returns: the ranked prefix first, every top tag and
   * every extra and nothing else, no tag twice when the tags are distinct,
   * and at most `n + len(extra_tags)` of them.
   */
  lemma TopNTagsProperties(tags: seq<string>, total: string -> real, n: int, extras: seq<string>)
    ensures var top := SliceTo(Rank(tags, total), n);
      var keys := top + NewExtras(extras, Elems(top));
      && top <= keys
      && (forall t :: t in keys <==> t in top || t in extras)
      && (Distinct(tags) ==> Distinct(keys))
      && (n >= 0 ==> |keys| <= n + |extras|)
  {
    var ranked := Rank(tags, total);
    var top := SliceTo(ranked, n);
    var more := NewExtras(extras, Elems(top));
    NewExtrasMembers(extras, Elems(top));
    if Distinct(tags) {
      RankDistinct(tags, total);
      DistinctPrefix(ranked, top);
      DistinctAppend(top, more);
    }
  }

  /** A prefix of a distinct list is distinct. */
  lemma DistinctPrefix(s: seq<string>, p: seq<string>)
    requires Distinct(s) && p <= s
    ensures Distinct(p)
  {
    assert forall k :: 0 <= k < |p| ==> p[k] == s[k];
  }

  /** Two distinct lists with no tag in common stay distinct when concatenated. */
  lemma DistinctAppend(a: seq<string>, b: seq<string>)
    requires Distinct(a) && Distinct(b) && forall t :: t in b ==> t !in a
    ensures Distinct(a + b)
  {
    var c := a + b;
    forall i, j | 0 <= i < j < |c|
      ensures c[i] != c[j]
    {
      if j >= |a| && i < |a| {
        assert c[i] == a[i] && c[j] == b[j - |a|] && b[j - |a|] in b;
      } else if i >= |a| {
        assert c[i] == b[i - |a|] && c[j] == b[j - |a|];
      }
    }
  }

  /** Ranking distinct tags leaves them distinct. */
  lemma RankDistinct(tags: seq<string>, total: string -> real)
    requires Distinct(tags)
    ensures Distinct(Rank(tags, total))
  {
    var r := Rank(tags, total);
    RankPermutes(tags, total);
    forall i, j | 0 <= i < j < |r|
      ensures r[i] != r[j]
    {
      if r[i] == r[j] {
        RepeatCounts(r, i, j);
        DistinctCount(tags, r[i]);
      }
    }
  }

  /** A tag found at two positions occurs at least twice. */
  lemma RepeatCounts(s: seq<string>, i: nat, j: nat)
    requires i < j < |s| && s[i] == s[j]
    ensures multiset(s)[s[i]] >= 2
  {
    assert s == s[..i] + [s[i]] + s[i + 1..j] + [s[j]] + s[j + 1..];
  }

  /** A distinct list holds each tag at most once. */
  lemma {:induction false} DistinctCount(s: seq<string>, x: string)
    requires Distinct(s)
    ensures multiset(s)[x] <= 1
  {
    if s != [] {
      assert s == [s[0]] + s[1..];
      DistinctCount(s[1..], x);
      if s[0] == x {
        assert x !in s[1..] by {
          forall k | 0 <= k < |s[1..]|
            ensures s[1..][k] != x
          {
            assert s[1..][k] == s[k + 1];
          }
        }
      }
    }
  }
}
