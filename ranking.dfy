/**
 * The ordering that `getTopKClasses` imposes on classifier scores.
 *
 * The source pairs every score with its position, sorts the pairs with the
 * comparator `b.value - a.value` and `Array.prototype.sort`, which is stable.
 * Here that sort is a stable insertion sort on sequences, and the top-K result
 * is characterised independently (IsTopK) and shown to be unique, so the model
 * does not depend on which stable sort the runtime uses.
 */
module Ranking {

  /** One `{value, index}` record of `valuesAndIndices`. */
  datatype Scored = Scored(value: real, index: nat)

  /**
   * The order a stable descending sort leaves two records in, when the input
   * lists them by ascending index: the larger value first, ties by index.
   */
  predicate Precedes(p: Scored, q: Scored)
  {
    p.value > q.value || (p.value == q.value && p.index < q.index)
  }

  /** Every earlier record precedes every later one. */
  predicate InRankOrder(s: seq<Scored>)
  {
    forall i, j :: 0 <= i < j < |s| ==> Precedes(s[i], s[j])
  }

  /** The records of `s` carry strictly increasing indices. */
  predicate IndicesIncrease(s: seq<Scored>)
  {
    forall i, j :: 0 <= i < j < |s| ==> s[i].index < s[j].index
  }

  /** The loop that fills `valuesAndIndices`: record `i` holds `values[i]` and `i`. */
  function Pairs(values: seq<real>): (s: seq<Scored>)
    ensures |s| == |values|
    ensures forall i :: 0 <= i < |s| ==> s[i] == Scored(values[i], i)
  {
    seq(|values|, i requires 0 <= i < |values| => Scored(values[i], i))
  }

  /**
   * Inserts `p` into the sorted `s` behind every record the comparator does not
   * place after `p` (those with a value at least `p.value`), as a stable sort
   * does with a record that came later in its input.
   */
  function Insert(p: Scored, s: seq<Scored>): (r: seq<Scored>)
    ensures |r| == |s| + 1
    ensures multiset(r) == multiset(s) + multiset{p}
  {
    if s == [] || s[0].value < p.value then [p] + s
    else
      assert s == [s[0]] + s[1..];
      [s[0]] + Insert(p, s[1..])
  }

  /** `Array.prototype.sort` with comparator `(a, b) => b.value - a.value`. */
  function StableSortDesc(s: seq<Scored>): (r: seq<Scored>)
    ensures |r| == |s|
    ensures multiset(r) == multiset(s)
    decreases |s|
  {
    if s == [] then []
    else
      assert s == s[..|s| - 1] + [s[|s| - 1]];
      Insert(s[|s| - 1], StableSortDesc(s[..|s| - 1]))
  }

  /** `valuesAndIndices` after the sort at src/pages/Classify.js:490-492. */
  function Ranked(values: seq<real>): (r: seq<Scored>)
    ensures |r| == |values|
    ensures multiset(r) == multiset(Pairs(values))
  {
    StableSortDesc(Pairs(values))
  }

  /**
   * The first `k` records of a ranking of `values`, stated without any sort:
   * each record is a score of `values` at its own index, the records are in
   * rank order (so values are non-increasing and indices distinct, and equal
   * values keep ascending index order), and every score left out comes after
   * every score taken.
   */
  ghost predicate IsTopK(values: seq<real>, k: nat, r: seq<Scored>)
  {
    && |r| == k
    && (forall i :: 0 <= i < |r| ==> r[i].index < |values| && r[i].value == values[r[i].index])
    && InRankOrder(r)
    && (forall i, j :: 0 <= i < |r| && 0 <= j < |values| && Scored(values[j], j) !in r ==>
          Precedes(r[i], Scored(values[j], j)))
  }

  /** Inserting a record whose index exceeds all others keeps the rank order. */
  lemma {:induction false} InsertInRankOrder(p: Scored, s: seq<Scored>)
    requires InRankOrder(s)
    requires forall q :: q in s ==> q.index < p.index
    ensures InRankOrder(Insert(p, s))
  {
    if s == [] || s[0].value < p.value {
      var r := Insert(p, s);
      assert r == [p] + s;
      forall i, j | 0 <= i < j < |r| ensures Precedes(r[i], r[j]) {
        if i == 0 {
          assert r[j] == s[j - 1];
          if j - 1 > 0 {
            assert Precedes(s[0], s[j - 1]);
          }
        } else {
          assert r[i] == s[i - 1] && r[j] == s[j - 1];
        }
      }
    } else {
      var tail := Insert(p, s[1..]);
      assert forall q :: q in s[1..] ==> q in s;
      InsertInRankOrder(p, s[1..]);
      var r := Insert(p, s);
      assert r == [s[0]] + tail;
      forall i, j | 0 <= i < j < |r| ensures Precedes(r[i], r[j]) {
        if i == 0 {
          var q := r[j];
          assert q == tail[j - 1];
          assert q in multiset(tail);
          assert q in s[1..] || q == p;
          if q != p {
            var m :| 0 <= m < |s[1..]| && s[1..][m] == q;
            assert s[m + 1] == q;
          }
        } else {
          assert r[i] == tail[i - 1] && r[j] == tail[j - 1];
        }
      }
    }
  }

  /** Sorting records listed by ascending index yields them in rank order. */
  lemma {:induction false} SortInRankOrder(s: seq<Scored>)
    requires IndicesIncrease(s)
    ensures InRankOrder(StableSortDesc(s))
    decreases |s|
  {
    if s != [] {
      var init, last := s[..|s| - 1], s[|s| - 1];
      assert IndicesIncrease(init);
      SortInRankOrder(init);
      var sorted := StableSortDesc(init);
      forall q | q in sorted ensures q.index < last.index {
        assert q in multiset(sorted);
        assert q in multiset(init);
        var m :| 0 <= m < |init| && init[m] == q;
        assert s[m] == q;
      }
      InsertInRankOrder(last, sorted);
    }
  }

  /** The ranking holds each score of `values` once, at its own index, in rank order. */
  lemma RankedEntries(values: seq<real>)
    ensures |Ranked(values)| == |values|
    ensures InRankOrder(Ranked(values))
    ensures forall i :: 0 <= i < |values| ==>
              Ranked(values)[i].index < |values| &&
              Ranked(values)[i].value == values[Ranked(values)[i].index]
    ensures forall j :: 0 <= j < |values| ==> Scored(values[j], j) in Ranked(values)
  {
    var pairs := Pairs(values);
    var r := Ranked(values);
    assert IndicesIncrease(pairs);
    SortInRankOrder(pairs);
    forall i | 0 <= i < |values|
      ensures r[i].index < |values| && r[i].value == values[r[i].index]
    {
      assert r[i] in multiset(r);
      assert r[i] in multiset(pairs);
      var m :| 0 <= m < |pairs| && pairs[m] == r[i];
    }
    forall j | 0 <= j < |values| ensures Scored(values[j], j) in r {
      assert pairs[j] in multiset(pairs);
      assert pairs[j] in multiset(r);
    }
  }

  /** The first `k` records of the ranking are a top-K of `values`. */
  lemma RankedPrefixIsTopK(values: seq<real>, k: nat)
    requires k <= |values|
    ensures IsTopK(values, k, Ranked(values)[..k])
  {
    var r := Ranked(values);
    RankedEntries(values);
    var top := r[..k];
    forall i, j | 0 <= i < |top| && 0 <= j < |values| && Scored(values[j], j) !in top
      ensures Precedes(top[i], Scored(values[j], j))
    {
      var m :| 0 <= m < |r| && r[m] == Scored(values[j], j);
      assert m >= k;
      assert Precedes(r[i], r[m]);
    }
  }

  /**
   * Where two top-K results agree on their first `i` records, the next record
   * of `a` equals or precedes the next record of `b`.
   */
  lemma TopKNextPrecedes(values: seq<real>, k: nat, a: seq<Scored>, b: seq<Scored>, i: nat)
    requires IsTopK(values, k, a) && IsTopK(values, k, b)
    requires i < k && a[..i] == b[..i]
    ensures a[i] == b[i] || Precedes(a[i], b[i])
  {
    var y := b[i];
    if y in a {
      var p :| 0 <= p < |a| && a[p] == y;
      if p > i {
        assert Precedes(a[i], a[p]);
      }
    } else {
      assert y == Scored(values[y.index], y.index);
    }
  }

  /** A top-K of `values` is unique: the properties of IsTopK fix every record. */
  lemma {:induction false} TopKUnique(values: seq<real>, k: nat, a: seq<Scored>, b: seq<Scored>)
    requires IsTopK(values, k, a) && IsTopK(values, k, b)
    ensures a == b
  {
    TopKAgreeFrom(values, k, a, b, 0);
  }

  /** Two top-K results of `values` that agree on their first `i` records are equal. */
  lemma {:induction false} TopKAgreeFrom(values: seq<real>, k: nat, a: seq<Scored>, b: seq<Scored>, i: nat)
    requires IsTopK(values, k, a) && IsTopK(values, k, b)
    requires i <= k && a[..i] == b[..i]
    ensures a == b
    decreases k - i
  {
    if i == k {
      assert a == a[..i] && b == b[..i];
    } else {
      TopKNextPrecedes(values, k, a, b, i);
      TopKNextPrecedes(values, k, b, a, i);
      assert a[i] == b[i];
      assert a[..i + 1] == a[..i] + [a[i]] && b[..i + 1] == b[..i] + [b[i]];
      TopKAgreeFrom(values, k, a, b, i + 1);
    }
  }

}
