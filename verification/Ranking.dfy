/** Scores with the masking value "minus infinity", and top-k over a row of scores.

    Two views of top-k are kept side by side.  `IsTopK` is what any top-k routine promises,
    whichever way it breaks ties; `TopK` is one such routine, breaking ties towards the smaller
    index.  Everything the attention backends need except the equality of two separately computed
    rankings is proved from `IsTopK` alone.
 */
module Ranking {
  import opened Sequences

  datatype Score = NegInf | Fin(value: real)

  predicate Geq(a: Score, b: Score) {
    b.NegInf? || (a.Fin? && a.value >= b.value)
  }

  /** Column `i` is ranked before column `j`: better score, or equal score and smaller index. */
  predicate Ahead(s: seq<Score>, i: nat, j: nat)
    requires i < |s| && j < |s|
  {
    if s[i] == s[j] then i < j else Geq(s[i], s[j])
  }

  ghost predicate Ranked(s: seq<Score>, o: seq<nat>) {
    && (forall r :: 0 <= r < |o| ==> o[r] < |s|)
    && (forall q, r :: 0 <= q < r < |o| ==> Ahead(s, o[q], o[r]))
  }

  function Insert(s: seq<Score>, o: seq<nat>, i: nat): (r: seq<nat>)
    requires i < |s| && Ranked(s, o) && i !in o
    ensures Ranked(s, r) && |r| == |o| + 1
    ensures forall x :: x in r <==> x in o || x == i
  {
    if o == [] || Ahead(s, o[|o| - 1], i) then
      o + [i]
    else
      var m := |o| - 1;
      var r := Insert(s, o[..m], i);
      assert o == o[..m] + [o[m]];
      assert forall q :: 0 <= q < |r| ==> Ahead(s, r[q], o[m]) by {
        forall q | 0 <= q < |r| ensures Ahead(s, r[q], o[m]) {
          assert r[q] in o[..m] || r[q] == i;
        }
      }
      r + [o[m]]
  }

  /** The first `n` columns in rank order. */
  function Order(s: seq<Score>, n: nat): (o: seq<nat>)
    requires n <= |s|
    ensures Ranked(s, o) && |o| == n
    ensures forall x: nat :: x in o <==> x < n
  {
    if n == 0 then [] else Insert(s, Order(s, n - 1), n - 1)
  }

  function TopK(s: seq<Score>, k: nat): (picks: seq<nat>)
    ensures IsTopK(s, Min(k, |s|), picks)
  {
    var o := Order(s, |s|);
    var kk := Min(k, |s|);
    assert forall x :: x in o[..kk] || x in o[kk..] <==> x in o by { assert o == o[..kk] + o[kk..]; }
    o[..kk]
  }

  /** What any top-k routine promises: `k` different columns, best first, and no column left out
      scores better than one that was taken. */
  ghost predicate IsTopK(s: seq<Score>, k: nat, picks: seq<nat>) {
    && |picks| == k <= |s|
    && (forall r :: 0 <= r < k ==> picks[r] < |s|)
    && Distinct(picks)
    && (forall q, r :: 0 <= q < r < k ==> Geq(s[picks[q]], s[picks[r]]))
    && (forall j, r :: 0 <= j < |s| && 0 <= r < k && j !in picks ==> Geq(s[picks[r]], s[j]))
  }

  /** A score row in which exactly the first `live` columns are finite. */
  ghost predicate LiveRow(s: seq<Score>, live: nat) {
    live <= |s| && forall t :: 0 <= t < |s| ==> (s[t].Fin? <==> t < live)
  }

  /** Whatever the tie-breaking, the live columns come first: pick `r` is live exactly when
      `r` is below the live count. */
  lemma LivePicksArePrefix(s: seq<Score>, live: nat, k: nat, picks: seq<nat>)
    requires LiveRow(s, live) && IsTopK(s, k, picks)
    ensures forall r :: 0 <= r < k ==> (picks[r] < live <==> r < live)
  {
    forall r | 0 <= r < k
      ensures picks[r] < live <==> r < live
    {
      if picks[r] < live && r >= live {
        var p := picks[..r + 1];
        assert forall q :: 0 <= q < |p| ==> p[q] < live by {
          forall q | 0 <= q < |p| ensures p[q] < live {
            assert q == r || Geq(s[picks[q]], s[picks[r]]);
          }
        }
        Pigeonhole(p, live);
      } else if picks[r] >= live && r < live {
        assert forall i :: r < i < k ==> s[picks[i]].NegInf?;
        forall x: nat | x < live ensures x in picks[..r] {
          assert !Geq(s[picks[r]], s[x]);
          var i :| 0 <= i < k && picks[i] == x;
          assert picks[..r][i] == x;
        }
        Covering(picks[..r], live);
      }
    }
  }

  // ----- the fixed tie order --------------------------------------------------------------

  lemma {:induction false} OrderDependsOnPrefix(s: seq<Score>, t: seq<Score>, n: nat)
    requires n <= |s| && n <= |t| && s[..n] == t[..n]
    ensures Order(s, n) == Order(t, n)
  {
    if n > 0 {
      assert s[..n - 1] == s[..n][..n - 1] == t[..n - 1];
      OrderDependsOnPrefix(s, t, n - 1);
      assert forall x :: 0 <= x < n ==> s[x] == s[..n][x] == t[x];
      var o := Order(s, n - 1);
      assert forall r :: 0 <= r < n - 1 ==> o[r] in o;
      InsertDependsOnPrefix(s, t, o, n - 1);
    }
  }

  lemma {:induction false} InsertDependsOnPrefix(s: seq<Score>, t: seq<Score>, o: seq<nat>, i: nat)
    requires i < |s| && i < |t| && Ranked(s, o) && Ranked(t, o) && i !in o
    requires forall r :: 0 <= r < |o| ==> o[r] <= i
    requires forall x :: 0 <= x <= i ==> s[x] == t[x]
    ensures Insert(s, o, i) == Insert(t, o, i)
  {
    if o != [] && !Ahead(s, o[|o| - 1], i) {
      var m := |o| - 1;
      assert o == o[..m] + [o[m]];
      InsertDependsOnPrefix(s, t, o[..m], i);
    }
  }

  lemma MaskedGoesLast(s: seq<Score>, o: seq<nat>, i: nat)
    requires i < |s| && Ranked(s, o) && s[i].NegInf? && forall r :: 0 <= r < |o| ==> o[r] < i
    ensures Insert(s, o, i) == o + [i]
  {
  }

  /** Masked columns past the live ones are ranked last, in index order. */
  lemma {:induction false} OrderOfPadded(s: seq<Score>, live: nat, n: nat)
    requires live <= n <= |s| && forall t :: live <= t < n ==> s[t].NegInf?
    ensures Order(s, n)[..live] == Order(s, live)
  {
    if n > live {
      OrderOfPadded(s, live, n - 1);
      MaskedStep(s, n);
    }
  }

  lemma MaskedStep(s: seq<Score>, n: nat)
    requires 0 < n <= |s| && s[n - 1].NegInf?
    ensures Order(s, n) == Order(s, n - 1) + [n - 1]
  {
    var o := Order(s, n - 1);
    forall r | 0 <= r < |o| ensures o[r] < n - 1 {
      assert o[r] in o;
    }
    MaskedGoesLast(s, o, n - 1);
  }

  /** Padding a score row with masked columns does not change which live columns are picked,
      nor their order. */
  lemma TopKIgnoresPadding(s: seq<Score>, padded: seq<Score>, k: nat)
    requires LiveRow(s, |s|) && LiveRow(padded, |s|) && padded[..|s|] == s
    ensures TopK(padded, k)[..Min(k, |s|)] == TopK(s, k)
  {
    var live := |s|;
    OrderOfPadded(padded, live, |padded|);
    assert s[..live] == padded[..live];
    OrderDependsOnPrefix(s, padded, live);
    var c := Min(k, live);
    assert Order(padded, |padded|)[..Min(k, |padded|)][..c] == Order(padded, |padded|)[..live][..c];
  }
}
