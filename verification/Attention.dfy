/** The gathered-KV attention kernel as the addressing code sees it: it visits the first `count`
    entries of a row list, skips negative entries, and accumulates a weighted value and a weight.
    One value coordinate stands for all of them; the weight and the value of a physical row are
    arbitrary functions of the row.
 */
module Attention {
  import opened Sequences

  datatype Acc = Acc(num: real, den: real)

  /** For one query: a row's softmax weight, and that weight times the row's value coordinate. */
  datatype Query = Query(weight: int -> real, weighted: int -> real)

  function Total(f: int -> real, rows: seq<int>): real {
    if rows == [] then 0.0 else
    (if rows[0] < 0 then 0.0 else f(rows[0])) + Total(f, rows[1..])
  }

  /** Every entry is visited; negative ones are masked. */
  function Fold(q: Query, rows: seq<int>): Acc {
    Acc(Total(q.weighted, rows), Total(q.weight, rows))
  }

  /** The kernel: column bound `count`, negative rows masked. */
  function Attend(q: Query, sel: seq<int>, count: nat): Acc
    requires count <= |sel|
  {
    Fold(q, sel[..count])
  }

  /** What the kernel accumulates: nothing before the first column; a masked column adds nothing, any
      other its weighted value to the numerator and its weight to the denominator. */
  lemma AttendSteps(q: Query, sel: seq<int>, c: nat)
    requires c < |sel|
    ensures Attend(q, sel, 0) == Acc(0.0, 0.0)
    ensures Attend(q, sel, c + 1).num == Attend(q, sel, c).num + (if sel[c] < 0 then 0.0 else q.weighted(sel[c]))
    ensures Attend(q, sel, c + 1).den == Attend(q, sel, c).den + (if sel[c] < 0 then 0.0 else q.weight(sel[c]))
  {
    assert sel[..c + 1] == sel[..c] + [sel[c]];
    TotalAppend(q.weight, sel[..c], [sel[c]]);
    TotalAppend(q.weighted, sel[..c], [sel[c]]);
  }

  /** Unbounded, the kernel visits every column. */
  lemma FoldIsAttend(q: Query, sel: seq<int>)
    ensures Fold(q, sel) == Attend(q, sel, |sel|)
  {
    assert sel[..|sel|] == sel;
  }

  lemma {:induction false} TotalAppend(f: int -> real, a: seq<int>, b: seq<int>)
    ensures Total(f, a + b) == Total(f, a) + Total(f, b)
  {
    if a == [] {
      assert a + b == b;
    } else {
      TotalAppend(f, a[1..], b);
      assert (a + b)[1..] == a[1..] + b;
    }
  }

  lemma {:induction false} TotalPermutation(f: int -> real, a: seq<int>, b: seq<int>)
    requires multiset(a) == multiset(b)
    ensures Total(f, a) == Total(f, b)
  {
    if a == [] {
      assert |multiset(b)| == 0;
    } else {
      var m := |a| - 1;
      var i := RemoveLast(a, b);
      TotalPermutation(f, a[..m], b[..i] + b[i + 1..]);
      assert a == a[..m] + [a[m]];
      TotalAppend(f, a[..m], [a[m]]);
      assert b == b[..i] + ([b[i]] + b[i + 1..]);
      TotalAppend(f, b[..i], [b[i]] + b[i + 1..]);
      TotalAppend(f, [b[i]], b[i + 1..]);
      TotalAppend(f, b[..i], b[i + 1..]);
    }
  }

  /** The accumulation does not depend on the order in which rows are visited. */
  lemma FoldPermutation(q: Query, a: seq<int>, b: seq<int>)
    requires multiset(a) == multiset(b)
    ensures Fold(q, a) == Fold(q, b)
  {
    TotalPermutation(q.weight, a, b);
    TotalPermutation(q.weighted, a, b);
  }

  lemma {:induction false} TotalMasked(f: int -> real, rows: seq<int>)
    requires forall r :: 0 <= r < |rows| ==> rows[r] < 0
    ensures Total(f, rows) == 0.0
  {
    if rows != [] {
      TotalMasked(f, rows[1..]);
    }
  }

  /** A count that cuts only masked columns loses nothing: bounding the loop and masking the
      columns are the same thing. */
  lemma CountIsExact(q: Query, sel: seq<int>, count: nat)
    requires count <= |sel| && forall r :: count <= r < |sel| ==> sel[r] < 0
    ensures Attend(q, sel, count) == Fold(q, sel)
  {
    var a, b := sel[..count], sel[count..];
    assert sel == a + b;
    TotalAppend(q.weight, a, b);
    TotalAppend(q.weighted, a, b);
    TotalMasked(q.weight, b);
    TotalMasked(q.weighted, b);
  }
}
