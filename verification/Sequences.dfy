/** Counting and rearranging finite sequences. */
module Sequences {

  function Min(a: int, b: int): int {
    if a <= b then a else b
  }

  ghost predicate Distinct<T>(p: seq<T>) {
    forall q, r :: 0 <= q < r < |p| ==> p[q] != p[r]
  }

  function Range(n: nat): (r: set<nat>)
    ensures |r| == n
    ensures forall x: nat :: x in r <==> x < n
  {
    if n == 0 then {} else Range(n - 1) + {n - 1}
  }

  function Elems(p: seq<nat>): (r: set<nat>)
    ensures forall x :: x in r <==> x in p
    ensures |r| <= |p|
  {
    if p == [] then {} else
      var m := |p| - 1;
      assert p == p[..m] + [p[m]];
      Elems(p[..m]) + {p[m]}
  }

  lemma {:induction false} DistinctElems(p: seq<nat>)
    requires Distinct(p)
    ensures |Elems(p)| == |p|
    ensures multiset(p) == multiset(Elems(p))
  {
    if p != [] {
      var m := |p| - 1;
      assert p == p[..m] + [p[m]];
      DistinctElems(p[..m]);
      assert p[m] !in Elems(p[..m]);
    }
  }

  lemma SubsetSmaller(a: set<nat>, b: set<nat>)
    requires a <= b
    ensures |a| <= |b|
    ensures |a| == |b| ==> a == b
  {
    assert b == a + (b - a);
  }

  /** Different numbers below `n`: at most `n` of them, and `n` of them only when all occur. */
  lemma Pigeonhole(p: seq<nat>, n: nat)
    requires Distinct(p) && forall r :: 0 <= r < |p| ==> p[r] < n
    ensures |p| <= n
    ensures |p| == n ==> Elems(p) == Range(n)
  {
    DistinctElems(p);
    SubsetSmaller(Elems(p), Range(n));
  }

  /** Covering every number below `n` takes at least `n` entries. */
  lemma Covering(p: seq<nat>, n: nat)
    requires forall x: nat :: x < n ==> x in p
    ensures n <= |p|
  {
    SubsetSmaller(Range(n), Elems(p));
  }

  /** Two sequences with the same elements stay so when one occurrence of the same element is
      taken out of each: the last one of `a`, and some matching one of `b`. */
  lemma RemoveLast<T>(a: seq<T>, b: seq<T>) returns (i: nat)
    requires a != [] && multiset(a) == multiset(b)
    ensures i < |b| && b[i] == a[|a| - 1]
    ensures multiset(a[..|a| - 1]) == multiset(b[..i] + b[i + 1..])
  {
    var m := |a| - 1;
    assert a == a[..m] + [a[m]];
    assert a[m] in multiset(b);
    i :| 0 <= i < |b| && b[i] == a[m];
    assert b == b[..i] + [b[i]] + b[i + 1..];
    calc {
      multiset(a[..m]);
      multiset(a) - multiset{a[m]};
      multiset(b[..i] + [b[i]] + b[i + 1..]) - multiset{b[i]};
      multiset(b[..i] + b[i + 1..]);
    }
  }

  /** Running totals, starting at zero. */
  function PrefixSums(lens: seq<nat>): (cu: seq<nat>)
    ensures |cu| == |lens| + 1
  {
    if lens == [] then [0] else
    var cu := PrefixSums(lens[..|lens| - 1]);
    cu + [cu[|lens| - 1] + lens[|lens| - 1]]
  }

  lemma {:induction false} PrefixSumsStep(lens: seq<nat>, i: nat)
    requires i < |lens|
    ensures PrefixSums(lens)[i + 1] == PrefixSums(lens)[i] + lens[i]
    ensures PrefixSums(lens)[0] == 0
    decreases |lens|
  {
    if i < |lens| - 1 {
      PrefixSumsStep(lens[..|lens| - 1], i);
    } else if i > 0 {
      PrefixSumsStep(lens[..|lens| - 1], i - 1);
    }
  }

  /** Store each value at its destination, in order. */
  function Scatter<T>(pool: seq<T>, dest: seq<int>, kv: seq<T>): (r: seq<T>)
    requires |dest| == |kv| && forall i :: 0 <= i < |dest| ==> 0 <= dest[i] < |pool|
    ensures |r| == |pool|
  {
    if dest == [] then pool else
    var m := |dest| - 1;
    Scatter(pool, dest[..m], kv[..m])[dest[m] := kv[m]]
  }

  /** With distinct destinations each value lands, and everything else is untouched. */
  lemma {:induction false} ScatterMeaning<T>(pool: seq<T>, dest: seq<int>, kv: seq<T>)
    requires |dest| == |kv| && forall i :: 0 <= i < |dest| ==> 0 <= dest[i] < |pool|
    requires Distinct(dest)
    ensures var r := Scatter(pool, dest, kv);
            && (forall i :: 0 <= i < |dest| ==> r[dest[i]] == kv[i])
            && (forall x :: 0 <= x < |pool| && x !in dest ==> r[x] == pool[x])
  {
    if dest != [] {
      var m := |dest| - 1;
      ScatterMeaning(pool, dest[..m], kv[..m]);
      assert dest == dest[..m] + [dest[m]];
      assert forall i :: 0 <= i < m ==> dest[i] == dest[..m][i] && kv[i] == kv[..m][i];
    }
  }

  /** A row that is no destination is untouched, whatever the destinations. */
  lemma {:induction false} ScatterMisses<T>(pool: seq<T>, dest: seq<int>, kv: seq<T>, x: nat)
    requires |dest| == |kv| && forall i :: 0 <= i < |dest| ==> 0 <= dest[i] < |pool|
    requires x < |pool| && forall i :: 0 <= i < |dest| ==> dest[i] != x
    ensures Scatter(pool, dest, kv)[x] == pool[x]
  {
    if dest != [] {
      ScatterMisses(pool, dest[..|dest| - 1], kv[..|dest| - 1], x);
    }
  }

  lemma ScatterAt<T>(pool: seq<T>, dest: seq<int>, kv: seq<T>, x: nat, v: T)
    requires |dest| == |kv| && forall i :: 0 <= i < |dest| ==> 0 <= dest[i] < |pool|
    requires Distinct(dest) && x < |pool|
    requires forall i :: 0 <= i < |dest| && dest[i] == x ==> kv[i] == v
    requires x !in dest ==> pool[x] == v
    ensures Scatter(pool, dest, kv)[x] == v
  {
    ScatterMeaning(pool, dest, kv);
  }

  function Apply<A, B>(f: A -> B, a: seq<A>): (r: seq<B>)
    ensures |r| == |a| && forall i :: 0 <= i < |a| ==> r[i] == f(a[i])
  {
    seq(|a|, i requires 0 <= i < |a| => f(a[i]))
  }

  lemma ApplyRemove<A, B>(f: A -> B, b: seq<A>, i: nat)
    requires i < |b|
    ensures multiset(Apply(f, b)) == multiset(Apply(f, b[..i] + b[i + 1..])) + multiset{f(b[i])}
  {
    var x := Apply(f, b);
    assert x == x[..i] + [x[i]] + x[i + 1..];
    assert Apply(f, b[..i] + b[i + 1..]) == x[..i] + x[i + 1..];
  }

  /** Rearranging the arguments rearranges the results. */
  lemma {:induction false} ApplyPermutation<A, B>(f: A -> B, a: seq<A>, b: seq<A>)
    requires multiset(a) == multiset(b)
    ensures multiset(Apply(f, a)) == multiset(Apply(f, b))
  {
    if a == [] {
      assert |multiset(b)| == 0;
    } else {
      var m := |a| - 1;
      var i := RemoveLast(a, b);
      ApplyPermutation(f, a[..m], b[..i] + b[i + 1..]);
      assert a[..m] == a[..m] + a[m + 1..];
      ApplyRemove(f, a, m);
      ApplyRemove(f, b, i);
    }
  }

  lemma PutBack<A, B>(f: A -> B, a: seq<A>, i: nat, front: seq<A>)
    requires i < |a| && multiset(front) == multiset(a[..i] + a[i + 1..])
    ensures multiset(front + [a[i]]) == multiset(a)
    ensures Apply(f, front + [a[i]]) == Apply(f, front) + [f(a[i])]
  {
    assert a == a[..i] + [a[i]] + a[i + 1..];
  }

  /** Any rearrangement of the results comes from a rearrangement of the arguments. */
  lemma {:induction false} LiftPermutation<A, B>(f: A -> B, a: seq<A>, p: seq<B>) returns (lifted: seq<A>)
    requires multiset(p) == multiset(Apply(f, a))
    ensures multiset(lifted) == multiset(a) && Apply(f, lifted) == p
    decreases |a|
  {
    if p == [] {
      assert |multiset(Apply(f, a))| == 0;
      lifted := [];
    } else {
      var m := |p| - 1;
      var i := RemoveLast(p, Apply(f, a));
      var rest := a[..i] + a[i + 1..];
      assert Apply(f, rest) == Apply(f, a)[..i] + Apply(f, a)[i + 1..];
      var front := LiftPermutation(f, rest, p[..m]);
      lifted := front + [a[i]];
      PutBack(f, a, i, front);
      assert p == p[..m] + [p[m]];
    }
  }

  /** Slice assignment: `buf[lo : lo + |part|] = part`. */
  method CopyInto<T>(buf: array<T>, lo: nat, part: seq<T>)
    requires lo + |part| <= buf.Length
    modifies buf
    ensures buf[..lo + |part|] == old(buf[..lo]) + part
    ensures buf[lo + |part|..] == old(buf[lo + |part|..])
  {
    for i := 0 to |part|
      invariant buf[..lo] == old(buf[..lo])
      invariant buf[lo..lo + i] == part[..i]
      invariant buf[lo + i..] == old(buf[lo + i..])
    {
      buf[lo + i] := part[i];
      assert buf[lo..lo + i + 1] == buf[lo..lo + i] + [part[i]];
    }
    assert buf[..lo + |part|] == buf[..lo] + buf[lo..lo + |part|];
  }

  /** The parts one after the other. */
  function Flatten<T>(parts: seq<seq<T>>): seq<T> {
    if parts == [] then [] else Flatten(parts[..|parts| - 1]) + parts[|parts| - 1]
  }

  /** Each entry is found behind the parts before its own. */
  lemma {:induction false} FlattenAt<T>(parts: seq<seq<T>>, i: nat, s: nat)
    requires i < |parts| && s < |parts[i]|
    ensures |Flatten(parts[..i])| + s < |Flatten(parts)|
    ensures Flatten(parts)[|Flatten(parts[..i])| + s] == parts[i][s]
  {
    var m := |parts| - 1;
    if i < m {
      FlattenAt(parts[..m], i, s);
      assert parts[..m][..i] == parts[..i];
    }
  }

  /** 0, 1, 2, ... */
  function Iota(n: nat): (r: seq<nat>)
    ensures |r| == n && forall i :: 0 <= i < n ==> r[i] == i
  {
    seq(n, i => i)
  }
}
