/** Validation of safetensors snapshots from parsed headers: tensor ranges must tile the data
    section, and the bytes must add up. */
module Safetensors {
  import opened Options
  import opened Sequences

  datatype Range = Range(begin: int, end: int)

  /** The order of Python's `sorted` on (begin, end) pairs. */
  predicate Leq(a: Range, b: Range) {
    a.begin < b.begin || (a.begin == b.begin && a.end <= b.end)
  }

  ghost predicate SortedRanges(s: seq<Range>) {
    forall i, j :: 0 <= i < j < |s| ==> Leq(s[i], s[j])
  }

  lemma InsertKeepsHead(s: seq<Range>, r: Range, rest: seq<Range>)
    requires s != [] && SortedRanges(s) && !Leq(r, s[0])
    requires SortedRanges(rest) && multiset(rest) == multiset(s[1..]) + multiset{r}
    ensures SortedRanges([s[0]] + rest) && multiset([s[0]] + rest) == multiset(s) + multiset{r}
  {
    assert s == [s[0]] + s[1..];
    forall j | 0 <= j < |rest| ensures Leq(s[0], rest[j]) {
      assert rest[j] in multiset(rest);
      assert rest[j] in s[1..] || rest[j] == r;
    }
  }

  function InsertRange(s: seq<Range>, r: Range): (t: seq<Range>)
    requires SortedRanges(s)
    ensures SortedRanges(t) && multiset(t) == multiset(s) + multiset{r}
  {
    if s == [] || Leq(r, s[0]) then [r] + s
    else
      var rest := InsertRange(s[1..], r);
      InsertKeepsHead(s, r, rest);
      [s[0]] + rest
  }

  function Sort(s: seq<Range>): (t: seq<Range>)
    ensures SortedRanges(t) && multiset(t) == multiset(s)
  {
    if s == [] then [] else
    var m := |s| - 1;
    assert s == s[..m] + [s[m]];
    InsertRange(Sort(s[..m]), s[m])
  }

  /** The ranges, in this order, tile `[from, to)` without gaps or overlaps; empty ranges may sit on
      any seam. */
  ghost predicate Chain(s: seq<Range>, from: int, to: int) {
    if s == [] then from == to
    else s[0].begin == from && s[0].begin <= s[0].end && Chain(s[1..], s[0].end, to)
  }

  /** Some ordering of the ranges tiles `[0, end)`. */
  ghost predicate Tiles(s: seq<Range>, end: int) {
    exists p: seq<Range> :: multiset(p) == multiset(s) && Chain(p, 0, end)
  }

  function TotalLength(s: seq<Range>): int {
    if s == [] then 0 else (s[0].end - s[0].begin) + TotalLength(s[1..])
  }

  // ----- the sorted order decides -------------------------------------------------------------

  lemma {:induction false} ChainFollows(s: seq<Range>, from: int, to: int)
    requires Chain(s, from, to)
    ensures from <= to && to == from + TotalLength(s)
    ensures forall i :: 0 <= i < |s| ==> from <= s[i].begin <= s[i].end <= to
    ensures SortedRanges(s)
  {
    if s != [] {
      ChainFollows(s[1..], s[0].end, to);
      assert forall i :: 1 <= i < |s| ==> s[i] == s[1..][i - 1];
    }
  }

  lemma LeastFirst(a: seq<Range>, b: seq<Range>)
    requires SortedRanges(a) && multiset(a) == multiset(b) && a != []
    ensures b != [] && Leq(a[0], b[0])
  {
    assert a[0] in multiset(a);
    assert a[0] in b;
    assert b[0] in multiset(b);
    assert b[0] in a;
    var l :| 0 <= l < |a| && a[l] == b[0];
    assert l > 0 ==> Leq(a[0], a[l]);
  }

  lemma SameHead(a: seq<Range>, b: seq<Range>)
    requires SortedRanges(a) && SortedRanges(b) && multiset(a) == multiset(b) && a != []
    ensures b != [] && a[0] == b[0] && multiset(a[1..]) == multiset(b[1..])
  {
    LeastFirst(a, b);
    LeastFirst(b, a);
    calc {
      multiset(a[1..]);
      { assert a == [a[0]] + a[1..]; }
      multiset(a) - multiset{a[0]};
      { assert b == [b[0]] + b[1..]; }
      multiset(b[1..]);
    }
  }

  /** Two sorted sequences of the same ranges are the same sequence. */
  lemma {:induction false} SortedUnique(a: seq<Range>, b: seq<Range>)
    requires SortedRanges(a) && SortedRanges(b) && multiset(a) == multiset(b)
    ensures a == b
  {
    if a == [] {
      assert |multiset(b)| == 0;
    } else {
      SameHead(a, b);
      SortedUnique(a[1..], b[1..]);
      assert a == [a[0]] + a[1..] && b == [b[0]] + b[1..];
    }
  }

  /** Some ordering tiles exactly when the sorted one does, to the same end. */
  lemma TilesIffSortedChain(s: seq<Range>, end: int)
    ensures Tiles(s, end) <==> Chain(Sort(s), 0, end)
  {
    if Tiles(s, end) {
      var p :| multiset(p) == multiset(s) && Chain(p, 0, end);
      ChainFollows(p, 0, end);
      SortedUnique(p, Sort(s));
    }
  }

  lemma {:induction false} TotalLengthAppend(a: seq<Range>, b: seq<Range>)
    ensures TotalLength(a + b) == TotalLength(a) + TotalLength(b)
  {
    if a == [] {
      assert a + b == b;
    } else {
      TotalLengthAppend(a[1..], b);
      assert (a + b)[1..] == a[1..] + b;
    }
  }

  lemma {:induction false} TotalLengthPermutation(a: seq<Range>, b: seq<Range>)
    requires multiset(a) == multiset(b)
    ensures TotalLength(a) == TotalLength(b)
  {
    if a == [] {
      assert |multiset(b)| == 0;
    } else {
      var m := |a| - 1;
      var i := RemoveLast(a, b);
      TotalLengthPermutation(a[..m], b[..i] + b[i + 1..]);
      assert a == a[..m] + [a[m]] && b == b[..i] + ([b[i]] + b[i + 1..]);
      TotalLengthAppend(a[..m], [a[m]]);
      TotalLengthAppend(b[..i], [b[i]] + b[i + 1..]);
      TotalLengthAppend([b[i]], b[i + 1..]);
      TotalLengthAppend(b[..i], b[i + 1..]);
    }
  }

  /** Tiled ranges have a single possible end: the sum of their lengths. */
  lemma TilesEnd(s: seq<Range>, end: int)
    requires Tiles(s, end)
    ensures end == TotalLength(s) >= 0
  {
    var p :| multiset(p) == multiset(s) && Chain(p, 0, end);
    ChainFollows(p, 0, end);
    TotalLengthPermutation(p, s);
  }

  // ----- the cursor loop ----------------------------------------------------------------------

  lemma {:induction false} ChainExtend(s: seq<Range>, r: Range, from: int, mid: int)
    requires Chain(s, from, mid) && r.begin == mid && r.begin <= r.end
    ensures Chain(s + [r], from, r.end)
  {
    if s != [] {
      ChainExtend(s[1..], r, s[0].end, mid);
      assert (s + [r])[1..] == s[1..] + [r];
    } else {
      assert s + [r] == [r] && [r][1..] == [];
    }
  }

  /** A chain passes its cursor at every index. */
  lemma {:induction false} ChainCursor(s: seq<Range>, i: nat, from: int, cursor: int, to: int)
    requires i < |s| && Chain(s, from, to) && Chain(s[..i], from, cursor)
    ensures s[i].begin == cursor && s[i].begin <= s[i].end
  {
    if i > 0 {
      assert s[..i][1..] == s[1..][..i - 1];
      ChainCursor(s[1..], i - 1, s[0].end, cursor, to);
    }
  }

  lemma ChainNext(s: seq<Range>, i: nat, cursor: int)
    requires i < |s| && Chain(s[..i], 0, cursor)
    ensures s[i].begin == cursor && s[i].begin <= s[i].end ==> Chain(s[..i + 1], 0, s[i].end)
    ensures s[i].begin != cursor || s[i].end < s[i].begin ==> forall end :: !Chain(s, 0, end)
  {
    if s[i].begin == cursor && s[i].begin <= s[i].end {
      ChainExtend(s[..i], s[i], 0, cursor);
      assert s[..i + 1] == s[..i] + [s[i]];
    } else {
      forall end ensures !Chain(s, 0, end) {
        if Chain(s, 0, end) {
          ChainCursor(s, i, 0, cursor, end);
        }
      }
    }
  }

  /** Walk the sorted ranges with a cursor.  Accepts exactly the ranges some ordering of which tiles
      `[0, end)`, and returns that end. */
  method CheckContiguous(ranges: seq<Range>) returns (end: Option<int>)
    ensures end.Some? ==> Tiles(ranges, end.value)
    ensures end.None? ==> forall e :: !Tiles(ranges, e)
  {
    var sorted := Sort(ranges);
    var cursor := 0;
    for i := 0 to |sorted|
      invariant Chain(sorted[..i], 0, cursor)
    {
      ChainNext(sorted, i, cursor);
      if sorted[i].begin != cursor || sorted[i].end < sorted[i].begin {
        forall e ensures !Tiles(ranges, e) {
          TilesIffSortedChain(ranges, e);
        }
        return None;
      }
      cursor := sorted[i].end;
    }
    assert sorted[..|sorted|] == sorted;
    TilesIffSortedChain(ranges, cursor);
    end := Some(cursor);
  }

  /** Tiling, range by range: the first begins where the stretch does, each one begins where the one
      before it ends, the last ends where the stretch does, and none is reversed. */
  lemma {:induction false} ChainMeaning(s: seq<Range>, from: int, to: int)
    ensures Chain(s, from, to) <==>
              && (s == [] ==> from == to)
              && (s != [] ==> s[0].begin == from && s[|s| - 1].end == to)
              && (forall i :: 0 <= i < |s| - 1 ==> s[i].end == s[i + 1].begin)
              && forall i :: 0 <= i < |s| ==> s[i].begin <= s[i].end
  {
    if s != [] {
      ChainMeaning(s[1..], s[0].end, to);
      var rest := s[1..];
      assert forall i :: 0 <= i < |rest| ==> rest[i] == s[i + 1];
      if Chain(s, from, to) {
        forall i | 0 <= i < |s| - 1 ensures s[i].end == s[i + 1].begin {
          assert i > 0 ==> rest[i - 1].end == rest[i].begin;
        }
        forall i | 0 <= i < |s| ensures s[i].begin <= s[i].end {
          assert i > 0 ==> rest[i - 1].begin <= rest[i - 1].end;
        }
      }
    }
  }

  // ----- the draft snapshot -------------------------------------------------------------------

  const MAX_DRAFT_HEADER: nat := 0x400_0000   // 64 << 20

  /** The single-shard draft file: its size, the header length it declares, and the ranges of its
      tensors in header order. */
  method ValidateDraft(size: nat, headerSize: nat, ranges: seq<Range>) returns (tensors: Option<nat>)
    ensures tensors.Some? <==>
              && 1 < headerSize <= 64 * 1024 * 1024 && 8 + headerSize <= size
              && ranges != []
              && Tiles(ranges, size - 8 - headerSize)
    ensures tensors.Some? ==> tensors.value == |ranges| && size == 8 + headerSize + TotalLength(ranges)
  {
    if size < 8 {
      return None;
    }
    if !(1 < headerSize <= Min(MAX_DRAFT_HEADER, size - 8)) {
      return None;
    }
    if ranges == [] {
      return None;
    }
    var end := CheckContiguous(ranges);
    if end.None? {
      return None;
    }
    TilesEnd(ranges, end.value);
    if size != 8 + headerSize + end.value {
      if Tiles(ranges, size - 8 - headerSize) {
        TilesEnd(ranges, size - 8 - headerSize);
      }
      return None;
    }
    tensors := Some(|ranges|);
  }

  // ----- an indexed snapshot ------------------------------------------------------------------

  datatype Meta = Unreadable | Meta(range: Range, shape: seq<int>, dtype: string) {
    predicate Valid() {
      Meta? && 0 <= range.begin <= range.end && (forall i :: 0 <= i < |shape| ==> shape[i] >= 0) && dtype != ""
    }
  }

  datatype Shard = Missing | Unparsable(size: nat) | Shard(size: nat, headerSize: nat, header: map<string, Meta>)

  const METADATA := "__metadata__"

  /** The tensors of a header, each once, in some order. */
  ghost predicate Enumerates(order: seq<string>, names: set<string>) {
    Distinct(order) && forall n :: n in order <==> n in names
  }

  /** The range a header gives a tensor; of no interest for names without one. */
  function RangeIn(header: map<string, Meta>): string -> Range {
    (n: string) => if n in header && header[n].Meta? then header[n].range else Range(0, 0)
  }

  function RangesOf(header: map<string, Meta>, order: seq<string>): (r: seq<Range>) {
    Apply(RangeIn(header), order)
  }

  ghost predicate ReadableTensors(header: map<string, Meta>, names: set<string>) {
    forall n :: n in names ==> n in header && header[n].Valid()
  }

  /** A tensor's metadata is readable when its range does not start below zero or end before it starts,
      no dimension is negative, and it names a type. */
  lemma ReadableMeaning(header: map<string, Meta>, n: string)
    ensures ReadableTensors(header, {n}) <==>
              && n in header && header[n].Meta?
              && header[n].range.begin >= 0 && header[n].range.end >= header[n].range.begin
              && (forall d :: d in header[n].shape ==> d >= 0)
              && |header[n].dtype| > 0
  {
    if n in header && header[n].Meta? {
      assert forall i :: 0 <= i < |header[n].shape| ==> header[n].shape[i] in header[n].shape;
    }
  }

  /** The ranges of readable tensors are those of their headers, in the order of the tensors. */
  lemma RangesMeaning(header: map<string, Meta>, order: seq<string>, names: set<string>, i: nat)
    requires ReadableTensors(header, names) && Enumerates(order, names) && i < |order|
    ensures |RangesOf(header, order)| == |order| && order[i] in header && header[order[i]].Meta?
    ensures RangesOf(header, order)[i] == header[order[i]].range
  {
    assert order[i] in names;
  }

  /** Some ordering of the shard's tensors tiles `[0, end)`. */
  ghost predicate TensorsTile(header: map<string, Meta>, names: set<string>, end: int)
    requires ReadableTensors(header, names)
  {
    exists order: seq<string> :: Enumerates(order, names) && Chain(RangesOf(header, order), 0, end)
  }

  /** A shard is complete for the names the index assigns to it. */
  ghost predicate ShardComplete(s: Shard, names: set<string>) {
    && s.Shard?
    && 1 < s.headerSize && 8 + s.headerSize <= s.size
    && s.header.Keys - {METADATA} == names
    && ReadableTensors(s.header, names)
    && TensorsTile(s.header, names, s.size - 8 - s.headerSize)
  }

  lemma EnumerationsPermute(a: seq<string>, b: seq<string>, names: set<string>)
    requires Enumerates(a, names) && Enumerates(b, names)
    ensures multiset(a) == multiset(b)
  {
    forall n ensures multiset(a)[n] == multiset(b)[n] {
      OccursOnce(a, n);
      OccursOnce(b, n);
    }
  }

  lemma {:induction false} OccursOnce(a: seq<string>, n: string)
    requires Distinct(a)
    ensures multiset(a)[n] == if n in a then 1 else 0
  {
    if a != [] {
      var m := |a| - 1;
      assert a == a[..m] + [a[m]];
      OccursOnce(a[..m], n);
    }
  }

  lemma {:induction false} DistinctByMultiset(a: seq<string>, b: seq<string>)
    requires Distinct(a) && multiset(a) == multiset(b)
    ensures Distinct(b)
  {
    if b != [] {
      var i := RemoveLast(b, a);
      var m := |b| - 1;
      DistinctByMultiset(a[..i] + a[i + 1..], b[..m]);
      OccursOnce(a, b[m]);
      assert b == b[..m] + [b[m]];
      assert multiset(b)[b[m]] == multiset(b[..m])[b[m]] + 1;
      forall k | 0 <= k < m ensures b[k] != b[m] {
        assert b[k] in multiset(b[..m]) by { assert b[..m][k] == b[k]; }
      }
    }
  }

  /** The range check over one enumeration of the tensors decides whether any ordering of them tiles. */
  lemma TensorsTileIff(header: map<string, Meta>, names: set<string>, order: seq<string>, end: int)
    requires ReadableTensors(header, names) && Enumerates(order, names)
    ensures Tiles(RangesOf(header, order), end) <==> TensorsTile(header, names, end)
  {
    var rs := RangesOf(header, order);
    if TensorsTile(header, names, end) {
      var other: seq<string> :| Enumerates(other, names) && Chain(RangesOf(header, other), 0, end);
      EnumerationsPermute(other, order, names);
      ApplyPermutation(RangeIn(header), other, order);
      assert Tiles(rs, end);
    }
    if Tiles(rs, end) {
      var p :| multiset(p) == multiset(rs) && Chain(p, 0, end);
      var lifted := LiftPermutation(RangeIn(header), order, p);
      DistinctByMultiset(order, lifted);
      forall n ensures n in lifted <==> n in names {
        assert n in lifted <==> n in multiset(lifted);
        assert n in order <==> n in multiset(order);
      }
      assert Enumerates(lifted, names);
    }
  }

  /** The tensors `done` are readable, and these are their ranges in this order. */
  ghost predicate ReadSoFar(header: map<string, Meta>, order: seq<string>, ranges: seq<Range>, done: set<string>) {
    Enumerates(order, done) && ReadableTensors(header, done) && ranges == RangesOf(header, order)
  }

  lemma ReadOne(header: map<string, Meta>, order: seq<string>, ranges: seq<Range>, done: set<string>, n: string)
    requires ReadSoFar(header, order, ranges, done) && n !in done && n in header && header[n].Valid()
    ensures ReadSoFar(header, order + [n], ranges + [header[n].range], done + {n})
  {
    assert (order + [n])[..|order|] == order;
  }

  method ReadRanges(header: map<string, Meta>, names: set<string>)
    returns (r: Option<seq<Range>>, ghost order: seq<string>)
    requires names <= header.Keys
    ensures r.None? <==> !ReadableTensors(header, names)
    ensures r.Some? ==> Enumerates(order, names) && r.value == RangesOf(header, order)
  {
    var todo := names;
    var ranges: seq<Range> := [];
    order := [];
    while todo != {}
      invariant todo <= names && ReadSoFar(header, order, ranges, names - todo)
      decreases |todo|
    {
      var n :| n in todo;
      if !header[n].Valid() {
        return None, order;
      }
      ReadOne(header, order, ranges, names - todo, n);
      assert names - (todo - {n}) == (names - todo) + {n};
      order := order + [n];
      ranges := ranges + [header[n].range];
      todo := todo - {n};
    }
    assert names - todo == names;
    r := Some(ranges);
  }

  /** One shard against the names the index maps to it. */
  method ValidateShard(s: Shard, names: set<string>) returns (logical: Option<nat>)
    ensures logical.Some? <==> ShardComplete(s, names)
    ensures logical.Some? ==> s.Shard? && (forall n :: n in names <==> n in s.header && n != "__metadata__")
    ensures logical.Some? ==> s.size == 8 + s.headerSize + logical.value
  {
    if !s.Shard? || s.size < 8 {
      return None;
    }
    if s.headerSize <= 1 || s.headerSize > s.size - 8 {
      return None;
    }
    if s.header.Keys - {METADATA} != names {
      return None;
    }
    var ranges, order := ReadRanges(s.header, names);
    if ranges.None? {
      return None;
    }
    var end := CheckContiguous(ranges.value);
    TensorsTileIff(s.header, names, order, s.size - 8 - s.headerSize);
    if end.None? {
      return None;
    }
    TilesEnd(ranges.value, end.value);
    if s.size != 8 + s.headerSize + end.value {
      if Tiles(ranges.value, s.size - 8 - s.headerSize) {
        TilesEnd(ranges.value, s.size - 8 - s.headerSize);
      }
      return None;
    }
    logical := Some(end.value);
  }

  datatype Report = Report(shards: nat, tensors: nat, logicalBytes: nat, physicalBytes: nat,
                           publishedDelta: Option<int>)

  function NamesIn(weightMap: map<string, string>, file: string): set<string> {
    set n | n in weightMap && weightMap[n] == file
  }

  /** The components of a path. */
  function Components(path: string): (parts: seq<string>)
    ensures parts != []
  {
    if path == "" then [""]
    else
      var rest := Components(path[1..]);
      if path[0] == '/' then [""] + rest else [[path[0]] + rest[0]] + rest[1..]
  }

  /** A shard path stays below the snapshot folder: relative, and without a step up. */
  predicate SafePath(path: string) {
    !(path != "" && path[0] == '/') && ".." !in Components(path)
  }

  /** A refused path starts at the root or has a `..` between its separators. */
  lemma {:induction false} SafePathMeaning(path: string, k: nat)
    ensures path != "" && path[0] == '/' ==> !SafePath(path)
    ensures k < |Components(path)| && Components(path)[k] == ".." ==> !SafePath(path)
    ensures !SafePath(path) ==> (path != "" && path[0] == '/') || ".." in Components(path)
  {
  }

  /** Splitting and joining again gives the path back; no component holds a separator. */
  lemma {:induction false} ComponentsMeaning(path: string)
    ensures Joined(Components(path)) == path
    ensures forall k :: 0 <= k < |Components(path)| ==> '/' !in Components(path)[k]
  {
    if path != "" {
      ComponentsMeaning(path[1..]);
      var rest := Components(path[1..]);
      var parts := Components(path);
      assert path == [path[0]] + path[1..];
      if path[0] == '/' {
        assert parts[1..] == rest;
      } else {
        assert parts[1..] == rest[1..];
        forall k | 0 <= k < |parts| ensures '/' !in parts[k] {
          assert k > 0 ==> parts[k] == rest[k];
        }
      }
    }
  }

  function Joined(parts: seq<string>): string
    requires parts != []
  {
    if |parts| == 1 then parts[0] else parts[0] + "/" + Joined(parts[1..])
  }

  /** Group the index by file; refused when it names a file outside the folder. */
  method GroupByFile(weightMap: map<string, string>) returns (r: Option<map<string, set<string>>>)
    ensures r.None? <==> exists f :: f in weightMap.Values && !SafePath(f)
    ensures r.Some? ==> r.value.Keys == weightMap.Values
    ensures r.Some? ==> forall f :: f in r.value ==> r.value[f] == NamesIn(weightMap, f)
  {
    var byFile: map<string, set<string>> := map[];
    var todo := weightMap.Keys;
    while todo != {}
      invariant todo <= weightMap.Keys
      invariant forall n :: n in weightMap.Keys - todo ==> SafePath(weightMap[n])
      invariant forall f :: f in byFile <==> exists n :: n in weightMap.Keys - todo && weightMap[n] == f
      invariant forall f :: f in byFile ==> byFile[f] == set n | n in weightMap.Keys - todo && weightMap[n] == f
      decreases |todo|
    {
      var n :| n in todo;
      var f := weightMap[n];
      if !SafePath(f) {
        return None;
      }
      byFile := byFile[f := (if f in byFile then byFile[f] else {}) + {n}];
      todo := todo - {n};
    }
    r := Some(byFile);
  }

  function ShardOf(shards: map<string, Shard>, file: string): Shard {
    if file in shards then shards[file] else Missing
  }

  /** Bytes of the files of `order` that are not tensor data: length prefixes and headers. */
  function Overhead(shards: map<string, Shard>, order: seq<string>): int {
    if order == [] then 0 else
    var m := |order| - 1;
    var s := ShardOf(shards, order[m]);
    Overhead(shards, order[..m]) + (if s.Shard? then 8 + s.headerSize else 0)
  }

  function FileBytes(shards: map<string, Shard>, order: seq<string>): int {
    if order == [] then 0 else
    var m := |order| - 1;
    var s := ShardOf(shards, order[m]);
    FileBytes(shards, order[..m]) + (if s.Shard? then s.size else 0)
  }

  /** Every file of `done` is complete for the tensors mapped to it. */
  ghost predicate FilesComplete(weightMap: map<string, string>, shards: map<string, Shard>, done: set<string>) {
    forall f :: f in done ==> ShardComplete(ShardOf(shards, f), NamesIn(weightMap, f))
  }

  /** The files of `order` are the complete files `done`, and their bytes are accounted for. */
  ghost predicate Audited(weightMap: map<string, string>, shards: map<string, Shard>, order: seq<string>,
                          done: set<string>, logical: nat, physical: nat) {
    && Enumerates(order, done)
    && FilesComplete(weightMap, shards, done)
    && physical == FileBytes(shards, order) == logical + Overhead(shards, order)
  }

  lemma AuditFile(weightMap: map<string, string>, shards: map<string, Shard>, order: seq<string>,
                  done: set<string>, logical: nat, physical: nat, f: string, bytes: nat)
    requires Audited(weightMap, shards, order, done, logical, physical) && f !in done
    requires ShardComplete(ShardOf(shards, f), NamesIn(weightMap, f))
    requires ShardOf(shards, f).size == 8 + ShardOf(shards, f).headerSize + bytes
    ensures Audited(weightMap, shards, order + [f], done + {f}, logical + bytes, physical + ShardOf(shards, f).size)
  {
    assert (order + [f])[..|order|] == order;
  }

  /** The loop over files, adding up logical and physical bytes. */
  method CheckFiles(weightMap: map<string, string>, byFile: map<string, set<string>>, shards: map<string, Shard>)
    returns (ok: bool, logical: nat, physical: nat, ghost order: seq<string>)
    requires forall f :: f in byFile ==> byFile[f] == NamesIn(weightMap, f)
    ensures ok <==> FilesComplete(weightMap, shards, byFile.Keys)
    ensures ok ==> Audited(weightMap, shards, order, byFile.Keys, logical, physical)
  {
    order := [];
    logical, physical := 0, 0;
    var files := byFile.Keys;
    var todo := files;
    while todo != {}
      invariant todo <= files && Audited(weightMap, shards, order, files - todo, logical, physical)
      decreases |todo|
    {
      var f :| f in todo;
      assert byFile[f] == NamesIn(weightMap, f);
      var s := ShardOf(shards, f);
      var bytes := ValidateShard(s, byFile[f]);
      if bytes.None? {
        return false, logical, physical, order;
      }
      AuditFile(weightMap, shards, order, files - todo, logical, physical, f, bytes.value);
      assert files - (todo - {f}) == (files - todo) + {f};
      logical := logical + bytes.value;
      physical := physical + s.size;
      order := order + [f];
      todo := todo - {f};
    }
    assert files - todo == files;
    ok := true;
  }

  /** An indexed snapshot is accepted exactly when its weight map is not empty and every file it
      names lies below the folder and is complete for the tensors mapped to it.  Then the physical
      bytes are the files' sizes, and they are the logical bytes plus the prefixes and headers; a
      published total that differs is reported, not rejected. */
  method ValidateSnapshot(weightMap: map<string, string>, shards: map<string, Shard>, published: Option<int>)
    returns (report: Option<Report>, ghost order: seq<string>)
    ensures report.Some? <==>
              && weightMap != map[]
              && (forall f :: f in weightMap.Values ==> SafePath(f))
              && FilesComplete(weightMap, shards, weightMap.Values)
    ensures report.Some? ==>
              && Enumerates(order, weightMap.Values)
              && report.value.shards == |weightMap.Values| && report.value.tensors == |weightMap|
              && report.value.physicalBytes == FileBytes(shards, order)
              && report.value.physicalBytes == report.value.logicalBytes + Overhead(shards, order)
              && (report.value.publishedDelta.Some? <==>
                    published.Some? && published.value != report.value.logicalBytes)
              && (report.value.publishedDelta.Some? ==>
                    report.value.publishedDelta.value == report.value.logicalBytes - published.value)
  {
    order := [];
    if weightMap == map[] {
      return None, order;
    }
    var byFile := GroupByFile(weightMap);
    if byFile.None? {
      return None, order;
    }
    var ok, logical, physical;
    ok, logical, physical, order := CheckFiles(weightMap, byFile.value, shards);
    if !ok {
      return None, order;
    }
    var delta := if published.Some? && published.value != logical then Some(logical - published.value) else None;
    report := Some(Report(|byFile.value.Keys|, |weightMap|, logical, physical, delta));
  }
}
