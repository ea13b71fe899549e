/** The decode snapshot of whole-history full locations: staged into one captured buffer, read by
    every replay, while the live page table keeps moving underneath.

    The first half is the in-place code; the second half is the transition system it implements
    and what holds over every run of it. */
module Snapshot {
  import opened Matrices
  import opened Options
  import opened Sequences

  type Table = seq<seq<int>>

  ghost predicate Rect(t: Table, width: nat) {
    forall r :: 0 <= r < |t| ==> |t[r]| == width
  }

  /** Overwrite the leading columns, as many as both rows have. */
  function StagedRow(row: seq<int>, src: seq<int>): (r: seq<int>)
    ensures |r| == |row|
  {
    var w := Min(|src|, |row|);
    src[..w] + row[w..]
  }

  function StageRows(buf: Table, table: Table, rows: seq<nat>): (r: Table)
    requires forall i :: 0 <= i < |rows| ==> rows[i] < |table|
    ensures |r| == |buf|
  {
    seq(|buf|, r requires 0 <= r < |buf| =>
      if r < |rows| then StagedRow(buf[r], table[rows[r]]) else buf[r])
  }

  /** A width-`n` row of "no such position" sentinels. */
  function Blank(n: nat): (r: seq<int>)
    ensures |r| == n && forall c :: 0 <= c < n ==> r[c] == -1
  {
    seq(n, _ => -1)
  }

  function BlankTable(rows: nat, width: nat): (t: Table)
    ensures |t| == rows && forall r :: 0 <= r < rows ==> t[r] == Blank(width)
  {
    seq(rows, _ => Blank(width))
  }

  // ----- the buffers, updated in place ----------------------------------------------------

  ghost function Rows(a: array2<int>): (t: Table)
    reads a
    ensures |t| == a.Length0 && forall r :: 0 <= r < a.Length0 ==> t[r] == Row(a, r)
  {
    seq(a.Length0, r requires 0 <= r < a.Length0 reads a => Row(a, r))
  }

  class CaptureBackend {
    const table: array2<int>      // the live page table
    var fullSnap: array2<int>     // the captured buffer

    ghost predicate Valid()
      reads this
    {
      table != fullSnap
    }

    constructor (table: array2<int>, maxBs: nat, width: nat)
      ensures Valid() && this.table == table && fresh(fullSnap)
      ensures fullSnap.Length0 == maxBs && fullSnap.Length1 == width
      ensures Rows(fullSnap) == BlankTable(maxBs, width)
    {
      this.table := table;
      fullSnap := new int[maxBs, width]((_, _) => -1);
      new;
      assert forall r :: 0 <= r < maxBs ==> Row(fullSnap, r) == Blank(width);
    }

    /** Tear the capture down and arm it again at a new ceiling. */
    method Recapture(maxBs: nat, width: nat)
      modifies this
      ensures Valid() && fresh(fullSnap)
      ensures fullSnap.Length0 == maxBs && fullSnap.Length1 == width
      ensures Rows(fullSnap) == BlankTable(maxBs, width)
      ensures Rows(table) == old(Rows(table))
    {
      fullSnap := new int[maxBs, width]((_, _) => -1);
      assert forall r :: 0 <= r < maxBs ==> Row(fullSnap, r) == Blank(width);
      assert forall r :: 0 <= r < table.Length0 ==> Row(table, r) == old(Row(table, r));
    }

    /** The allocator re-points part of one request's row. */
    method Allocate(ti: nat, lo: nat, locs: seq<int>)
      requires Valid() && ti < table.Length0 && lo + |locs| <= table.Length1
      modifies table
      ensures Rows(table) == Reallocate(old(Rows(table)), ti, lo, locs)
      ensures forall r, c :: 0 <= r < table.Length0 && 0 <= c < table.Length1 ==>
                table[r, c] == if r == ti && lo <= c < lo + |locs| then locs[c - lo] else old(table[r, c])
      ensures Rows(fullSnap) == old(Rows(fullSnap))
    {
      for i := 0 to |locs|
        invariant forall c :: 0 <= c < i ==> table[ti, lo + c] == locs[c]
        invariant forall r, c | 0 <= r < table.Length0 && 0 <= c < table.Length1 ::
                    r != ti || c < lo || lo + i <= c ==> table[r, c] == old(table[r, c])
      {
        table[ti, lo + i] := locs[i];
      }
      forall c | lo <= c < lo + |locs| ensures table[ti, c] == locs[c - lo] {
        assert table[ti, lo + (c - lo)] == locs[c - lo];
      }
      assert Row(table, ti) == old(Row(table, ti))[..lo] + locs + old(Row(table, ti))[lo + |locs|..];
      assert forall r :: 0 <= r < table.Length0 && r != ti ==> Row(table, r) == old(Row(table, r));
      assert forall r :: 0 <= r < fullSnap.Length0 ==> Row(fullSnap, r) == old(Row(fullSnap, r));
    }

    /** Stage a batch: row `r` of the captured buffer takes the live row of the batch's `r`-th
        request; rows past the batch are left alone. */
    method PointToCapture(rowsTi: seq<nat>)
      requires Valid() && |rowsTi| <= fullSnap.Length0
      requires forall i :: 0 <= i < |rowsTi| ==> rowsTi[i] < table.Length0
      modifies fullSnap
      ensures Rows(fullSnap) == StageRows(old(Rows(fullSnap)), old(Rows(table)), rowsTi)
      ensures Rows(table) == old(Rows(table))
    {
      var w := Min(table.Length1, fullSnap.Length1);
      for r := 0 to |rowsTi|
        invariant forall q :: 0 <= q < r ==>
                    Row(fullSnap, q) == StagedRow(old(Row(fullSnap, q)), old(Row(table, rowsTi[q])))
        invariant forall q, c :: r <= q < fullSnap.Length0 && 0 <= c < fullSnap.Length1 ==>
                    fullSnap[q, c] == old(fullSnap[q, c])
      {
        label Before:
        for c := 0 to w
          invariant forall b :: 0 <= b < c ==> fullSnap[r, b] == old(table[rowsTi[r], b])
          invariant forall q, b | 0 <= q < fullSnap.Length0 && 0 <= b < fullSnap.Length1 ::
                      q != r || c <= b ==> fullSnap[q, b] == old@Before(fullSnap[q, b])
        {
          fullSnap[r, c] := table[rowsTi[r], c];
        }
        forall q | 0 <= q < r
          ensures Row(fullSnap, q) == old@Before(Row(fullSnap, q))
        {
          assert forall b :: 0 <= b < fullSnap.Length1 ==> fullSnap[q, b] == old@Before(fullSnap[q, b]);
        }
        assert Row(fullSnap, r) == StagedRow(old(Row(fullSnap, r)), old(Row(table, rowsTi[r])));
      }
      assert forall r :: |rowsTi| <= r < fullSnap.Length0 ==> Row(fullSnap, r) == old(Row(fullSnap, r));
      assert forall r :: 0 <= r < table.Length0 ==> Row(table, r) == old(Row(table, r));
    }
  }

  function Gather(table: Table, rows: seq<nat>): Table
    requires forall i :: 0 <= i < |rows| ==> rows[i] < |table|
  {
    seq(|rows|, i requires 0 <= i < |rows| => table[rows[i]])
  }

  /** Eager decode: the snapshot is a copy taken at the first read and kept from then on. */
  class EagerMetadata {
    const tableRows: seq<nat>
    var fullSnap: Option<Table>

    constructor (rows: seq<nat>)
      ensures tableRows == rows && fullSnap == None
    {
      tableRows := rows;
      fullSnap := None;
    }

    method FullSnapshot(table: Table) returns (snap: Table)
      requires forall i :: 0 <= i < |tableRows| ==> tableRows[i] < |table|
      modifies this
      ensures fullSnap == Some(snap)
      ensures old(fullSnap) == None ==>
                |snap| == |tableRows| && forall i :: 0 <= i < |snap| ==> snap[i] == table[tableRows[i]]
      ensures old(fullSnap) != None ==> fullSnap == old(fullSnap)
    {
      if fullSnap == None {
        fullSnap := Some(Gather(table, tableRows));
      }
      snap := fullSnap.value;
    }
  }

  // ----- every run --------------------------------------------------------------------------

  function Reallocate(table: Table, ti: nat, lo: nat, locs: seq<int>): Table
    requires ti < |table| && lo + |locs| <= |table[ti]|
  {
    table[ti := table[ti][..lo] + locs + table[ti][lo + |locs|..]]
  }

  datatype State = State(table: Table, buf: Table)

  datatype Event =
    | Alloc(ti: nat, lo: nat, locs: seq<int>)
    | Stage(rows: seq<nat>)
    | Rearm(maxBs: nat, width: nat)

  ghost predicate Enabled(s: State, e: Event) {
    match e
    case Alloc(ti, lo, locs) => ti < |s.table| && lo + |locs| <= |s.table[ti]|
    case Stage(rows) => |rows| <= |s.buf| && forall i :: 0 <= i < |rows| ==> rows[i] < |s.table|
    case Rearm(_, _) => true
  }

  ghost function Step(s: State, e: Event): State
    requires Enabled(s, e)
  {
    match e
    case Alloc(ti, lo, locs) => s.(table := Reallocate(s.table, ti, lo, locs))
    case Stage(rows) => s.(buf := StageRows(s.buf, s.table, rows))
    case Rearm(maxBs, width) => s.(buf := BlankTable(maxBs, width))
  }

  /** `s'` is reached from `s` by the events of `es`, in order. */
  ghost predicate Reaches(s: State, es: seq<Event>, s': State)
    decreases |es|
  {
    if es == [] then s == s' else
    Enabled(s, es[0]) && Reaches(Step(s, es[0]), es[1..], s')
  }

  /** The table keeps its width; buffer columns the table does not have are sentinels. */
  ghost predicate Inv(s: State, tableWidth: nat, width: nat) {
    && Rect(s.table, tableWidth)
    && Rect(s.buf, width)
    && forall r, c :: 0 <= r < |s.buf| && tableWidth <= c < width ==> s.buf[r][c] == -1
  }

  ghost function WidthAfter(e: Event, width: nat): nat {
    if e.Rearm? then e.width else width
  }

  lemma StepKeepsInv(s: State, e: Event, tableWidth: nat, width: nat)
    requires Enabled(s, e) && Inv(s, tableWidth, width)
    ensures Inv(Step(s, e), tableWidth, WidthAfter(e, width))
  {
  }

  ghost function WidthAfterRun(es: seq<Event>, width: nat): nat {
    if es == [] then width else WidthAfterRun(es[1..], WidthAfter(es[0], width))
  }

  /** Columns the table does not have stay sentinels over every run. */
  lemma {:induction false} RunKeepsInv(s: State, es: seq<Event>, s': State, tableWidth: nat, width: nat)
    requires Reaches(s, es, s') && Inv(s, tableWidth, width)
    ensures Inv(s', tableWidth, WidthAfterRun(es, width))
    decreases |es|
  {
    if es != [] {
      StepKeepsInv(s, es[0], tableWidth, width);
      RunKeepsInv(Step(s, es[0]), es[1..], s', tableWidth, WidthAfter(es[0], width));
    }
  }

  ghost predicate OnlyAllocs(es: seq<Event>) {
    forall i :: 0 <= i < |es| ==> es[i].Alloc?
  }

  lemma {:induction false} AllocsKeepBuffer(s: State, es: seq<Event>, s': State)
    requires Reaches(s, es, s') && OnlyAllocs(es)
    ensures s'.buf == s.buf
    decreases |es|
  {
    if es != [] {
      AllocsKeepBuffer(Step(s, es[0]), es[1..], s');
    }
  }

  /** What a batch staged from `table` must see: its own rows, then sentinels. */
  ghost function StagedView(table: Table, rows: seq<nat>, width: nat): Table
    requires forall i :: 0 <= i < |rows| ==> rows[i] < |table|
  {
    seq(|rows|, r requires 0 <= r < |rows| => StagedRow(Blank(width), table[rows[r]]))
  }

  /** The decode reads the locations as they were when its batch was staged: for every history
      before the staging and any allocations after it, the view handed to the model is fixed by the
      table at staging time alone -- no row of a larger earlier batch and no later allocation is
      visible, and the columns the table lacks read as sentinels. */
  lemma ReplayReadsStagedRows(s: State, before: seq<Event>, staged: State, rows: seq<nat>,
                              after: seq<Event>, replay: State, tableWidth: nat, width: nat)
    requires Inv(s, tableWidth, width) && Reaches(s, before, staged)
    requires Enabled(staged, Stage(rows)) && Reaches(Step(staged, Stage(rows)), after, replay)
    requires OnlyAllocs(after)
    ensures |rows| <= |replay.buf|
    ensures replay.buf[..|rows|] == StagedView(staged.table, rows, WidthAfterRun(before, width))
  {
    RunKeepsInv(s, before, staged, tableWidth, width);
    AllocsKeepBuffer(Step(staged, Stage(rows)), after, replay);
    var w := WidthAfterRun(before, width);
    forall r | 0 <= r < |rows|
      ensures replay.buf[r] == StagedRow(Blank(w), staged.table[rows[r]])
    {
      assert replay.buf[r] == StagedRow(staged.buf[r], staged.table[rows[r]]);
    }
  }

  /** The limit of the scheme.  The view is a window onto one buffer, so when a second batch is
      staged before the first has been replayed, the first batch still reads its own locations
      exactly when the two batches' rows agree on every shared row and copied column. */
  lemma SecondStagingRedirects(s: State, first: seq<nat>, allocs: seq<Event>, mid: State,
                               second: seq<nat>, tableWidth: nat, width: nat)
    requires Inv(s, tableWidth, width) && Enabled(s, Stage(first))
    requires Reaches(Step(s, Stage(first)), allocs, mid) && OnlyAllocs(allocs)
    requires Rect(mid.table, tableWidth) && Enabled(mid, Stage(second))
    ensures var own := StagedView(s.table, first, width);
            var buf := Step(mid, Stage(second)).buf;
            var w := Min(tableWidth, width);
            |first| <= |buf| &&
            (buf[..|first|] == own <==> forall r :: 0 <= r < |first| && r < |second| ==>
                               mid.table[second[r]][..w] == s.table[first[r]][..w])
  {
    ReplayReadsStagedRows(s, [], s, first, allocs, mid, tableWidth, width);
    var own := StagedView(s.table, first, width);
    var seen := Step(mid, Stage(second)).buf[..|first|];
    var w := Min(tableWidth, width);
    assert mid.buf[..|first|] == own;
    forall r | 0 <= r < |first|
      ensures r >= |second| ==> seen[r] == own[r]
      ensures r < |second| ==> (seen[r] == own[r] <==> mid.table[second[r]][..w] == s.table[first[r]][..w])
    {
      assert own[r] == s.table[first[r]][..w] + Blank(width)[w..];
      assert mid.buf[r] == own[r];
      if r < |second| {
        assert seen[r] == mid.table[second[r]][..w] + mid.buf[r][w..];
        assert own[r][..w] == s.table[first[r]][..w] && own[r][w..] == mid.buf[r][w..];
        assert seen[r][..w] == mid.table[second[r]][..w] && seen[r][w..] == mid.buf[r][w..];
        assert seen[r] == seen[r][..w] + seen[r][w..] && own[r] == own[r][..w] + own[r][w..];
      }
    }
  }
}
