/** The runtime session check: a fixed plan of cases, driven against a server that may answer or
    fail at every step. */
module Sessions {
  import opened Options
  import opened Sequences

  const KEYS: nat := 3   // k0, k1, k2

  datatype Case =
    | TurnTool(turn: nat)
    | TurnAnswer(turn: nat)
    | BranchAmended
    | BranchParent
    | SummaryCase
    | LegalSummary
    | LegalChronology
    | Recall(length: nat, key: nat)

  datatype Message =
    | System
    | RecordText
    | Question(key: nat)
    | ToolRequest(key: nat)
    | AssistantCall(id: string)
    | ToolResult(id: string)
    | AssistantAnswer(turn: nat)
    | Amendment
    | SummaryQuery
    | LegalText
    | LegalQuery(k: nat)
    | RecallText(length: nat, key: nat)

  /** One observation.  `failed` stands for a recorded error. */
  datatype Record = Record(name: Case, attempted: bool, failed: bool, validated: bool, request: seq<Message>)

  datatype Finish = Stop | ToolCalls | OtherFinish

  /** `asked` when the call is to `lookup_fact` with exactly the fact asked for. */
  datatype Call = Call(asked: bool, id: string)

  /** The content of an answer: nothing but white space, the expected JSON value, or something else. */
  datatype Content = Blank | Oracle | OtherContent

  /** One exchange: the token count of the locally rendered prompt, and what the server returned.
      `NoReply` stands for a rendering or transport error, and for a body without the expected fields. */
  datatype Reply =
    | NoReply
    | Reply(rendered: int, error: bool, choices: nat, prompt: int, completion: int, total: int, cached: int,
            assistant: bool, finish: Finish, calls: seq<Call>, content: Content)

  /** The checks every reply must pass: the prompt fits, one choice came back without an error, and the
      usage counts reconcile. */
  predicate Reconciles(r: Reply, budget: int, maxContext: int) {
    && r.Reply?
    && 0 < r.rendered <= maxContext - budget
    && !r.error && r.choices == 1
    && r.prompt == r.rendered
    && 0 < r.completion <= budget
    && r.total == r.prompt + r.completion
    && 0 <= r.cached <= r.prompt
    && r.assistant
  }

  /** A tool step expects one fresh call and nothing else, an answer step the oracle value and no call. */
  predicate Accepted(r: Reply, tool: bool, used: set<string>, budget: int, maxContext: int) {
    && Reconciles(r, budget, maxContext)
    && if tool then
         && r.finish == ToolCalls && r.content == Blank
         && |r.calls| == 1 && r.calls[0].asked && r.calls[0].id != "" && r.calls[0].id !in used
       else
         r.finish == Stop && r.calls == [] && r.content == Oracle
  }

  /** The id an accepted reply carries. */
  function CallId(r: Reply): string {
    if r.Reply? && r.calls != [] then r.calls[0].id else ""
  }

  function Names(records: seq<Record>): (names: seq<Case>)
    ensures |names| == |records| && forall i :: 0 <= i < |names| ==> names[i] == records[i].name
  {
    seq(|records|, i requires 0 <= i < |records| => records[i].name)
  }

  predicate AllValidated(records: seq<Record>) {
    forall i :: 0 <= i < |records| ==> records[i].validated
  }

  // ----- the plan -----------------------------------------------------------------------------

  predicate IsToolTurn(i: nat) {
    i % 4 == 3
  }

  function TurnCases(i: nat): seq<Case> {
    if IsToolTurn(i) then [TurnTool(i), TurnAnswer(i)] else [TurnAnswer(i)]
  }

  function TurnNames(n: nat): seq<Case> {
    if n == 0 then [] else TurnNames(n - 1) + TurnCases(n - 1)
  }

  function LegalNames(legal: bool): seq<Case> {
    if legal then [LegalSummary, LegalChronology] else []
  }

  function RecallNames(lengths: seq<nat>): seq<Case> {
    if lengths == [] then [] else
    var m := |lengths| - 1;
    RecallNames(lengths[..m]) + [Recall(lengths[m], 0), Recall(lengths[m], 1), Recall(lengths[m], 2)]
  }

  function Planned(turns: nat, legal: bool, recall: seq<nat>): seq<Case> {
    TurnNames(turns) + [BranchAmended, BranchParent, SummaryCase] + LegalNames(legal) + RecallNames(recall)
  }

  lemma {:induction false} TurnNamesDistinct(n: nat)
    ensures Distinct(TurnNames(n))
    ensures forall c :: c in TurnNames(n) ==> (c.TurnTool? || c.TurnAnswer?) && c.turn < n
  {
    if n > 0 {
      TurnNamesDistinct(n - 1);
      var before := TurnNames(n - 1);
      assert forall q :: 0 <= q < |before| ==> before[q] in before;
    }
  }

  lemma {:induction false} RecallNamesDistinct(lengths: seq<nat>)
    requires Distinct(lengths)
    ensures Distinct(RecallNames(lengths))
    ensures forall c :: c in RecallNames(lengths) ==> c.Recall? && c.length in lengths
  {
    if lengths != [] {
      var m := |lengths| - 1;
      RecallNamesDistinct(lengths[..m]);
      var before := RecallNames(lengths[..m]);
      assert lengths == lengths[..m] + [lengths[m]];
      assert forall q :: 0 <= q < |before| ==> before[q] in before && before[q].length != lengths[m];
    }
  }

  lemma DistinctConcat<T>(a: seq<T>, b: seq<T>)
    requires Distinct(a) && Distinct(b) && forall i, j :: 0 <= i < |a| && 0 <= j < |b| ==> a[i] != b[j]
    ensures Distinct(a + b)
  {
  }

  /** Every planned case has its own name: a record list with the planned names has one record per
      case. */
  lemma PlannedDistinct(turns: nat, legal: bool, recall: seq<nat>)
    requires Distinct(recall)
    ensures Distinct(Planned(turns, legal, recall))
  {
    TurnNamesDistinct(turns);
    RecallNamesDistinct(recall);
    var t, mid, l, r := TurnNames(turns), [BranchAmended, BranchParent, SummaryCase], LegalNames(legal),
      RecallNames(recall);
    assert forall i :: 0 <= i < |t| ==> t[i] in t;
    assert forall i :: 0 <= i < |r| ==> r[i] in r;
    DistinctConcat(t, mid);
    DistinctConcat(t + mid, l);
    DistinctConcat(t + mid + l, r);
  }

  /** Every fourth turn is a tool turn, the fourth one first: of four turns in a row, one. */
  lemma ToolTurnsEveryFourth(i: nat)
    ensures IsToolTurn(3) && !IsToolTurn(0) && !IsToolTurn(1) && !IsToolTurn(2)
    ensures IsToolTurn(i + 4) <==> IsToolTurn(i)
  {
  }

  /** Where a turn stands in the plan: an answer each, and in front of it a tool step on a tool turn. */
  lemma {:induction false} PlannedTurns(n: nat, c: Case)
    ensures c in TurnNames(n) <==>
              (c.TurnAnswer? && c.turn < n) || (c.TurnTool? && c.turn < n && c.turn % 4 == 3)
    ensures |TurnNames(n)| == n + n / 4
  {
    if n > 0 {
      PlannedTurns(n - 1, c);
    }
  }

  lemma {:induction false} PlannedRecalls(lengths: seq<nat>, c: Case)
    ensures c in RecallNames(lengths) <==> c.Recall? && c.length in lengths && c.key < 3
    ensures |RecallNames(lengths)| == 3 * |lengths|
  {
    if lengths != [] {
      var m := |lengths| - 1;
      PlannedRecalls(lengths[..m], c);
      assert lengths == lengths[..m] + [lengths[m]];
    }
  }

  /** The plan, case by case. */
  lemma PlanMeaning(turns: nat, legal: bool, recall: seq<nat>, c: Case)
    ensures c in Planned(turns, legal, recall) <==>
              match c
              case TurnAnswer(i) => i < turns
              case TurnTool(i) => i < turns && i % 4 == 3
              case BranchAmended => true
              case BranchParent => true
              case SummaryCase => true
              case LegalSummary => legal
              case LegalChronology => legal
              case Recall(n, key) => n in recall && key < 3
    ensures |Planned(turns, legal, recall)| == turns + turns / 4 + 3 + (if legal then 2 else 0) + 3 * |recall|
  {
    PlannedTurns(turns, c);
    PlannedRecalls(recall, c);
  }

  // ----- the conversation ---------------------------------------------------------------------

  /** Tool turns among the first `n`. */
  function ToolTurns(n: nat): nat {
    if n == 0 then 0 else ToolTurns(n - 1) + (if IsToolTurn(n - 1) then 1 else 0)
  }

  /** The messages of turn `i`, with the id its tool call was answered under. */
  function TurnMessages(i: nat, id: string): seq<Message> {
    if IsToolTurn(i) then
      [ToolRequest(i % KEYS), AssistantCall(id), ToolResult(id), AssistantAnswer(i)]
    else
      [Question(i % KEYS), AssistantAnswer(i)]
  }

  /** The history after `n` completed turns whose tool calls carried `ids`, in order. */
  function HistoryOf(n: nat, ids: seq<string>): seq<Message>
    requires |ids| == ToolTurns(n)
  {
    if n == 0 then [System, RecordText]
    else if IsToolTurn(n - 1) then
      HistoryOf(n - 1, ids[..|ids| - 1]) + TurnMessages(n - 1, ids[|ids| - 1])
    else
      HistoryOf(n - 1, ids) + TurnMessages(n - 1, "")
  }

  lemma {:induction false} ToolTurnsGrow(m: nat, n: nat)
    requires m <= n
    ensures ToolTurns(m) <= ToolTurns(n)
  {
    if m < n {
      ToolTurnsGrow(m, n - 1);
    }
  }

  lemma ToolHistory(i: nat, ids: seq<string>, id: string)
    requires IsToolTurn(i) && |ids| == ToolTurns(i)
    ensures |ids + [id]| == ToolTurns(i + 1)
    ensures HistoryOf(i + 1, ids + [id])
            == HistoryOf(i, ids) + [ToolRequest(i % KEYS)] + [AssistantCall(id), ToolResult(id)] + [AssistantAnswer(i)]
  {
    assert (ids + [id])[..|ids|] == ids;
  }

  /** How a turn extends the history: a tool turn asks for the call, carries the server's id in both the
      call and its result, and answers; any other turn asks and answers. */
  lemma TurnExtendsHistory(n: nat, ids: seq<string>)
    requires |ids| == ToolTurns(n + 1)
    ensures HistoryOf(0, []) == [System, RecordText]
    ensures n % 4 == 3 ==>
              && |ids| > 0 && ToolTurns(n) == |ids| - 1
              && HistoryOf(n + 1, ids) == HistoryOf(n, ids[..|ids| - 1])
                 + [ToolRequest(n % 3), AssistantCall(ids[|ids| - 1]), ToolResult(ids[|ids| - 1]), AssistantAnswer(n)]
    ensures n % 4 != 3 ==>
              ToolTurns(n) == |ids| && HistoryOf(n + 1, ids) == HistoryOf(n, ids)
              + [Question(n % 3), AssistantAnswer(n)]
  {
  }

  /** The history of fewer turns is a prefix of the history of more. */
  lemma {:induction false} HistoryPrefix(m: nat, n: nat, ids: seq<string>)
    requires m <= n && |ids| == ToolTurns(n)
    ensures ToolTurns(m) <= |ids|
    ensures HistoryOf(m, ids[..ToolTurns(m)]) <= HistoryOf(n, ids)
  {
    ToolTurnsGrow(m, n);
    if m < n {
      var before := if IsToolTurn(n - 1) then ids[..|ids| - 1] else ids;
      ToolTurnsGrow(m, n - 1);
      HistoryPrefix(m, n - 1, before);
      assert before[..ToolTurns(m)] == ids[..ToolTurns(m)];
    } else {
      assert ids[..ToolTurns(m)] == ids;
    }
  }

  // ----- the runner ---------------------------------------------------------------------------

  datatype Timeout = NotFinite | Seconds(value: real)

  /** The declared envelope of a session. */
  predicate GoodConfig(turns: int, budget: int, maxContext: int, recall: seq<nat>, timeout: Timeout,
                       identity: map<string, string>) {
    && 20 <= turns <= 50
    && 1 <= budget <= 1024
    && budget < maxContext <= 131072
    && timeout.Seconds? && timeout.value > 0.0
    && |recall| <= 2
    && (forall i :: 0 <= i < |recall| ==> recall[i] in {8192, 32768} && recall[i] + budget <= maxContext)
    && (|recall| == 2 ==> recall[0] != recall[1])
    && identity != map[]
  }

  /** The envelope, bound by bound. */
  lemma EnvelopeMeaning(turns: int, budget: int, maxContext: int, recall: seq<nat>, timeout: Timeout,
                        identity: map<string, string>)
    ensures GoodConfig(turns, budget, maxContext, recall, timeout, identity) <==>
              && 20 <= turns <= 50 && 1 <= budget <= 1024 && budget < maxContext <= 131072
              && timeout.Seconds? && timeout.value > 0.0 && identity != map[]
              && |recall| <= 2 && Distinct(recall)
              && forall n :: n in recall ==> (n == 8192 || n == 32768) && n + budget <= maxContext
  {
    assert forall i :: 0 <= i < |recall| ==> recall[i] in recall;
  }

  /** Records of one step sequence, in order: a step is attempted exactly while every earlier one
      has been validated. */
  ghost predicate StopsAtFailure(records: seq<Record>) {
    forall i :: 0 <= i < |records| ==> (records[i].attempted <==> AllValidated(records[..i]))
  }

  ghost predicate GoodRecord(r: Record) {
    && (r.validated ==> r.attempted && !r.failed)
    && (!r.attempted ==> r.failed && r.request == [])
  }

  ghost predicate WellFormed(records: seq<Record>) {
    forall i :: 0 <= i < |records| ==> GoodRecord(records[i])
  }

  lemma Appended(records: seq<Record>, r: Record)
    ensures var after := records + [r];
            && Names(after) == Names(records) + [r.name]
            && (AllValidated(after) <==> AllValidated(records) && r.validated)
            && (StopsAtFailure(records) && (r.attempted <==> AllValidated(records)) ==> StopsAtFailure(after))
  {
    var after := records + [r];
    assert after[..|records|] == records && after[|records|] == r;
    assert forall i :: 0 <= i < |records| ==> after[..i] == records[..i] && after[i] == records[i];
    if AllValidated(after) {
      assert forall i :: 0 <= i < |records| ==> after[i].validated;
    }
  }

  lemma {:induction false} TurnNamesGrow(m: nat, n: nat)
    requires m <= n
    ensures TurnNames(m) <= TurnNames(n)
  {
    if m < n {
      TurnNamesGrow(m, n - 1);
    }
  }

  /** The records of the first `n` turns. */
  ghost predicate TurnsRecorded(records: seq<Record>, n: nat) {
    Names(records) == TurnNames(n) && WellFormed(records) && StopsAtFailure(records)
  }

  /** After `n` turns the shared parent has been saved exactly if the first `half` turns are done and
      validated, and it is the history of those turns. */
  ghost predicate ParentSaved(parent: Option<seq<Message>>, records: seq<Record>, n: nat, half: nat, ids: seq<string>) {
    && (parent.Some? <==> half <= n && |TurnNames(half)| <= |records| && AllValidated(records[..|TurnNames(half)|]))
    && (parent.Some? ==>
          ToolTurns(half) <= |ids| && parent.value == HistoryOf(half, ids[..ToolTurns(half)]))
  }

  lemma NextTurnParent(parent: Option<seq<Message>>, before: seq<Record>, after: seq<Record>, i: nat, half: nat,
                       ids: seq<string>, ids': seq<string>)
    requires before <= after && Names(before) == TurnNames(i) && Names(after) == TurnNames(i + 1)
    requires ids <= ids' && ParentSaved(parent, before, i, half, ids)
    ensures half != i + 1 ==> ParentSaved(parent, after, i + 1, half, ids')
    ensures half == i + 1 ==> |TurnNames(half)| == |after| && after[..|TurnNames(half)|] == after && parent.None?
  {
    if half <= i {
      TurnNamesGrow(half, i);
      assert after[..|TurnNames(half)|] == before[..|TurnNames(half)|];
      if parent.Some? {
        assert ids'[..ToolTurns(half)] == ids[..ToolTurns(half)];
      }
    }
  }

  class SessionRun {
    const turns: nat
    const budget: int
    const maxContext: int
    const legal: bool
    const recall: seq<nat>
    var records: seq<Record>
    var finished: bool
    var usedToolIds: set<string>

    constructor (turns: nat, budget: int, maxContext: int, legal: bool, recall: seq<nat>)
      ensures this.turns == turns && this.budget == budget && this.maxContext == maxContext
      ensures this.legal == legal && this.recall == recall
      ensures records == [] && !finished && usedToolIds == {}
    {
      this.turns, this.budget, this.maxContext, this.legal, this.recall := turns, budget, maxContext, legal, recall;
      records, finished, usedToolIds := [], false, {};
    }

    method Skip(name: Case)
      modifies this`records
      ensures records == old(records) + [Record(name, false, true, false, [])]
      ensures Names(records) == Names(old(records)) + [name]
      ensures WellFormed(old(records)) ==> WellFormed(records)
      ensures !AllValidated(old(records)) && StopsAtFailure(old(records)) ==> StopsAtFailure(records)
      ensures !AllValidated(records)
    {
      Appended(records, Record(name, false, true, false, []));
      records := records + [Record(name, false, true, false, [])];
      assert !records[|records| - 1].validated;
    }

    /** Run one case: the observation is recorded as attempted before the server is asked, and
        completed with the outcome.  A tool call must carry a fresh, non-empty id, which is then
        used up. */
    method Step(name: Case, messages: seq<Message>, tool: bool, reply: Reply) returns (answer: Option<string>)
      modifies this`records, this`usedToolIds
      ensures var ok := Accepted(reply, tool, old(usedToolIds), budget, maxContext);
              && (answer == if ok then Some(CallId(reply)) else None)
              && records == old(records) + [Record(name, true, !ok, ok, messages)]
              && usedToolIds == old(usedToolIds) + (if ok && tool then {CallId(reply)} else {})
      ensures answer.Some? <==>
                && reply.Reply? && 0 < reply.rendered <= maxContext - budget
                && !reply.error && reply.choices == 1 && reply.assistant
                && reply.prompt == reply.rendered && 0 < reply.completion <= budget
                && reply.total == reply.prompt + reply.completion && 0 <= reply.cached <= reply.prompt
                && (tool ==>
                      && reply.finish == ToolCalls && reply.content == Blank && |reply.calls| == 1
                      && reply.calls[0].asked && reply.calls[0].id != "" && reply.calls[0].id !in old(usedToolIds))
                && (!tool ==> reply.finish == Stop && reply.calls == [] && reply.content == Oracle)
      ensures answer.Some? && tool ==> answer.value == reply.calls[0].id && answer.value in usedToolIds
      ensures Names(records) == Names(old(records)) + [name]
      ensures WellFormed(old(records)) ==> WellFormed(records)
      ensures AllValidated(old(records)) && StopsAtFailure(old(records)) ==> StopsAtFailure(records)
      ensures AllValidated(records) <==> AllValidated(old(records)) && answer.Some?
    {
      var at := |records|;
      records := records + [Record(name, true, false, false, messages)];
      if !Accepted(reply, tool, usedToolIds, budget, maxContext) {
        records := records[at := records[at].(failed := true)];
        Appended(old(records), Record(name, true, true, false, messages));
        return None;
      }
      if tool {
        usedToolIds := usedToolIds + {reply.calls[0].id};
      }
      records := records[at := records[at].(validated := true)];
      Appended(old(records), Record(name, true, false, true, messages));
      answer := Some(CallId(reply));
    }

    /** The session after `i` turns. */
    ghost predicate TurnsDone(i: nat, history: seq<Message>, blocked: bool, parent: Option<seq<Message>>,
                              ids: seq<string>)
      reads this
    {
      && TurnsRecorded(records, i)
      && (blocked <==> !AllValidated(records))
      && usedToolIds == (set x | x in ids)
      && Distinct(ids)
      && (!blocked ==> |ids| == ToolTurns(i) && history == HistoryOf(i, ids))
      && ParentSaved(parent, records, i, turns / 2, ids)
    }

    /** The session turns.  `server(k)` answers the request of the `k`-th record. */
    method RunTurns(server: nat -> Reply)
      returns (history: seq<Message>, blocked: bool, parent: Option<seq<Message>>, ghost ids: seq<string>)
      requires records == [] && usedToolIds == {} && turns >= 2
      modifies this`records, this`usedToolIds
      ensures TurnsDone(turns, history, blocked, parent, ids)
    {
      history := [System, RecordText];
      blocked := false;
      parent := None;
      ids := [];
      for i := 0 to turns
        invariant TurnsDone(i, history, blocked, parent, ids)
      {
        history, blocked, parent, ids := RunTurn(i, history, blocked, parent, server, ids);
      }
    }

    method RunTurn(i: nat, history: seq<Message>, blocked: bool, parent: Option<seq<Message>>, server: nat -> Reply,
                   ghost ids: seq<string>)
      returns (history': seq<Message>, blocked': bool, parent': Option<seq<Message>>, ghost ids': seq<string>)
      requires TurnsDone(i, history, blocked, parent, ids)
      modifies this`records, this`usedToolIds
      ensures TurnsDone(i + 1, history', blocked', parent', ids')
    {
      history', blocked', parent', ids' := history, blocked, parent, ids;
      if blocked {
        SkipTurn(i);
      } else {
        var ok: bool;
        history', ok, ids' := OneTurn(i, history, server, ids);
        blocked' := !ok;
      }
      NextTurnParent(parent, old(records), records, i, turns / 2, ids, ids');
      if !blocked' && i == turns / 2 - 1 {
        assert ids'[..ToolTurns(turns / 2)] == ids';
        parent' := Some(history');
      }
    }

    method SkipTurn(i: nat)
      requires TurnsRecorded(records, i) && !AllValidated(records)
      modifies this`records
      ensures old(records) <= records
      ensures TurnsRecorded(records, i + 1) && !AllValidated(records)
    {
      if IsToolTurn(i) {
        Skip(TurnTool(i));
      }
      Skip(TurnAnswer(i));
    }

    /** One unblocked turn: question, and on a tool turn the call and its result, then the answer. */
    method OneTurn(i: nat, history: seq<Message>, server: nat -> Reply, ghost ids: seq<string>)
      returns (history': seq<Message>, ok: bool, ghost ids': seq<string>)
      requires TurnsRecorded(records, i) && AllValidated(records)
      requires usedToolIds == set x | x in ids
      requires Distinct(ids) && |ids| == ToolTurns(i) && history == HistoryOf(i, ids)
      modifies this`records, this`usedToolIds
      ensures old(records) <= records
      ensures TurnsRecorded(records, i + 1)
      ensures ok <==> AllValidated(records)
      ensures usedToolIds == set x | x in ids'
      ensures Distinct(ids') && ids <= ids'
      ensures ok ==> |ids'| == ToolTurns(i + 1) && history' == HistoryOf(i + 1, ids')
    {
      if IsToolTurn(i) {
        history', ok, ids' := ToolTurn(i, history, server, ids);
      } else {
        ids' := ids;
        history' := history + [Question(i % KEYS)];
        var answer := Step(TurnAnswer(i), history', false, server(|records|));
        ok := answer.Some?;
        if ok {
          history' := history' + [AssistantAnswer(i)];
        }
      }
    }

    method ToolTurn(i: nat, history: seq<Message>, server: nat -> Reply, ghost ids: seq<string>)
      returns (history': seq<Message>, ok: bool, ghost ids': seq<string>)
      requires TurnsRecorded(records, i) && AllValidated(records) && IsToolTurn(i)
      requires usedToolIds == set x | x in ids
      requires Distinct(ids) && |ids| == ToolTurns(i) && history == HistoryOf(i, ids)
      modifies this`records, this`usedToolIds
      ensures old(records) <= records
      ensures TurnsRecorded(records, i + 1)
      ensures ok <==> AllValidated(records)
      ensures usedToolIds == set x | x in ids'
      ensures Distinct(ids') && ids <= ids'
      ensures ok ==> |ids'| == ToolTurns(i + 1) && history' == HistoryOf(i + 1, ids')
    {
      history' := history + [ToolRequest(i % KEYS)];
      var reply;
      reply, ids' := ToolCall(i, history', server, ids);
      if reply.None? {
        Skip(TurnAnswer(i));
        ok := false;
        return;
      }
      ToolHistory(i, ids, reply.value);
      history' := history' + [AssistantCall(reply.value), ToolResult(reply.value)];
      var answer := Step(TurnAnswer(i), history', false, server(|records|));
      ok := answer.Some?;
      if ok {
        history' := history' + [AssistantAnswer(i)];
      }
    }

    /** The call half of a tool turn: a validated call carries an id not used before. */
    method ToolCall(i: nat, messages: seq<Message>, server: nat -> Reply, ghost ids: seq<string>)
      returns (reply: Option<string>, ghost ids': seq<string>)
      requires usedToolIds == (set x | x in ids) && Distinct(ids)
      modifies this`records, this`usedToolIds
      ensures |records| == |old(records)| + 1 && old(records) <= records
      ensures Names(records) == Names(old(records)) + [TurnTool(i)]
      ensures WellFormed(old(records)) ==> WellFormed(records)
      ensures AllValidated(old(records)) && StopsAtFailure(old(records)) ==> StopsAtFailure(records)
      ensures AllValidated(records) <==> AllValidated(old(records)) && reply.Some?
      ensures usedToolIds == (set x | x in ids') && Distinct(ids')
      ensures ids' == if reply.Some? then ids + [reply.value] else ids
    {
      reply := Step(TurnTool(i), messages, true, server(|records|));
      ids' := if reply.Some? then ids + [reply.value] else ids;
    }

    /** The two branches off the shared parent: each starts from the parent alone. */
    method RunBranches(parent: Option<seq<Message>>, server: nat -> Reply)
      modifies this`records, this`usedToolIds
      ensures exists a, b ::
                && records == old(records) + [a, b]
                && BranchRecord(a, BranchAmended, parent, Amendment)
                && BranchRecord(b, BranchParent, parent, Question(0))
    {
      RunBranch(BranchAmended, parent, Amendment, server);
      ghost var a := records[|records| - 1];
      RunBranch(BranchParent, parent, Question(0), server);
      ghost var b := records[|records| - 1];
      assert records == old(records) + [a, b];
    }

    method RunBranch(name: Case, parent: Option<seq<Message>>, query: Message, server: nat -> Reply)
      modifies this`records, this`usedToolIds
      ensures |records| == |old(records)| + 1 && old(records) <= records
      ensures BranchRecord(records[|old(records)|], name, parent, query)
    {
      if parent.None? {
        Skip(name);
      } else {
        var _ := Step(name, parent.value + [query], false, server(|records|));
      }
    }

    method RunSummary(history: seq<Message>, blocked: bool, server: nat -> Reply)
      modifies this`records, this`usedToolIds
      ensures |records| == |old(records)| + 1 && old(records) <= records
      ensures BranchRecord(records[|old(records)|], SummaryCase, if blocked then None else Some(history), SummaryQuery)
    {
      if blocked {
        Skip(SummaryCase);
      } else {
        var _ := Step(SummaryCase, history + [SummaryQuery], false, server(|records|));
      }
    }

    method RunLegal(server: nat -> Reply)
      modifies this`records, this`usedToolIds
      ensures old(records) <= records
      ensures Names(records[|old(records)|..]) == LegalNames(legal)
      ensures forall i :: |old(records)| <= i < |records| ==> LegalRecord(records[i])
      ensures WellFormed(old(records)) ==> WellFormed(records)
    {
      if legal {
        var _ := Step(LegalSummary, [System, LegalText, LegalQuery(0)], false, server(|records|));
        var _ := Step(LegalChronology, [System, LegalText, LegalQuery(1)], false, server(|records|));
      }
    }

    /** Recall cases: skipped with an error when the exact-length prompt cannot be built. */
    method RunRecall(server: nat -> Reply, buildable: (nat, nat) -> bool)
      modifies this`records, this`usedToolIds
      ensures old(records) <= records
      ensures Names(records[|old(records)|..]) == RecallNames(recall)
      ensures RecallsFollow(records, |old(records)|, buildable)
      ensures WellFormed(old(records)) ==> WellFormed(records)
    {
      for l := 0 to |recall|
        invariant old(records) <= records
        invariant Names(records[|old(records)|..]) == RecallNames(recall[..l])
        invariant RecallsFollow(records, |old(records)|, buildable)
        invariant WellFormed(old(records)) ==> WellFormed(records)
      {
        ghost var before := records;
        RecallLength(recall[l], server, buildable);
        assert recall[..l + 1][..l] == recall[..l];
        assert records[|old(records)|..] == before[|old(records)|..] + records[|before|..];
      }
      assert recall[..|recall|] == recall;
    }

    method RecallLength(length: nat, server: nat -> Reply, buildable: (nat, nat) -> bool)
      modifies this`records, this`usedToolIds
      ensures old(records) <= records
      ensures Names(records[|old(records)|..]) == [Recall(length, 0), Recall(length, 1), Recall(length, 2)]
      ensures RecallsFollow(records, |old(records)|, buildable)
      ensures WellFormed(old(records)) ==> WellFormed(records)
    {
      RecallOne(length, 0, server, buildable);
      RecallOne(length, 1, server, buildable);
      RecallOne(length, 2, server, buildable);
    }

    method RecallOne(length: nat, key: nat, server: nat -> Reply, buildable: (nat, nat) -> bool)
      modifies this`records, this`usedToolIds
      ensures |records| == |old(records)| + 1 && old(records) <= records
      ensures records[|old(records)|].name == Recall(length, key)
      ensures RecallRecord(records[|old(records)|], buildable)
      ensures WellFormed(old(records)) ==> WellFormed(records)
    {
      if !buildable(length, key) {
        Skip(Recall(length, key));
      } else {
        var _ := Step(Recall(length, key), [System, RecallText(length, key), Question(key)], false, server(|records|));
      }
    }

    /** Turns, branches and summary. */
    method RunCore(server: nat -> Reply) returns (ghost ids: seq<string>)
      requires records == [] && usedToolIds == {} && turns >= 2
      modifies this`records, this`usedToolIds
      ensures Names(records) == TurnNames(turns) + [BranchAmended, BranchParent, SummaryCase]
      ensures WellFormed(records) && CoreRecords(records, turns, ids)
      ensures Distinct(ids)
    {
      var history, blocked, parent;
      history, blocked, parent, ids := RunTurns(server);
      ghost var t, n := records, |records|;
      RunBranches(parent, server);
      RunSummary(history, blocked, server);
      assert records == t + [records[n], records[n + 1], records[n + 2]];
      CoreNames(t, records[n], records[n + 1], records[n + 2]);
      CoreShape(t, records[n], records[n + 1], records[n + 2], turns, history, blocked, parent, ids);
    }

    /** All cases: turns, branches, summary, legal and recall. */
    method RunCases(server: nat -> Reply, buildable: (nat, nat) -> bool) returns (ghost ids: seq<string>)
      requires records == [] && usedToolIds == {} && turns >= 2
      modifies this`records, this`usedToolIds
      ensures WellFormed(records) && Names(records) == Planned(turns, legal, recall)
      ensures Distinct(ids) && SessionShape(records, turns, legal, ids)
      ensures forall i :: 0 <= i < |records| && records[i].name.Recall? ==> RecallRecord(records[i], buildable)
    {
      ids := RunCore(server);
      ghost var core := records;
      RunLegal(server);
      ghost var withLegal := records;
      RunRecall(server, buildable);
      TailShape(core, withLegal, records, turns, legal, recall, ids);
    }

    /** The whole session, for every server behaviour.  The finished records carry exactly the
        planned names in order.  A turn step is attempted exactly while every earlier turn step has
        been validated; both branches exactly when the first half of the turns has been, each from
        that half's history; the summary exactly when all turns have been, from the full history.
        The tool-call ids accepted along the way are all different. */
    method Run(server: nat -> Reply, buildable: (nat, nat) -> bool) returns (report: Report, ghost ids: seq<string>)
      requires records == [] && usedToolIds == {} && turns >= 2
      modifies this
      ensures finished && WellFormed(records)
      ensures Names(records) == Planned(turns, legal, recall)
      ensures report.planned == |records|
      ensures report.attempted == |AttemptedAt(records)| && report.passed == |PassedAt(records)|
      ensures report.failed == report.attempted - report.passed && report.notRun == report.planned - report.attempted
      ensures report.complete <==> AllValidated(records)
      ensures Distinct(ids)
      ensures SessionShape(records, turns, legal, ids)
      ensures forall i :: 0 <= i < |records| && records[i].name.Recall? ==> RecallRecord(records[i], buildable)
    {
      ids := RunCases(server, buildable);
      finished := true;
      report := ReportOf(records, |Planned(turns, legal, recall)|);
      ReportMeaning(records, Planned(turns, legal, recall));
    }
  }

  /** A session is refused outside its declared envelope, and starts empty inside it. */
  method NewSession(turns: int, budget: int, maxContext: int, recall: seq<nat>, legal: bool, timeout: Timeout,
                    identity: map<string, string>)
    returns (s: Option<SessionRun>)
    ensures s.Some? <==>
              && 20 <= turns <= 50 && 1 <= budget <= 1024 && budget < maxContext <= 131072
              && timeout.Seconds? && timeout.value > 0.0 && identity != map[]
              && |recall| <= 2 && Distinct(recall)
              && forall n :: n in recall ==> (n == 8192 || n == 32768) && n + budget <= maxContext
    ensures s.Some? ==> fresh(s.value) && s.value.turns == turns && s.value.legal == legal && s.value.recall == recall
    ensures s.Some? ==> s.value.budget == budget && s.value.maxContext == maxContext
    ensures s.Some? ==> s.value.records == [] && s.value.usedToolIds == {} && !s.value.finished
    ensures s.Some? ==> Distinct(Planned(turns, legal, recall))
  {
    EnvelopeMeaning(turns, budget, maxContext, recall, timeout, identity);
    if !GoodConfig(turns, budget, maxContext, recall, timeout, identity) {
      return None;
    }
    var run := new SessionRun(turns, budget, maxContext, legal, recall);
    s := Some(run);
    PlannedDistinct(turns, legal, recall);
  }

  /** Once a turn step fails, no later turn step is attempted and neither is the summary; when it
      fails within the first half, neither are the branches. */
  lemma FailureStopsSession(records: seq<Record>, turns: nat, ids: seq<string>, i: nat)
    requires CoreRecords(records, turns, ids) && i < |TurnNames(turns)| && !records[i].validated
    ensures var t := |TurnNames(turns)|;
            && (forall j :: i < j < t ==> !records[j].attempted)
            && !records[t + 2].attempted
            && (i < |TurnNames(turns / 2)| ==> !records[t].attempted && !records[t + 1].attempted)
  {
    var t := |TurnNames(turns)|;
    forall j | i < j < t ensures !records[j].attempted {
      assert records[..t][..j] == records[..j];
      assert records[..j][i] == records[i];
      assert records[..t][j] == records[j];
    }
    assert records[..t][i] == records[i];
    if i < |TurnNames(turns / 2)| {
      assert records[..|TurnNames(turns / 2)|][i] == records[i];
    }
  }

  /** A recall case is run, on its own text and question, exactly when that text can be built. */
  ghost predicate RecallRecord(r: Record, buildable: (nat, nat) -> bool) {
    && r.name.Recall?
    && (r.attempted <==> buildable(r.name.length, r.name.key))
    && (r.attempted ==> r.request == [System, RecallText(r.name.length, r.name.key), Question(r.name.key)])
  }

  /** From index `from` on there are recall cases only. */
  ghost predicate RecallsFollow(records: seq<Record>, from: nat, buildable: (nat, nat) -> bool) {
    forall i :: from <= i < |records| ==> RecallRecord(records[i], buildable)
  }

  /** A case run from a fixed history when there is one, skipped otherwise. */
  ghost predicate BranchRecord(r: Record, name: Case, base: Option<seq<Message>>, query: Message) {
    && r.name == name
    && (r.attempted <==> base.Some?)
    && (base.Some? ==> r.request == base.value + [query])
    && GoodRecord(r)
  }

  /** The turns, branches and summary of a session. */
  ghost predicate CoreRecords(records: seq<Record>, turns: nat, ids: seq<string>) {
    var t, half := |TurnNames(turns)|, turns / 2;
    var h := |TurnNames(half)|;
    && t + 3 <= |records| && h <= t
    && StopsAtFailure(records[..t])
    && (records[t].attempted <==> AllValidated(records[..h]))
    && (records[t + 1].attempted <==> AllValidated(records[..h]))
    && (records[t].attempted ==>
          && ToolTurns(half) <= |ids|
          && records[t].request == HistoryOf(half, ids[..ToolTurns(half)]) + [Amendment]
          && records[t + 1].request == HistoryOf(half, ids[..ToolTurns(half)]) + [Question(0)])
    && (records[t + 2].attempted <==> AllValidated(records[..t]))
    && (records[t + 2].attempted ==>
          |ids| == ToolTurns(turns) && records[t + 2].request == HistoryOf(turns, ids) + [SummaryQuery])
  }

  /** A legal case is always run, on its own text and question. */
  ghost predicate LegalRecord(r: Record) {
    r.attempted && r.request == [System, LegalText, LegalQuery(if r.name == LegalSummary then 0 else 1)]
  }

  ghost predicate SessionShape(records: seq<Record>, turns: nat, legal: bool, ids: seq<string>) {
    && CoreRecords(records, turns, ids)
    && forall i :: 0 <= i < |records| && (records[i].name == LegalSummary || records[i].name == LegalChronology) ==>
         LegalRecord(records[i])
  }

  /** Turn records followed by the two branches and the summary. */
  lemma CoreShape(t: seq<Record>, a: Record, b: Record, c: Record, turns: nat, history: seq<Message>, blocked: bool,
                  parent: Option<seq<Message>>, ids: seq<string>)
    requires TurnsRecorded(t, turns) && (blocked <==> !AllValidated(t))
    requires !blocked ==> |ids| == ToolTurns(turns) && history == HistoryOf(turns, ids)
    requires ParentSaved(parent, t, turns, turns / 2, ids)
    requires BranchRecord(a, BranchAmended, parent, Amendment)
    requires BranchRecord(b, BranchParent, parent, Question(0))
    requires BranchRecord(c, SummaryCase, if blocked then None else Some(history), SummaryQuery)
    ensures CoreRecords(t + [a, b, c], turns, ids)
  {
    var core := t + [a, b, c];
    TurnNamesGrow(turns / 2, turns);
    var h := |TurnNames(turns / 2)|;
    assert |t| == |Names(t)| == |TurnNames(turns)|;
    assert core[..|t|] == t && core[..h] == t[..h];
    assert core[|t|] == a && core[|t| + 1] == b && core[|t| + 2] == c;
  }

  lemma CoreNames(t: seq<Record>, a: Record, b: Record, c: Record)
    ensures Names(t + [a, b, c]) == Names(t) + [a.name, b.name, c.name]
    ensures WellFormed(t) && GoodRecord(a) && GoodRecord(b) && GoodRecord(c) ==> WellFormed(t + [a, b, c])
  {
  }

  lemma CoreRecordsPrefix(core: seq<Record>, all: seq<Record>, turns: nat, ids: seq<string>)
    requires CoreRecords(core, turns, ids) && core <= all
    ensures CoreRecords(all, turns, ids)
  {
    var t := |TurnNames(turns)|;
    assert all[..t] == core[..t];
    assert all[..|TurnNames(turns / 2)|] == core[..|TurnNames(turns / 2)|];
  }

  lemma NamesConcat(a: seq<Record>, b: seq<Record>)
    ensures Names(a + b) == Names(a) + Names(b)
  {
  }

  lemma TailNames(core: seq<Record>, l: seq<Record>, all: seq<Record>)
    requires core <= l <= all
    ensures Names(all) == Names(core) + Names(l[|core|..]) + Names(all[|l|..])
  {
    assert l == core + l[|core|..] && all == l + all[|l|..];
    NamesConcat(core, l[|core|..]);
    NamesConcat(l, all[|l|..]);
  }

  /** Before the recall cases no record is one, and the legal ones are attempted. */
  lemma BeforeRecall(core: seq<Record>, l: seq<Record>, turns: nat, legal: bool, i: nat)
    requires Names(core) == TurnNames(turns) + [BranchAmended, BranchParent, SummaryCase] && core <= l
    requires Names(l[|core|..]) == LegalNames(legal) && forall k :: |core| <= k < |l| ==> LegalRecord(l[k])
    requires i < |l|
    ensures !l[i].name.Recall?
    ensures l[i].name == LegalSummary || l[i].name == LegalChronology ==> LegalRecord(l[i])
  {
    if i < |core| {
      CoreName(core, turns, i);
    } else {
      assert Names(l[|core|..])[i - |core|] == l[i].name;
    }
  }

  lemma TailShape(core: seq<Record>, l: seq<Record>, all: seq<Record>, turns: nat, legal: bool, recall: seq<nat>,
                  ids: seq<string>)
    requires Names(core) == TurnNames(turns) + [BranchAmended, BranchParent, SummaryCase]
    requires CoreRecords(core, turns, ids)
    requires core <= l <= all
    requires Names(l[|core|..]) == LegalNames(legal) && Names(all[|l|..]) == RecallNames(recall)
    requires forall i :: |core| <= i < |l| ==> LegalRecord(l[i])
    requires forall i :: |l| <= i < |all| ==> all[i].name.Recall?
    ensures Names(all) == Planned(turns, legal, recall)
    ensures SessionShape(all, turns, legal, ids)
    ensures forall i :: 0 <= i < |all| && all[i].name.Recall? ==> |l| <= i
  {
    TailNames(core, l, all);
    CoreRecordsPrefix(core, all, turns, ids);
    forall i | 0 <= i < |l|
      ensures !all[i].name.Recall?
      ensures all[i].name == LegalSummary || all[i].name == LegalChronology ==> LegalRecord(all[i])
    {
      assert all[i] == l[i];
      BeforeRecall(core, l, turns, legal, i);
    }
  }

  lemma CoreName(core: seq<Record>, turns: nat, i: nat)
    requires Names(core) == TurnNames(turns) + [BranchAmended, BranchParent, SummaryCase] && i < |core|
    ensures var c := core[i].name;
            !c.Recall? && c != LegalSummary && c != LegalChronology
  {
    TurnNamesDistinct(turns);
    assert core[i].name == Names(core)[i];
    assert i < |TurnNames(turns)| ==> TurnNames(turns)[i] in TurnNames(turns);
  }

  // ----- the report ---------------------------------------------------------------------------

  datatype Report = Report(planned: nat, attempted: nat, passed: nat, failed: int, notRun: int, complete: bool)

  function CountAttempted(records: seq<Record>): nat {
    if records == [] then 0
    else CountAttempted(records[..|records| - 1]) + (if records[|records| - 1].attempted then 1 else 0)
  }

  function CountPassed(records: seq<Record>): nat {
    if records == [] then 0
    else
      var r := records[|records| - 1];
      CountPassed(records[..|records| - 1]) + (if r.attempted && r.validated && !r.failed then 1 else 0)
  }

  function ReportOf(records: seq<Record>, planned: nat): Report {
    var attempted, passed := CountAttempted(records), CountPassed(records);
    Report(planned, attempted, passed, attempted - passed, planned - attempted, passed == planned)
  }

  lemma {:induction false} CountsBounded(records: seq<Record>)
    requires WellFormed(records)
    ensures CountPassed(records) <= CountAttempted(records) <= |records|
    ensures CountPassed(records) == |records| <==> AllValidated(records)
  {
    if records != [] {
      var m := |records| - 1;
      CountsBounded(records[..m]);
      assert AllValidated(records) ==> AllValidated(records[..m]);
      assert records == records[..m] + [records[m]];
    }
  }

  /** The records of the report's counts: the attempted ones, and those of them that were validated and
      carry no error. */
  ghost function AttemptedAt(records: seq<Record>): set<nat> {
    set i: nat | i < |records| && records[i].attempted
  }

  ghost function PassedAt(records: seq<Record>): set<nat> {
    set i: nat | i < |records| && records[i].attempted && records[i].validated && !records[i].failed
  }

  lemma {:induction false} AttemptedIsSize(records: seq<Record>)
    ensures CountAttempted(records) == |AttemptedAt(records)|
  {
    if records != [] {
      var m := |records| - 1;
      AttemptedIsSize(records[..m]);
      assert AttemptedAt(records) == AttemptedAt(records[..m]) + (if records[m].attempted then {m} else {});
    }
  }

  lemma PassedNext(front: seq<Record>, r: Record)
    ensures PassedAt(front + [r])
            == PassedAt(front) + (if r.attempted && r.validated && !r.failed then {|front|} else {})
  {
  }

  lemma {:induction false} PassedIsSize(records: seq<Record>)
    ensures CountPassed(records) == |PassedAt(records)|
  {
    if records != [] {
      var m := |records| - 1;
      PassedIsSize(records[..m]);
      PassedNext(records[..m], records[m]);
      assert records == records[..m] + [records[m]];
    }
  }

  /** What a report of finished records says. */
  lemma ReportMeaning(records: seq<Record>, planned: seq<Case>)
    requires WellFormed(records) && Names(records) == planned
    ensures var r := ReportOf(records, |planned|);
            && r.planned == |records|
            && r.attempted == |AttemptedAt(records)| && r.passed == |PassedAt(records)|
            && r.failed == r.attempted - r.passed && r.notRun == r.planned - r.attempted
            && (r.complete <==> AllValidated(records))
  {
    AttemptedIsSize(records);
    PassedIsSize(records);
    ReportAddsUp(records, planned);
  }

  /** A report over records whose names are a prefix of the plan -- taken at the end, or at any
      progress point before -- adds up, counts no case twice or below zero, and says "complete" only
      when every planned case has been run and validated. */
  lemma ReportAddsUp(records: seq<Record>, planned: seq<Case>)
    requires WellFormed(records) && Names(records) <= planned
    ensures var r := ReportOf(records, |planned|);
            && r.passed + r.failed + r.notRun == |planned|
            && 0 <= r.passed && 0 <= r.failed && 0 <= r.notRun
            && (r.complete <==> Names(records) == planned && AllValidated(records))
  {
    CountsBounded(records);
  }
}
