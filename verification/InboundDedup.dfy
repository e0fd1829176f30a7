/**
 * Idempotent handling of daemon requests (src/middleware/inbound_dedup.ts). Requests, the clock and garbage
 * collection interleave freely at every await; lookups, inserts and deletes may fail. A run is any sequence of
 * actions: an action that is not enabled changes nothing.
 */
module InboundDedup {
  import opened Wrappers
  import opened Json

  /** Seven days, in milliseconds. */
  const RETENTION: int := 7 * 24 * 60 * 60 * 1000

  datatype Response = Response(status: int, body: Json)

  /** What a handler does with its response, in order; the last stands for `next()`, a throw or a rejection. */
  datatype HandlerEvent = SentJson(response: Response) | LeftByError

  datatype Row = Row(endpoint: string, response: Response, createdAt: int)

  /** Where a request stands between two awaits of `_handle_dedup`. */
  datatype Phase = Arrived | Missed | Captured(response: Response) | Stamped(row: Row) | Done

  datatype Request = Request(tx: string, endpoint: string, phase: Phase)

  datatype Reply = Reply(request: nat, tx: string, response: Response, cached: bool)

  /** `pending` holds the cutoffs of collections whose DELETE has not run yet; `executed` is the handler history. */
  datatype State = State(
    now: int,
    table: map<string, Row>,
    requests: seq<Request>,
    pending: seq<int>,
    executed: seq<string>,
    replies: seq<Reply>)

  datatype Action =
    | Tick(elapsed: nat)
    | Arrive(tx: string, endpoint: string)
    | Lookup(request: nat, fails: bool)
    | Execute(request: nat, events: seq<HandlerEvent>)
    | Stamp(request: nat)
    | Insert(request: nat, applied: bool)
    | CollectStart
    | CollectDelete(which: nat, applied: bool)

  /** The response captured: only the first thing a handler does counts. */
  function FirstSettled(events: seq<HandlerEvent>): Option<Response> {
    if |events| > 0 && events[0].SentJson? then Some(events[0].response) else None
  }

  /** A stored string body is parsed again before it is sent; when that throws there is no reply. */
  function Replay(parse: string -> Option<Json>, row: Row): Option<Response> {
    if !row.response.body.JString? then Some(row.response)
    else match parse(row.response.body.value)
      case Some(body) => Some(Response(row.response.status, body))
      case None => None
  }

  predicate InPhase(s: State, r: nat, p: Phase) {
    r < |s.requests| && s.requests[r].phase == p
  }

  function SetPhase(s: State, r: nat, p: Phase): State
    requires r < |s.requests|
  {
    s.(requests := s.requests[r := s.requests[r].(phase := p)])
  }

  function DoLookup(parse: string -> Option<Json>, s: State, r: nat, fails: bool): State
    requires r < |s.requests|
  {
    var tx := s.requests[r].tx;
    if fails || tx !in s.table then SetPhase(s, r, Missed)
    else
      var s1 := SetPhase(s, r, Done);
      match Replay(parse, s.table[tx])
      case Some(response) => s1.(replies := s.replies + [Reply(r, tx, response, true)])
      case None => s1
  }

  function DoExecute(s: State, r: nat, events: seq<HandlerEvent>): State
    requires r < |s.requests|
  {
    var tx := s.requests[r].tx;
    match FirstSettled(events)
    case Some(response) =>
      SetPhase(s, r, Captured(response)).(executed := s.executed + [tx],
                                          replies := s.replies + [Reply(r, tx, response, false)])
    case None =>
      SetPhase(s, r, Done).(executed := s.executed + [tx])
  }

  /** INSERT … ON CONFLICT DO NOTHING; `applied` is false when the statement never took effect. */
  function DoInsert(s: State, r: nat, row: Row, applied: bool): State
    requires r < |s.requests|
  {
    var tx := s.requests[r].tx;
    SetPhase(s, r, Done).(table := if applied && tx !in s.table then s.table[tx := row] else s.table)
  }

  function Surviving(table: map<string, Row>, cutoff: int): map<string, Row> {
    map tx | tx in table && table[tx].createdAt >= cutoff :: table[tx]
  }

  function Do(parse: string -> Option<Json>, s: State, a: Action): State {
    match a
    case Tick(elapsed) => s.(now := s.now + elapsed)
    case Arrive(tx, endpoint) => s.(requests := s.requests + [Request(tx, endpoint, Arrived)])
    case Lookup(r, fails) => if InPhase(s, r, Arrived) then DoLookup(parse, s, r, fails) else s
    case Execute(r, events) => if InPhase(s, r, Missed) then DoExecute(s, r, events) else s
    case Stamp(r) =>
      if r < |s.requests| && s.requests[r].phase.Captured?
      then SetPhase(s, r, Stamped(Row(s.requests[r].endpoint, s.requests[r].phase.response, s.now)))
      else s
    case Insert(r, applied) =>
      if r < |s.requests| && s.requests[r].phase.Stamped? then DoInsert(s, r, s.requests[r].phase.row, applied) else s
    case CollectStart => s.(pending := s.pending + [s.now - RETENTION])
    case CollectDelete(k, applied) =>
      if k < |s.pending|
      then s.(pending := s.pending[..k] + s.pending[k + 1..],
              table := if applied then Surviving(s.table, s.pending[k]) else s.table)
      else s
  }

  function After(parse: string -> Option<Json>, s: State, actions: seq<Action>): State
    decreases |actions|
  {
    if |actions| == 0 then s else After(parse, Do(parse, s, actions[0]), actions[1..])
  }

  const BOOT := State(0, map[], [], [], [], [])

  // ---- A recorded row stays, unchanged, for its seven days. ----

  /** No collection under way may delete a row younger than the retention. */
  ghost predicate CutoffsOld(s: State) {
    forall k :: 0 <= k < |s.pending| ==> s.pending[k] <= s.now - RETENTION
  }

  lemma DoKeepsCutoffs(parse: string -> Option<Json>, s: State, a: Action)
    requires CutoffsOld(s)
    ensures CutoffsOld(Do(parse, s, a)) && s.now <= Do(parse, s, a).now
  {
  }

  /** The whole of it: while the clock is within the row's window, no interleaving removes or changes the row. */
  lemma {:induction false} RowStays(parse: string -> Option<Json>, s: State, actions: seq<Action>, tx: string)
    requires CutoffsOld(s) && tx in s.table
    requires After(parse, s, actions).now <= s.table[tx].createdAt + RETENTION
    ensures tx in After(parse, s, actions).table && After(parse, s, actions).table[tx] == s.table[tx]
    ensures s.now <= After(parse, s, actions).now
    decreases |actions|
  {
    if |actions| > 0 {
      var s1 := Do(parse, s, actions[0]);
      DoKeepsCutoffs(parse, s, actions[0]);
      ClockForward(parse, s1, actions[1..]);
      assert tx in s1.table && s1.table[tx] == s.table[tx];
      RowStays(parse, s1, actions[1..], tx);
    }
  }

  lemma {:induction false} ClockForward(parse: string -> Option<Json>, s: State, actions: seq<Action>)
    ensures s.now <= After(parse, s, actions).now
    ensures CutoffsOld(s) ==> CutoffsOld(After(parse, s, actions))
    decreases |actions|
  {
    if |actions| > 0 {
      ClockForward(parse, Do(parse, s, actions[0]), actions[1..]);
    }
  }

  /**
   * Whatever happened since a row was recorded, a lookup in its window that succeeds answers with that row and
   * finishes the request without its handler.
   */
  lemma HitReplaysRow(parse: string -> Option<Json>, s: State, actions: seq<Action>, tx: string, r: nat)
    requires CutoffsOld(s) && tx in s.table
    requires var t := After(parse, s, actions);
             t.now <= s.table[tx].createdAt + RETENTION && InPhase(t, r, Arrived) && t.requests[r].tx == tx
    ensures var t := After(parse, s, actions);
            var u := Do(parse, t, Lookup(r, false));
            && InPhase(u, r, Done) && u.executed == t.executed && u.table == t.table
            && u.replies == t.replies
                 + match Replay(parse, s.table[tx]) case Some(x) => [Reply(r, tx, x, true)] case None => []
  {
    RowStays(parse, s, actions, tx);
  }

  /** JSON text that denotes a string is longer than the string by its quotes, so no text denotes itself. */
  ghost predicate NoTextDenotesItself(parse: string -> Option<Json>) {
    forall s :: parse(s) != Some(JString(s))
  }

  /** What is replayed is what was captured exactly when the captured body is not a string: a string is parsed again. */
  lemma ReplayFaithfulIff(parse: string -> Option<Json>, row: Row)
    requires NoTextDenotesItself(parse)
    ensures Replay(parse, row) == Some(row.response) <==> !row.response.body.JString?
  {
    var body := row.response.body;
    if body.JString? {
      assert parse(body.value) != Some(JString(body.value));
    }
  }

  /**
   * Within its window, a row whose body is a string that is no JSON text is not replayed: parsing throws, the request
   * leaves by the error path, and its handler does not run.
   */
  lemma ReplayOfPlainTextThrows(parse: string -> Option<Json>, s: State, actions: seq<Action>, tx: string, r: nat,
                                text: string)
    requires CutoffsOld(s) && tx in s.table && s.table[tx].response.body == JString(text) && parse(text).None?
    requires var t := After(parse, s, actions);
             t.now <= s.table[tx].createdAt + RETENTION && InPhase(t, r, Arrived) && t.requests[r].tx == tx
    ensures var t := After(parse, s, actions);
            var u := Do(parse, t, Lookup(r, false));
            InPhase(u, r, Done) && u.replies == t.replies && u.executed == t.executed
  {
    HitReplaysRow(parse, s, actions, tx, r);
  }

  /** A request whose handler answers a plain string, and the same transaction delivered again. */
  function PlainTextTwice(tx: string, text: string): seq<Action> {
    [Arrive(tx, ""), Lookup(0, false), Execute(0, [SentJson(Response(200, JString(text)))]), Stamp(0), Insert(0, true)]
    + [Arrive(tx, ""), Lookup(1, false)]
  }

  /**
   * From boot: the first delivery is answered and recorded; the second neither replays the answer nor runs the handler.
   */
  lemma PlainTextNotReplayed(parse: string -> Option<Json>, tx: string, text: string)
    requires parse(text).None?
    ensures var t := After(parse, BOOT, PlainTextTwice(tx, text));
            && t.executed == [tx] && InPhase(t, 1, Done)
            && t.replies == [Reply(0, tx, Response(200, JString(text)), false)]
            && tx in t.table && t.table[tx].response == Response(200, JString(text))
  {
    var response := Response(200, JString(text));
    var row := Row("", response, 0);
    var first := [Arrive(tx, ""), Lookup(0, false), Execute(0, [SentJson(response)]), Stamp(0), Insert(0, true)];
    var again := [Arrive(tx, ""), Lookup(1, false)];
    var s5 := State(0, map[tx := row], [Request(tx, "", Done)], [], [tx], [Reply(0, tx, response, false)]);
    FiveSteps(parse, BOOT, first[0], first[1], first[2], first[3], first[4]);
    FirstIsRecorded(parse, tx, response);
    AfterAppends(parse, BOOT, first, again);
    var s6 := Do(parse, s5, again[0]);
    var s7 := Do(parse, s6, again[1]);
    assert again[1..] == [again[1]] && again[1..][1..] == [];
    assert After(parse, s5, again) == After(parse, s6, again[1..]) == After(parse, s7, []);
  }

  lemma FirstIsRecorded(parse: string -> Option<Json>, tx: string, response: Response)
    ensures var a, b, c, d, e :=
              Arrive(tx, ""), Lookup(0, false), Execute(0, [SentJson(response)]), Stamp(0), Insert(0, true);
            Do(parse, Do(parse, Do(parse, Do(parse, Do(parse, BOOT, a), b), c), d), e)
            == State(0, map[tx := Row("", response, 0)], [Request(tx, "", Done)], [], [tx],
                [Reply(0, tx, response, false)])
  {
  }

  // ---- Where rows come from. ----

  /** A handler answered request `r` of transaction `tx` with this response. */
  ghost predicate Answered(s: State, r: nat, tx: string, response: Response) {
    exists k :: 0 <= k < |s.replies| && s.replies[k] == Reply(r, tx, response, false)
  }

  ghost predicate AnsweredBySome(s: State, tx: string, response: Response) {
    exists r :: Answered(s, r, tx, response)
  }

  /** Every row, and every response on its way to the table, is a handler's own answer to that transaction. */
  ghost predicate RowsAnswered(s: State) {
    && (forall tx :: tx in s.table ==> AnsweredBySome(s, tx, s.table[tx].response))
    && (forall r :: 0 <= r < |s.requests| && s.requests[r].phase.Captured? ==>
          Answered(s, r, s.requests[r].tx, s.requests[r].phase.response))
    && (forall r :: 0 <= r < |s.requests| && s.requests[r].phase.Stamped? ==>
          Answered(s, r, s.requests[r].tx, s.requests[r].phase.row.response))
  }

  lemma AnsweredGrows(s: State, t: State)
    requires s.replies <= t.replies
    ensures forall r, tx, x :: Answered(s, r, tx, x) ==> Answered(t, r, tx, x)
    ensures forall tx, x :: AnsweredBySome(s, tx, x) ==> AnsweredBySome(t, tx, x)
  {
    forall r, tx, x | Answered(s, r, tx, x) ensures Answered(t, r, tx, x) {
      var k :| 0 <= k < |s.replies| && s.replies[k] == Reply(r, tx, x, false);
      assert t.replies[k] == s.replies[k];
    }
  }

  lemma ExecuteKeepsRowsAnswered(s: State, r: nat, events: seq<HandlerEvent>)
    requires RowsAnswered(s) && r < |s.requests|
    ensures RowsAnswered(DoExecute(s, r, events))
  {
    var t := DoExecute(s, r, events);
    AnsweredGrows(s, t);
    if FirstSettled(events).Some? {
      assert t.replies[|s.replies|] == Reply(r, s.requests[r].tx, FirstSettled(events).value, false);
      assert Answered(t, r, s.requests[r].tx, FirstSettled(events).value);
    }
  }

  lemma InsertKeepsRowsAnswered(s: State, r: nat, applied: bool)
    requires RowsAnswered(s) && r < |s.requests| && s.requests[r].phase.Stamped?
    ensures RowsAnswered(DoInsert(s, r, s.requests[r].phase.row, applied))
  {
    var row := s.requests[r].phase.row;
    var t := DoInsert(s, r, row, applied);
    AnsweredGrows(s, t);
    assert Answered(t, r, s.requests[r].tx, row.response);
    forall tx | tx in t.table ensures AnsweredBySome(t, tx, t.table[tx].response) {
      if tx in s.table {
        assert AnsweredBySome(s, tx, s.table[tx].response);
      }
    }
  }

  lemma LookupKeepsRowsAnswered(parse: string -> Option<Json>, s: State, r: nat, fails: bool)
    requires RowsAnswered(s) && r < |s.requests|
    ensures RowsAnswered(DoLookup(parse, s, r, fails))
  {
    AnsweredGrows(s, DoLookup(parse, s, r, fails));
  }

  lemma DoKeepsRowsAnswered(parse: string -> Option<Json>, s: State, a: Action)
    requires RowsAnswered(s)
    ensures RowsAnswered(Do(parse, s, a))
  {
    match a {
      case Lookup(r, fails) =>
        if InPhase(s, r, Arrived) { LookupKeepsRowsAnswered(parse, s, r, fails); }
      case Execute(r, events) =>
        if InPhase(s, r, Missed) { ExecuteKeepsRowsAnswered(s, r, events); }
      case Insert(r, applied) =>
        if r < |s.requests| && s.requests[r].phase.Stamped? { InsertKeepsRowsAnswered(s, r, applied); }
      case _ => AnsweredGrows(s, Do(parse, s, a));
    }
  }

  /** From boot, over any run, nothing is ever recorded for a transaction but a response its handler sent first. */
  lemma {:induction false} RowsAreAnswers(parse: string -> Option<Json>, s: State, actions: seq<Action>)
    requires RowsAnswered(s)
    ensures RowsAnswered(After(parse, s, actions))
    decreases |actions|
  {
    if |actions| > 0 {
      DoKeepsRowsAnswered(parse, s, actions[0]);
      RowsAreAnswers(parse, Do(parse, s, actions[0]), actions[1..]);
    }
  }

  lemma BootIsClean()
    ensures RowsAnswered(BOOT) && CutoffsOld(BOOT)
  {
  }

  lemma {:induction false} AfterAppends(parse: string -> Option<Json>, s: State, a: seq<Action>, b: seq<Action>)
    ensures After(parse, s, a + b) == After(parse, After(parse, s, a), b)
    decreases |a|
  {
    if |a| == 0 {
      assert a + b == b;
    } else {
      AfterAppends(parse, Do(parse, s, a[0]), a[1..], b);
      assert (a + b)[1..] == a[1..] + b;
    }
  }

  /**
   * From boot: whatever row a run has recorded holds an answer of its transaction's handler, and stays as it is through
   * whatever follows within its window.
   */
  lemma BootRowStays(parse: string -> Option<Json>, before: seq<Action>, more: seq<Action>, tx: string)
    requires tx in After(parse, BOOT, before).table
    requires After(parse, BOOT, before + more).now <= After(parse, BOOT, before).table[tx].createdAt + RETENTION
    ensures var s := After(parse, BOOT, before);
            var t := After(parse, BOOT, before + more);
            && tx in t.table && t.table[tx] == s.table[tx]
            && AnsweredBySome(t, tx, t.table[tx].response)
  {
    BootIsClean();
    ClockForward(parse, BOOT, before);
    AfterAppends(parse, BOOT, before, more);
    RowStays(parse, After(parse, BOOT, before), more, tx);
    RowsAreAnswers(parse, BOOT, before + more);
  }

  // ---- From a handler's answer to its replay, by the clock. ----

  lemma {:induction false} CapturedStays(parse: string -> Option<Json>, s: State, actions: seq<Action>, r: nat,
                                         response: Response)
    requires InPhase(s, r, Captured(response)) && Stamp(r) !in actions
    ensures InPhase(After(parse, s, actions), r, Captured(response))
    ensures After(parse, s, actions).requests[r].tx == s.requests[r].tx
    decreases |actions|
  {
    if |actions| > 0 {
      assert actions[0] in actions && forall a :: a in actions[1..] ==> a in actions;
      CapturedStays(parse, Do(parse, s, actions[0]), actions[1..], r, response);
    }
  }

  lemma {:induction false} StampedStays(parse: string -> Option<Json>, s: State, actions: seq<Action>, r: nat, row: Row)
    requires InPhase(s, r, Stamped(row)) || InPhase(s, r, Done)
    ensures InPhase(After(parse, s, actions), r, Stamped(row)) || InPhase(After(parse, s, actions), r, Done)
    ensures After(parse, s, actions).requests[r].tx == s.requests[r].tx
    decreases |actions|
  {
    if |actions| > 0 {
      StampedStays(parse, Do(parse, s, actions[0]), actions[1..], r, row);
    }
  }

  /**
   * The way of an answer `x` from boot: in `s0` request `r` of `tx` is about to run its handler, whose first event is
   * that answer; it is stamped in `s1`, inserted in `s2` where `tx` has no row; `s3` is any state after that. Anything
   * at all may happen in between.
   */
  ghost predicate Answers(parse: string -> Option<Json>, r: nat, tx: string, x: Response, s0: State, s1: State,
                          s2: State, s3: State) {
    && (exists before :: s0 == After(parse, BOOT, before))
    && InPhase(s0, r, Missed) && s0.requests[r].tx == tx
    && (exists later, between :: Stamp(r) !in between
          && s1 == After(parse, Do(parse, s0, Execute(r, [SentJson(x)] + later)), between))
    && (exists between :: s2 == After(parse, Do(parse, s1, Stamp(r)), between))
    && r < |s2.requests| && s2.requests[r].phase.Stamped? && tx !in s2.table
    && (exists more :: s3 == After(parse, Do(parse, s2, Insert(r, true)), more))
  }

  lemma AnswerIsCaptured(parse: string -> Option<Json>, r: nat, x: Response, s: State, later: seq<HandlerEvent>,
                         between: seq<Action>)
    requires CutoffsOld(s) && InPhase(s, r, Missed) && Stamp(r) !in between
    ensures var t := After(parse, Do(parse, s, Execute(r, [SentJson(x)] + later)), between);
            CutoffsOld(t) && InPhase(t, r, Captured(x)) && t.requests[r].tx == s.requests[r].tx
  {
    ClockForward(parse, Do(parse, s, Execute(r, [SentJson(x)] + later)), between);
    CapturedStays(parse, Do(parse, s, Execute(r, [SentJson(x)] + later)), between, r, x);
  }

  lemma AnswerIsStamped(parse: string -> Option<Json>, r: nat, x: Response, s: State, between: seq<Action>)
    requires CutoffsOld(s) && InPhase(s, r, Captured(x))
    ensures var t := After(parse, Do(parse, s, Stamp(r)), between);
            && CutoffsOld(t) && r < |t.requests| && t.requests[r].tx == s.requests[r].tx
            && (t.requests[r].phase.Stamped? ==> t.requests[r].phase.row == Row(s.requests[r].endpoint, x, s.now))
  {
    ClockForward(parse, Do(parse, s, Stamp(r)), between);
    StampedStays(parse, Do(parse, s, Stamp(r)), between, r, Row(s.requests[r].endpoint, x, s.now));
  }

  lemma AnswerIsInserted(parse: string -> Option<Json>, r: nat, tx: string, x: Response, s0: State, s1: State,
                         s2: State, s3: State)
    requires Answers(parse, r, tx, x, s0, s1, s2, s3)
    ensures var t := Do(parse, s2, Insert(r, true));
            && CutoffsOld(t) && tx in t.table && t.table[tx].response == x && t.table[tx].createdAt == s1.now
            && t.now == s2.now && t.pending == s2.pending
  {
    var before :| s0 == After(parse, BOOT, before);
    ClockForward(parse, BOOT, before);
    var later, between0 :| Stamp(r) !in between0
      && s1 == After(parse, Do(parse, s0, Execute(r, [SentJson(x)] + later)), between0);
    AnswerIsCaptured(parse, r, x, s0, later, between0);
    var between :| s2 == After(parse, Do(parse, s1, Stamp(r)), between);
    AnswerIsStamped(parse, r, x, s1, between);
  }

  /** For seven days from the moment it is stamped, whatever happens, the table holds a recorded answer. */
  lemma AnswerKeptSevenDays(parse: string -> Option<Json>, r: nat, tx: string, x: Response, s0: State, s1: State,
                            s2: State, s3: State)
    requires Answers(parse, r, tx, x, s0, s1, s2, s3)
    requires s3.now <= s1.now + 604800000
    ensures tx in s3.table && s3.table[tx].response == x
  {
    AnswerIsInserted(parse, r, tx, x, s0, s1, s2, s3);
    var more :| s3 == After(parse, Do(parse, s2, Insert(r, true)), more);
    RowStays(parse, Do(parse, s2, Insert(r, true)), more, tx);
  }

  /**
   * And a lookup of that transaction in those days that succeeds ends its request without running the handler. An
   * answer that is not a string is given again; of one that is, what it reads as, with the recorded status.
   */
  lemma AnswerReplayedSevenDays(parse: string -> Option<Json>, r: nat, tx: string, x: Response, s0: State, s1: State,
                                s2: State, s3: State, q: nat)
    requires Answers(parse, r, tx, x, s0, s1, s2, s3)
    requires s3.now <= s1.now + 604800000
    requires InPhase(s3, q, Arrived) && s3.requests[q].tx == tx
    ensures var u := Do(parse, s3, Lookup(q, false));
            && InPhase(u, q, Done) && u.executed == s3.executed && u.table == s3.table
            && u.replies == s3.replies +
                 if !x.body.JString? then [Reply(q, tx, x, true)]
                 else if parse(x.body.value).Some?
                 then [Reply(q, tx, Response(x.status, parse(x.body.value).value), true)]
                 else []
  {
    AnswerKeptSevenDays(parse, r, tx, x, s0, s1, s2, s3);
  }

  /** When the clock alone moves on, a collection begun any later than that takes the answer away. */
  lemma AnswerForgottenAfterwards(parse: string -> Option<Json>, r: nat, tx: string, x: Response, s0: State, s1: State,
                                  s2: State, s3: State, elapsed: nat)
    requires Answers(parse, r, tx, x, s0, s1, s2, s3)
    requires s3 == Do(parse, Do(parse, s2, Insert(r, true)), Tick(elapsed))
    requires s2.now + elapsed > s1.now + 604800000
    ensures tx !in Do(parse, Do(parse, s3, CollectStart), CollectDelete(|s3.pending|, true)).table
  {
    AnswerIsInserted(parse, r, tx, x, s0, s1, s2, s3);
  }

  /** A handler that left by an error first is not recorded, whatever it does later. */
  lemma ErroredNeverRecorded(parse: string -> Option<Json>, s: State, r: nat, events: seq<HandlerEvent>,
                             actions: seq<Action>)
    requires InPhase(s, r, Missed) && (|events| == 0 || events[0].LeftByError?)
    ensures var t := Do(parse, s, Execute(r, events));
            && t.table == s.table && t.replies == s.replies && t.executed == s.executed + [s.requests[r].tx]
            && InPhase(After(parse, t, actions), r, Done)
  {
    var t := Do(parse, s, Execute(r, events));
    DoneStaysDone(parse, t, actions, r);
  }

  lemma {:induction false} DoneStaysDone(parse: string -> Option<Json>, s: State, actions: seq<Action>, r: nat)
    requires InPhase(s, r, Done)
    ensures |s.requests| <= |After(parse, s, actions).requests|
    ensures InPhase(After(parse, s, actions), r, Done)
    decreases |actions|
  {
    if |actions| > 0 {
      DoneStaysDone(parse, Do(parse, s, actions[0]), actions[1..], r);
    }
  }

  // ---- No second execution inside the window. ----

  ghost predicate NoLookupFails(actions: seq<Action>) {
    forall i :: 0 <= i < |actions| && actions[i].Lookup? ==> !actions[i].fails
  }

  /** No request of the transaction has missed and is about to run its handler. */
  ghost predicate NonePastLookup(s: State, tx: string) {
    forall r :: 0 <= r < |s.requests| && s.requests[r].tx == tx ==> s.requests[r].phase != Missed
  }

  function Times(executed: seq<string>, tx: string): nat {
    if |executed| == 0 then 0
    else Times(executed[..|executed| - 1], tx) + if executed[|executed| - 1] == tx then 1 else 0
  }

  /**
   * Once a row is recorded and no earlier request of the transaction is still to run, its handler does not run again
   * inside the window, over every interleaving in which lookups succeed.
   */
  lemma {:induction false} NoRerunInWindow(parse: string -> Option<Json>, s: State, actions: seq<Action>, tx: string)
    requires CutoffsOld(s) && tx in s.table && NonePastLookup(s, tx) && NoLookupFails(actions)
    requires After(parse, s, actions).now <= s.table[tx].createdAt + RETENTION
    ensures Times(After(parse, s, actions).executed, tx) == Times(s.executed, tx)
    decreases |actions|
  {
    if |actions| > 0 {
      var s1 := Do(parse, s, actions[0]);
      DoKeepsCutoffs(parse, s, actions[0]);
      ClockForward(parse, s1, actions[1..]);
      RowStays(parse, s, [actions[0]], tx) by {
        assert After(parse, s, [actions[0]]) == After(parse, s1, []) == s1;
      }
      assert After(parse, s, [actions[0]]) == After(parse, s1, []) == s1;
      assert NonePastLookup(s1, tx);
      if |s1.executed| > |s.executed| {
        assert s1.executed[..|s1.executed| - 1] == s.executed;
      }
      assert Times(s1.executed, tx) == Times(s.executed, tx);
      NoRerunInWindow(parse, s1, actions[1..], tx);
    }
  }

  // ---- Running a handler again. ----

  /** The application state after a history of handler executions; `effect` is one execution of a transaction. */
  function Fold<S>(effect: (string, S) -> S, s: S, executed: seq<string>): S {
    if |executed| == 0 then s
    else effect(executed[|executed| - 1], Fold(effect, s, executed[..|executed| - 1]))
  }

  /** The history with every repeated execution left out. */
  function Once(executed: seq<string>): seq<string> {
    if |executed| == 0 then []
    else
      var last := executed[|executed| - 1];
      var before := executed[..|executed| - 1];
      if last in before then Once(before) else Once(before) + [last]
  }

  /** Running a transaction again changes nothing, whatever ran in between. */
  ghost predicate RepeatSafe<S(!new)>(effect: (string, S) -> S) {
    forall s: S, tx, between: seq<string> :: Fold(effect, s, [tx] + between + [tx]) == Fold(effect, s, [tx] + between)
  }

  ghost predicate LikeOneExecution<S(!new)>(effect: (string, S) -> S) {
    forall s: S, executed: seq<string> :: Fold(effect, s, executed) == Fold(effect, s, Once(executed))
  }

  lemma {:induction false} FoldAppend<S>(effect: (string, S) -> S, s: S, a: seq<string>, b: seq<string>)
    ensures Fold(effect, s, a + b) == Fold(effect, Fold(effect, s, a), b)
    decreases |b|
  {
    if |b| == 0 {
      assert a + b == a;
    } else {
      FoldAppend(effect, s, a, b[..|b| - 1]);
      assert (a + b)[..|a + b| - 1] == a + b[..|b| - 1];
    }
  }

  lemma FoldRepeat<S(!new)>(effect: (string, S) -> S, s: S, before: seq<string>, tx: string)
    requires RepeatSafe(effect) && tx in before
    ensures Fold(effect, s, before + [tx]) == Fold(effect, s, before)
  {
    var i :| 0 <= i < |before| && before[i] == tx;
    var a, b := before[..i], before[i + 1..];
    assert before == a + ([tx] + b) && before + [tx] == a + ([tx] + b + [tx]);
    FoldAppend(effect, s, a, [tx] + b);
    FoldAppend(effect, s, a, [tx] + b + [tx]);
  }

  lemma {:induction false} FoldOnce<S(!new)>(effect: (string, S) -> S, s: S, executed: seq<string>)
    requires RepeatSafe(effect)
    ensures Fold(effect, s, executed) == Fold(effect, s, Once(executed))
    decreases |executed|
  {
    if |executed| > 0 {
      var tx, before := executed[|executed| - 1], executed[..|executed| - 1];
      FoldOnce(effect, s, before);
      if tx in before {
        FoldRepeat(effect, s, before, tx);
        assert executed == before + [tx];
      } else {
        assert Once(executed)[..|Once(executed)| - 1] == Once(before);
      }
    }
  }

  lemma {:induction false} OnceDropsRepeat(a: seq<string>, tx: string)
    requires tx in a
    ensures Once(a + [tx]) == Once(a)
  {
    assert (a + [tx])[..|a|] == a;
  }

  lemma RepeatSafeIff<S(!new)>(effect: (string, S) -> S)
    ensures LikeOneExecution(effect) <==> RepeatSafe(effect)
  {
    if RepeatSafe(effect) {
      forall s: S, executed: seq<string>
        ensures Fold(effect, s, executed) == Fold(effect, s, Once(executed))
      {
        FoldOnce(effect, s, executed);
      }
    }
    if LikeOneExecution(effect) {
      forall s: S, tx, between: seq<string>
        ensures Fold(effect, s, [tx] + between + [tx]) == Fold(effect, s, [tx] + between)
      {
        OnceDropsRepeat([tx] + between, tx);
        assert Fold(effect, s, [tx] + between + [tx]) == Fold(effect, s, Once([tx] + between + [tx]));
        assert Fold(effect, s, [tx] + between) == Fold(effect, s, Once([tx] + between));
      }
    }
  }

  // ---- Every history is one the protocol lets happen. ----

  const DONE_RESPONSE := Response(200, JObject(map[]))

  /**
   * Request number `r`: it arrives, its lookup succeeds and finds nothing, its handler answers; its insert is still to
   * come.
   */
  function OneMiss(r: nat, tx: string): seq<Action> {
    [Arrive(tx, ""), Lookup(r, false), Execute(r, [SentJson(DONE_RESPONSE)])]
  }

  function Misses(history: seq<string>): seq<Action> {
    if |history| == 0 then [] else Misses(history[..|history| - 1]) + OneMiss(|history| - 1, history[|history| - 1])
  }

  lemma OneMissExecutes(parse: string -> Option<Json>, s: State, tx: string)
    requires s.table == map[]
    ensures var t := After(parse, s, OneMiss(|s.requests|, tx));
            t.table == map[] && |t.requests| == |s.requests| + 1 && t.executed == s.executed + [tx]
  {
    var r := |s.requests|;
    var a, b, c := Arrive(tx, ""), Lookup(r, false), Execute(r, [SentJson(DONE_RESPONSE)]);
    var s1 := Do(parse, s, a);
    var s2 := Do(parse, s1, b);
    var s3 := Do(parse, s2, c);
    assert OneMiss(r, tx)[1..] == [b, c] && [b, c][1..] == [c] && [c][1..] == [];
    assert After(parse, s, OneMiss(r, tx)) == After(parse, s1, [b, c]) == After(parse, s2, [c]) == After(parse, s3, []);
  }

  /** Any history of executions at all comes about from boot, without a single failed lookup, while inserts are slow. */
  lemma {:induction false} EveryHistoryHappens(parse: string -> Option<Json>, history: seq<string>)
    ensures var t := After(parse, BOOT, Misses(history));
            t.executed == history && t.table == map[] && |t.requests| == |history|
    ensures NoLookupFails(Misses(history))
  {
    if |history| > 0 {
      var before, tx := history[..|history| - 1], history[|history| - 1];
      EveryHistoryHappens(parse, before);
      AfterAppends(parse, BOOT, Misses(before), OneMiss(|before|, tx));
      OneMissExecutes(parse, After(parse, BOOT, Misses(before)), tx);
      assert history == before + [tx];
    }
  }

  /** Over every run from boot, the handlers' effects end as one execution of each transaction would. */
  ghost predicate HarmlessOverRuns<S(!new)>(parse: string -> Option<Json>, effect: (string, S) -> S) {
    forall s: S, actions: seq<Action> ::
      var executed := After(parse, BOOT, actions).executed;
      Fold(effect, s, executed) == Fold(effect, s, Once(executed))
  }

  /** The same over the runs in which every lookup succeeds. */
  ghost predicate HarmlessWhenLookupsWork<S(!new)>(parse: string -> Option<Json>, effect: (string, S) -> S) {
    forall s: S, actions: seq<Action> :: NoLookupFails(actions) ==>
      var executed := After(parse, BOOT, actions).executed;
      Fold(effect, s, executed) == Fold(effect, s, Once(executed))
  }

  /**
   * Duplicated deliveries leave the state that one execution per transaction leaves, over every run of the protocol and
   * from every state, exactly when a late repeat of a handler changes nothing; lookups that never fail do not help.
   */
  lemma DuplicatesHarmlessIff<S(!new)>(parse: string -> Option<Json>, effect: (string, S) -> S)
    ensures HarmlessOverRuns(parse, effect) <==> RepeatSafe(effect)
    ensures HarmlessWhenLookupsWork(parse, effect) <==> RepeatSafe(effect)
  {
    RepeatSafeIff(effect);
    if HarmlessWhenLookupsWork(parse, effect) {
      forall s: S, history: seq<string> ensures Fold(effect, s, history) == Fold(effect, s, Once(history)) {
        EveryHistoryHappens(parse, history);
        assert NoLookupFails(Misses(history)) && After(parse, BOOT, Misses(history)).executed == history;
      }
    }
    if RepeatSafe(effect) {
      forall s: S, actions: seq<Action>
        ensures var executed := After(parse, BOOT, actions).executed;
                Fold(effect, s, executed) == Fold(effect, s, Once(executed))
      {
        FoldOnce(effect, s, After(parse, BOOT, actions).executed);
      }
    }
  }

  /** Two handlers that each set the whole state. */
  function Overwrite(tx: string, s: int): int {
    if tx == "a" then 1 else 2
  }

  /**
   * Idempotent alone is not enough: in a run from boot in which every lookup works, a repeat of one transaction after
   * another undoes the other.
   */
  lemma IdempotentIsNotEnough(parse: string -> Option<Json>)
    ensures forall tx, s :: Overwrite(tx, Overwrite(tx, s)) == Overwrite(tx, s)
    ensures var actions := Misses(["a", "b", "a"]);
            var executed := After(parse, BOOT, actions).executed;
            && NoLookupFails(actions) && executed == ["a", "b", "a"]
            && Fold(Overwrite, 0, executed) != Fold(Overwrite, 0, Once(executed))
    ensures !HarmlessWhenLookupsWork(parse, Overwrite)
  {
    EveryHistoryHappens(parse, ["a", "b", "a"]);
    RepeatUndoes();
    var actions := Misses(["a", "b", "a"]);
    assert NoLookupFails(actions) && After(parse, BOOT, actions).executed == ["a", "b", "a"];
  }

  lemma RepeatUndoes()
    ensures Fold(Overwrite, 0, ["a", "b", "a"]) != Fold(Overwrite, 0, Once(["a", "b", "a"]))
  {
    var effect := Overwrite;
    var h := ["a", "b", "a"];
    assert h[..2] == ["a", "b"] && h[..2][..1] == ["a"] && h[..2][..1][..0] == [];
    var late: int := Fold(effect, 0, h[..2]);
    assert effect("a", late) == 1;
    assert h[2] == "a" && Fold(effect, 0, h) == effect("a", late);
    assert Once(h) == Once(h[..2]);
    assert Once(h[..2]) == Once(["a"]) + ["b"];
    assert Once(["a"]) == Once(["a"][..0]) + ["a"] == ["a"];
    var early: int := Fold(effect, 0, h[..2][..1]);
    assert "b" != "a" && effect("b", early) == 2;
    assert h[..2][1] == "b" && late == effect("b", early);
  }

  /** Idempotent handlers of different transactions that commute are safe to repeat. */
  lemma {:induction false} IdempotentAndCommuting<S(!new)>(effect: (string, S) -> S, s: S, tx: string,
                                                           between: seq<string>)
    requires forall t, x :: effect(t, effect(t, x)) == effect(t, x)
    requires forall t, u, x :: effect(t, effect(u, x)) == effect(u, effect(t, x))
    ensures Fold(effect, s, [tx] + between + [tx]) == Fold(effect, s, [tx] + between)
    decreases |between|
  {
    var h := [tx] + between;
    assert (h + [tx])[..|h|] == h;
    if |between| == 0 {
      assert h == [tx] && h[..0] == [];
    } else {
      var b, u := between[..|between| - 1], between[|between| - 1];
      IdempotentAndCommuting(effect, s, tx, b);
      assert h[..|h| - 1] == [tx] + b;
      assert ([tx] + b + [tx])[..|b| + 1] == [tx] + b;
    }
  }

  /** So with such handlers duplicated deliveries are harmless over every run. */
  lemma CommutingIsHarmless<S(!new)>(parse: string -> Option<Json>, effect: (string, S) -> S)
    requires forall t, x :: effect(t, effect(t, x)) == effect(t, x)
    requires forall t, u, x :: effect(t, effect(u, x)) == effect(u, effect(t, x))
    ensures HarmlessOverRuns(parse, effect)
  {
    forall s: S, tx, between: seq<string>
      ensures Fold(effect, s, [tx] + between + [tx]) == Fold(effect, s, [tx] + between)
    {
      IdempotentAndCommuting(effect, s, tx, between);
    }
    DuplicatesHarmlessIff(parse, effect);
  }

  // ---- The middleware as it runs for one request. ----

  datatype Outcome = BadRequest | Replied(response: Response) | Errored

  /** `res.json`, `next` and rejection all test and set `resolved`; the first to come decides. */
  method CaptureResponse(events: seq<HandlerEvent>) returns (captured: Option<Response>)
    ensures captured == FirstSettled(events)
  {
    var resolved := false;
    captured := None;
    for i := 0 to |events|
      invariant resolved <==> i > 0
      invariant i > 0 ==> captured == FirstSettled(events)
      invariant i == 0 ==> captured == None
    {
      if !resolved {
        resolved := true;
        if events[i].SentJson? {
          captured := Some(events[i].response);
        }
      }
    }
  }

  class DedupStore {
    var table: map<string, Row>

    constructor ()
      ensures table == map[]
    {
      table := map[];
    }

    method Find(tx: string, fails: bool) returns (row: Option<Row>)
      ensures row == if !fails && tx in table then Some(table[tx]) else None
    {
      row := if !fails && tx in table then Some(table[tx]) else None;
    }

    /** Best effort: a conflict or a failed statement leaves the table as it is. */
    method Record(tx: string, row: Row, applied: bool)
      modifies this
      ensures table == if applied && tx !in old(table) then old(table)[tx := row] else old(table)
    {
      if applied && tx !in table {
        table := table[tx := row];
      }
    }

    method RunGc(now: int, applied: bool)
      modifies this
      ensures table == if applied then Surviving(old(table), now - RETENTION) else old(table)
    {
      if applied {
        table := Surviving(table, now - RETENTION);
      }
    }

    /**
     * One request from start to finish with nothing in between. A missing or non-string `tx_id` is refused and
     * touches nothing; otherwise the table ends as the five steps of the protocol leave it.
     */
    method HandleDedup(parse: string -> Option<Json>, txId: Option<Json>, endpoint: string, events: seq<HandlerEvent>,
                       now: int, lookupFails: bool, applied: bool)
      returns (outcome: Outcome)
      modifies this
      ensures outcome == BadRequest <==> !(txId.Some? && txId.value.JString? && |txId.value.value| > 0)
      ensures outcome == BadRequest ==> table == old(table)
      ensures outcome != BadRequest ==>
                var s := State(now, old(table), [], [], [], []);
                var t := After(parse, s, [Arrive(txId.value.value, endpoint), Lookup(0, lookupFails),
                                          Execute(0, events), Stamp(0), Insert(0, applied)]);
                && table == t.table && InPhase(t, 0, Done)
                && outcome == if |t.replies| > 0 then Replied(t.replies[0].response) else Errored
    {
      if !(txId.Some? && txId.value.JString? && |txId.value.value| > 0) {
        return BadRequest;
      }
      var tx := txId.value.value;
      ghost var s0 := State(now, table, [], [], [], []);
      ghost var s1 := Do(parse, s0, Arrive(tx, endpoint));
      ghost var s2 := Do(parse, s1, Lookup(0, lookupFails));
      ghost var s3 := Do(parse, s2, Execute(0, events));
      ghost var s4 := Do(parse, s3, Stamp(0));
      ghost var s5 := Do(parse, s4, Insert(0, applied));
      FiveSteps(parse, s0, Arrive(tx, endpoint), Lookup(0, lookupFails), Execute(0, events), Stamp(0),
                Insert(0, applied));
      var cached := Find(tx, lookupFails);
      if cached.Some? {
        var replay := Replay(parse, cached.value);
        return if replay.Some? then Replied(replay.value) else Errored;
      }
      var captured := CaptureResponse(events);
      if captured.None? {
        return Errored;
      }
      Record(tx, Row(endpoint, captured.value, now), applied);
      return Replied(captured.value);
    }
  }

  lemma FiveSteps(parse: string -> Option<Json>, s: State, a: Action, b: Action, c: Action, d: Action, e: Action)
    ensures After(parse, s, [a, b, c, d, e]) == Do(parse, Do(parse, Do(parse, Do(parse, Do(parse, s, a), b), c), d), e)
  {
    var (s1, s2, s3) := (Do(parse, s, a), Do(parse, Do(parse, s, a), b), Do(parse, Do(parse, Do(parse, s, a), b), c));
    assert [a, b, c, d, e][1..] == [b, c, d, e] && [b, c, d, e][1..] == [c, d, e];
    assert After(parse, s, [a, b, c, d, e]) == After(parse, s1, [b, c, d, e]) == After(parse, s2, [c, d, e]);
    assert [c, d, e][1..] == [d, e] && [d, e][1..] == [e] && [e][1..] == [];
    assert After(parse, s2, [c, d, e]) == After(parse, s3, [d, e]);
    assert After(parse, s3, [d, e]) == After(parse, Do(parse, s3, d), [e]);
    assert After(parse, Do(parse, s3, d), [e]) == After(parse, Do(parse, Do(parse, s3, d), e), []);
  }
}
