/** Durable acceptance of channel messages and idempotent publication of their replies: the table of
    receipts, and the life of one receipt under submissions, a delivery worker, restarts that may
    interrupt either between any two steps, and manual retries. */
module ChannelReceipts {

  import opened Wrappers
  import TurnLog

  datatype Status = Reserved | Running | Pending | Delivered | Review

  /** Message identities, fingerprints of the requested work and ids stand for their digests. */
  type Identity = nat
  type Fingerprint = nat
  type TurnId = string

  datatype Row = Row(fingerprint: Fingerprint, turn: TurnId, status: Status, content: string, attempts: nat)

  // ---------------------------------------------------------------------------
  // The table
  // ---------------------------------------------------------------------------

  ghost predicate DistinctTurns(table: map<Identity, Row>)
  {
    forall i, j :: i in table && j in table && table[i].turn == table[j].turn ==> i == j
  }

  predicate Retryable(row: Row, turn: TurnId)
  {
    row.turn == turn && row.status == Review && row.content != ""
  }

  function Requeued(row: Row): Row { row.(status := Pending, attempts := 0) }

  function RetryAll(table: map<Identity, Row>, turn: TurnId): map<Identity, Row>
  {
    map i | i in table :: if Retryable(table[i], turn) then Requeued(table[i]) else table[i]
  }

  class ReceiptTable {
    var table: map<Identity, Row>

    ghost predicate Valid()
      reads this
    {
      DistinctTurns(table)
    }

    constructor ()
      ensures Valid() && table == map[]
    {
      table := map[];
    }

    /** The first message of an identity reserves the turn id it brings; a later one gets the id that
        was reserved, unless it asks for different work. */
    method Reserve(identity: Identity, fingerprint: Fingerprint, turn: TurnId)
      returns (row: Option<Row>, created: bool)
      requires Valid()
      requires forall i :: i in table ==> table[i].turn != turn
      modifies this
      ensures Valid()
      ensures created <==> identity !in old(table)
      ensures created ==> table == old(table)[identity := Row(fingerprint, turn, Reserved, "", 0)]
      ensures !created ==> table == old(table)
      ensures row == if table[identity].fingerprint == fingerprint then Some(table[identity]) else None
    {
      created := identity !in table;
      if created {
        table := table[identity := Row(fingerprint, turn, Reserved, "", 0)];
      }
      row := if table[identity].fingerprint != fingerprint then None else Some(table[identity]);
    }

    method UpdateStatus(identity: Identity, status: Status)
      requires Valid()
      modifies this
      ensures Valid()
      ensures table == if identity in old(table)
                       then old(table)[identity := old(table)[identity].(status := status)] else old(table)
    {
      if identity in table {
        table := table[identity := table[identity].(status := status)];
      }
    }

    /** At most the one receipt of the turn is requeued, and only one that has a reply to deliver. */
    method RetryDelivery(turn: TurnId) returns (requeued: bool)
      requires Valid()
      modifies this
      ensures Valid()
      ensures requeued <==> exists i :: i in old(table) && Retryable(old(table)[i], turn)
      ensures forall i :: i in old(table) && Retryable(old(table)[i], turn) ==>
                table == old(table)[i := Row(old(table)[i].fingerprint, turn, Pending, old(table)[i].content, 0)]
      ensures !requeued ==> table == old(table)
    {
      requeued := exists i :: i in table && Retryable(table[i], turn);
      table := RetryAll(table, turn);
    }
  }

  // ---------------------------------------------------------------------------
  // The life of one receipt
  // ---------------------------------------------------------------------------

  /** An event of the turn's log. The log accepts at most one terminal event; the one that startup
      recovery writes for a turn cut short says so in its payload. */
  datatype Event = Progress | Terminal(payload: TurnLog.Doc)

  predicate Interrupted(e: Event) { e.Terminal? && TurnLog.WasInterrupted(e.payload) }

  /** The delivery worker, between two of its steps on this receipt. It works on the row it read when
      its pass began. */
  datatype Worker =
    | Resting
    | Examining(row: Row, startup: bool)
    | Due(row: Row)
    | Sending(attempt: nat, content: string)
    | Recording(attempt: nat, ok: bool)

  /** `scheduled` is the running host's memory of the identity, `inFlight` counts submissions that
      have not yet written "running", `sends` counts publications since the last manual retry. */
  datatype State = State(
    row: Option<Row>,
    log: seq<Event>,
    scheduled: bool,
    inFlight: nat,
    worker: Worker,
    outbox: Option<string>,
    sends: nat)

  datatype Action =
    | Submit(turn: TurnId, fingerprint: Fingerprint)
    | MarkRunning | SubmitRaises
    | TurnAppends(event: Event)
    | RecoveryAppends(payload: TurnLog.Doc)
    | BeginPass(startup: bool)
    | Examine(readable: bool)
    | NotYetDue
    | GiveUp
    | Persist
    | Publish(written: bool, ok: bool)
    | Record
    | Retry
    | Crash

  ghost predicate Initial(s: State)
  {
    s == State(None, [], false, 0, Resting, None, 0)
  }

  predicate HasTerminal(log: seq<Event>) { exists i :: 0 <= i < |log| && log[i].Terminal? }

  /** The last terminal event of the log. */
  function LastTerminal(log: seq<Event>): (e: Event)
    requires HasTerminal(log)
    ensures e.Terminal? && e in log
  {
    if log[|log| - 1].Terminal? then log[|log| - 1] else LastTerminal(log[..|log| - 1])
  }

  function Get(payload: TurnLog.Doc, key: string, otherwise: string): string
  {
    if key in payload then payload[key] else otherwise
  }

  /** The reply that is published for a turn that ended; never empty. */
  function Reply(turn: TurnId, e: Event): string
    requires e.Terminal?
  {
    if Get(e.payload, "final_answer", "") != "" then e.payload["final_answer"]
    else "Turn " + turn + " ended: " + Get(e.payload, "state", "failed") + "."
  }

  predicate Refused(s: State)
  {
    s.row.Some? && (s.log != [] || s.row.value.status != Reserved)
  }

  function WithStatus(s: State, status: Status): State
    requires s.row.Some?
  {
    s.(row := Some(s.row.value.(status := status)))
  }

  predicate Enabled(s: State, a: Action, max: nat)
  {
    match a
    case Submit(_, _) => true
    case MarkRunning => s.inFlight > 0 && s.row.Some?
    case SubmitRaises => s.inFlight > 0
    case TurnAppends(_) => s.scheduled && !HasTerminal(s.log)
    case RecoveryAppends(payload) => !s.scheduled && s.log != [] && !HasTerminal(s.log) && TurnLog.WasInterrupted(payload)
    case BeginPass(_) => s.worker == Resting && s.row.Some? && s.row.value.status !in {Delivered, Review}
    case Examine(_) => s.worker.Examining? && s.row.Some?
    case NotYetDue => s.worker.Due?
    case GiveUp => s.worker.Due? && s.worker.row.attempts >= max && s.row.Some?
    case Persist => s.worker.Due? && s.worker.row.attempts < max && s.row.Some?
    case Publish(_, _) => s.worker.Sending?
    case Record => s.worker.Recording? && s.row.Some?
    case Retry => s.row.Some? && Retryable(s.row.value, s.row.value.turn)
    case Crash => true
  }

  /** A submission passes to the host, unless the receipt or the log shows an earlier one did. */
  function Accept(s: State, a: Action): State
    requires a.Submit?
  {
    if s.row.None? then
      s.(row := Some(Row(a.fingerprint, a.turn, Reserved, "", 0)), scheduled := true, inFlight := s.inFlight + 1)
    else if s.row.value.fingerprint != a.fingerprint || Refused(s) then s
    else s.(scheduled := true, inFlight := s.inFlight + 1)
  }

  /** What the worker does with a row before it considers sending. */
  function Examined(s: State, readable: bool): State
    requires s.worker.Examining? && s.row.Some?
  {
    var row := s.worker.row;
    if row.status in {Reserved, Running} then
      if !readable then WithStatus(s, Review).(worker := Resting)
      else if HasTerminal(s.log) then
        var e := LastTerminal(s.log);
        if Interrupted(e) then WithStatus(s, Review).(worker := Resting)
        else
          var content := Reply(row.turn, e);
          s.(row := Some(s.row.value.(status := Pending, content := content)),
             worker := Due(row.(status := Pending, content := content)))
      else if s.worker.startup && (s.log != [] || row.status == Running) then WithStatus(s, Review).(worker := Resting)
      else s.(worker := Resting)
    else if row.status == Pending then s.(worker := Due(row))
    else s.(worker := Resting)
  }

  function Apply(s: State, a: Action, max: nat): State
    requires Enabled(s, a, max)
  {
    match a
    case Submit(_, _) => Accept(s, a)
    case MarkRunning => WithStatus(s, Running).(inFlight := s.inFlight - 1)
    case SubmitRaises => s.(inFlight := s.inFlight - 1)
    case TurnAppends(e) => s.(log := s.log + [e])
    case RecoveryAppends(payload) => s.(log := s.log + [Terminal(payload)])
    case BeginPass(startup) => s.(worker := Examining(s.row.value, startup))
    case Examine(readable) => Examined(s, readable)
    case NotYetDue => s.(worker := Resting)
    case GiveUp => WithStatus(s, Review).(worker := Resting)
    case Persist =>
      var attempt := s.worker.row.attempts + 1;
      s.(row := Some(s.row.value.(attempts := attempt)), worker := Sending(attempt, s.worker.row.content))
    case Publish(written, ok) =>
      s.(outbox := if written || ok then Some(s.worker.content) else s.outbox,
         sends := s.sends + 1, worker := Recording(s.worker.attempt, ok))
    case Record =>
      WithStatus(s, if s.worker.ok then Delivered else if s.worker.attempt >= max then Review else Pending)
        .(worker := Resting)
    case Retry => s.(row := Some(Requeued(s.row.value)), sends := 0)
    case Crash => s.(scheduled := false, inFlight := 0, worker := Resting)
  }

  // ---------------------------------------------------------------------------
  // The inductive invariant
  // ---------------------------------------------------------------------------

  ghost predicate UniqueTerminal(log: seq<Event>)
  {
    forall i :: 0 <= i < |log| && log[i].Terminal? ==> i == |log| - 1
  }

  /** The text is the reply of the log's one terminal event, which no restart wrote. */
  predicate IsReply(s: State, content: string)
  {
    s.row.Some? && s.log != [] && s.log[|s.log| - 1].Terminal? && !Interrupted(s.log[|s.log| - 1])
    && content == Reply(s.row.value.turn, s.log[|s.log| - 1])
  }

  predicate SameAccount(s: State, row: Row)
  {
    s.row.Some? && row.turn == s.row.value.turn && row.attempts == s.row.value.attempts
    && s.row.value.status !in {Delivered, Review}
    && row.content == s.row.value.content && (row.content == "" || IsReply(s, row.content))
  }

  ghost predicate WorkerInv(s: State, max: nat)
  {
    match s.worker
    case Resting => true
    case Examining(row, _) => SameAccount(s, row) && (row.status == Pending ==> IsReply(s, row.content))
    case Due(row) => SameAccount(s, row) && IsReply(s, row.content)
    case Sending(attempt, content) =>
      && IsReply(s, content) && s.row.value.content == content
      && s.row.value.status !in {Delivered, Review} && s.row.value.attempts == attempt && s.sends < attempt <= max
    case Recording(attempt, _) =>
      && s.row.Some? && s.row.value.content != ""
      && s.row.value.status !in {Delivered, Review} && s.row.value.attempts == attempt && s.sends <= attempt <= max
  }

  ghost predicate Inv(s: State, max: nat)
  {
    && UniqueTerminal(s.log)
    && WorkerInv(s, max)
    && (s.outbox.Some? ==> IsReply(s, s.outbox.value))
    && (match s.row
        case None => s.log == [] && s.inFlight == 0 && !s.scheduled && s.sends == 0
        case Some(row) =>
          && s.sends <= row.attempts <= max
          && (row.content == "" || IsReply(s, row.content))
          && (row.status in {Pending, Delivered} ==> row.content != ""))
  }

  lemma ReplyIsNotEmpty(turn: TurnId, e: Event)
    requires e.Terminal?
    ensures Reply(turn, e) != ""
  {
    assert |"Turn "| == 5;
  }

  lemma LastIsTerminal(log: seq<Event>)
    requires UniqueTerminal(log) && HasTerminal(log)
    ensures log != [] && log[|log| - 1].Terminal? && LastTerminal(log) == log[|log| - 1]
  {
  }

  /** A log without a terminal event is the basis of no reply. */
  lemma LogStepKeepsInv(s: State, a: Action, max: nat)
    requires Inv(s, max) && Enabled(s, a, max) && (a.TurnAppends? || a.RecoveryAppends?)
    ensures Inv(Apply(s, a, max), max)
  {
    assert forall i :: 0 <= i < |s.log| ==> !s.log[i].Terminal?;
  }

  lemma ExamineKeepsInv(s: State, a: Action, max: nat)
    requires Inv(s, max) && Enabled(s, a, max) && a.Examine?
    ensures Inv(Apply(s, a, max), max)
  {
    if HasTerminal(s.log) {
      LastIsTerminal(s.log);
      ReplyIsNotEmpty(s.row.value.turn, LastTerminal(s.log));
    }
  }

  lemma DeliveryStepKeepsInv(s: State, a: Action, max: nat)
    requires Inv(s, max) && Enabled(s, a, max) && (a.GiveUp? || a.Persist? || a.Publish? || a.Record?)
    ensures Inv(Apply(s, a, max), max)
  {
    if s.row.Some? && s.log != [] && s.log[|s.log| - 1].Terminal? {
      ReplyIsNotEmpty(s.row.value.turn, s.log[|s.log| - 1]);
    }
  }

  lemma OtherStepKeepsInv(s: State, a: Action, max: nat)
    requires Inv(s, max) && Enabled(s, a, max)
    requires !(a.TurnAppends? || a.RecoveryAppends? || a.Examine? || a.GiveUp? || a.Persist? || a.Publish? || a.Record?)
    ensures Inv(Apply(s, a, max), max)
  {
  }

  lemma InvIsInductive(s: State, a: Action, max: nat)
    requires Inv(s, max) && Enabled(s, a, max)
    ensures Inv(Apply(s, a, max), max)
  {
    if a.TurnAppends? || a.RecoveryAppends? {
      LogStepKeepsInv(s, a, max);
    } else if a.Examine? {
      ExamineKeepsInv(s, a, max);
    } else if a.GiveUp? || a.Persist? || a.Publish? || a.Record? {
      DeliveryStepKeepsInv(s, a, max);
    } else {
      OtherStepKeepsInv(s, a, max);
    }
  }

  // ---------------------------------------------------------------------------
  // What the worker's steps come to
  // ---------------------------------------------------------------------------

  /** The last terminal event. */
  predicate IsLastEnd(log: seq<Event>, i: nat)
  {
    i < |log| && log[i].Terminal? && forall j :: i < j < |log| ==> log[j].Progress?
  }

  /** The final answer, or a line naming the turn and its state where there is none. */
  predicate Answers(turn: TurnId, payload: TurnLog.Doc, text: string)
  {
    && ("final_answer" in payload && payload["final_answer"] != "" ==> text == payload["final_answer"])
    && (("final_answer" in payload ==> payload["final_answer"] == "") ==>
          text == "Turn " + turn + (if "state" in payload then " ended: " + payload["state"] else " ended: failed") + ".")
  }

  lemma ReplyAnswers(turn: TurnId, e: Event)
    requires e.Terminal?
    ensures Answers(turn, e.payload, Reply(turn, e))
  {
    if "state" in e.payload {
      assert ("Turn " + turn + " ended: ") + e.payload["state"] == "Turn " + turn + (" ended: " + e.payload["state"]);
    } else {
      assert ("Turn " + turn + " ended: ") + "failed" == "Turn " + turn + " ended: failed";
    }
  }

  lemma {:induction false} LastTerminalIsLast(log: seq<Event>, i: nat)
    requires IsLastEnd(log, i)
    ensures HasTerminal(log) && LastTerminal(log) == log[i]
    decreases |log|
  {
    if i < |log| - 1 { LastTerminalIsLast(log[..|log| - 1], i); }
  }

  lemma {:induction false} SomeLastEnd(log: seq<Event>) returns (i: nat)
    requires HasTerminal(log)
    ensures IsLastEnd(log, i)
    decreases |log|
  {
    if log[|log| - 1].Terminal? { i := |log| - 1; } else { i := SomeLastEnd(log[..|log| - 1]); }
  }

  predicate Undecided(row: Row) { row.status == Reserved || row.status == Running }

  /** The log says that a restart cut the turn short. */
  ghost predicate WasCut(log: seq<Event>)
  {
    exists i: nat :: IsLastEnd(log, i) && TurnLog.WasInterrupted(log[i].payload)
  }

  /** A startup finds traces of a turn without an end. */
  predicate IsLost(s: State, row: Row, startup: bool)
  {
    !HasTerminal(s.log) && startup && (s.log != [] || row.status == Running)
  }

  /** A receipt without a decision goes under review when its log cannot be read, when a restart cut
      its turn short, and at a startup that finds traces of a turn without an end. Any other end of
      the turn makes its answer due, and without an end the receipt waits. */
  lemma ExamineMeans(s: State, row: Row, startup: bool, readable: bool, max: nat, u: State)
    requires s.row.Some? && s.worker == Examining(row, startup) && u == Apply(s, Examine(readable), max)
    ensures u == s.(row := u.row, worker := u.worker)
    ensures Undecided(row) && (!readable || WasCut(s.log) || IsLost(s, row, startup)) ==>
              u.worker == Resting && u.row == Some(s.row.value.(status := Review))
    ensures Undecided(row) && readable && HasTerminal(s.log) && !WasCut(s.log) ==>
              exists i: nat, content ::
                && IsLastEnd(s.log, i) && Answers(row.turn, s.log[i].payload, content)
                && u.row == Some(s.row.value.(status := Pending, content := content))
                && u.worker == Due(row.(status := Pending, content := content))
    ensures Undecided(row) && readable && !HasTerminal(s.log) && !IsLost(s, row, startup) ==> u == s.(worker := Resting)
    ensures !Undecided(row) ==> u == s.(worker := if row.status == Pending then Due(row) else Resting)
  {
    hide Answers;
    if HasTerminal(s.log) {
      var i := SomeLastEnd(s.log);
      LastTerminalIsLast(s.log, i);
      ReplyAnswers(row.turn, s.log[i]);
      forall j: nat | IsLastEnd(s.log, j) ensures j == i { }
      assert Interrupted(s.log[i]) <==> WasCut(s.log);
    }
  }

  /** A reply that is due is sent as it stands while attempts are left. Sending decides the receipt:
      delivered, or pending again unless that was the last attempt; then, and when none was left, it
      goes under review. */
  lemma DeliveryMeans(s: State, a: Action, max: nat)
    requires Enabled(s, a, max)
    ensures s.worker.Due? && a.GiveUp? ==>
              s.worker.row.attempts >= max && Apply(s, a, max).row == Some(s.row.value.(status := Review))
    ensures s.worker.Due? && a.Persist? ==>
              var n := s.worker.row.attempts + 1;
              n <= max && Apply(s, a, max).row == Some(s.row.value.(attempts := n))
              && Apply(s, a, max).worker == Sending(n, s.worker.row.content) && Apply(s, a, max).outbox == s.outbox
    ensures a.Publish? ==>
              Apply(s, a, max).worker == Recording(s.worker.attempt, a.ok) && Apply(s, a, max).row == s.row
              && Apply(s, a, max).outbox == if a.written || a.ok then Some(s.worker.content) else s.outbox
    ensures a.Record? ==>
              Apply(s, a, max).worker == Resting && Apply(s, a, max).outbox == s.outbox
              && Apply(s, a, max).row
                 == Some(s.row.value.(status := if s.worker.ok then Delivered
                                                else if s.worker.attempt < max then Pending else Review))
  {
  }

  /** A crash keeps what is on disk and what was sent, and forgets the rest; a late "running" overwrites
      whatever status there was; a manual retry starts the attempts anew. */
  lemma RestMeans(s: State, a: Action, max: nat)
    requires Enabled(s, a, max)
    ensures a.Crash? ==> Apply(s, a, max) == State(s.row, s.log, false, 0, Resting, s.outbox, s.sends)
    ensures a.MarkRunning? ==>
              Apply(s, a, max) == State(Some(s.row.value.(status := Running)), s.log, s.scheduled, s.inFlight - 1,
                                        s.worker, s.outbox, s.sends)
    ensures a.Retry? ==>
              Apply(s, a, max) == State(Some(s.row.value.(status := Pending, attempts := 0)), s.log, s.scheduled, s.inFlight,
                                        s.worker, s.outbox, 0)
  {
  }

  /** Nothing is stuck: every submission can finish, a turn that runs can end, the worker can take its
      next step, and what is under review with a reply can be requeued. */
  lemma NothingIsStuck(s: State, max: nat)
    requires Inv(s, max)
    ensures s.inFlight != 0 ==> Enabled(s, MarkRunning, max) && Enabled(s, SubmitRaises, max)
    ensures s.scheduled && !HasTerminal(s.log) ==> forall e :: Enabled(s, TurnAppends(e), max)
    ensures s.row.Some? && s.worker == Resting && s.row.value.status in {Reserved, Running, Pending} ==>
              forall startup :: Enabled(s, BeginPass(startup), max)
    ensures s.worker.Examining? ==> forall readable :: Enabled(s, Examine(readable), max)
    ensures s.worker.Due? ==>
              Enabled(s, NotYetDue, max)
              && Enabled(s, if s.worker.row.attempts < max then Persist else GiveUp, max)
    ensures s.worker.Sending? ==> forall written, ok :: Enabled(s, Publish(written, ok), max)
    ensures s.worker.Recording? ==> Enabled(s, Record, max)
    ensures s.row.Some? && s.row.value.status == Review && s.row.value.content != "" ==> Enabled(s, Retry, max)
  {
  }

  /** A submission reaches the host exactly if it is the first, or repeats a reserved receipt whose
      turn left no trace; the receipt itself is made once. */
  lemma SubmitMeans(s: State, turn: TurnId, fingerprint: Fingerprint, max: nat)
    ensures var u := Apply(s, Submit(turn, fingerprint), max);
            && (u.inFlight == s.inFlight + 1
                <==> s.row.None? || (s.row.value.fingerprint == fingerprint && s.log == [] && s.row.value.status == Reserved))
            && (u.inFlight != s.inFlight + 1 ==> u == s)
            && (u.inFlight == s.inFlight + 1 ==> u.scheduled)
            && u.row == (if s.row.None? then Some(Row(fingerprint, turn, Reserved, "", 0)) else s.row)
            && (u.log, u.worker, u.outbox, u.sends) == (s.log, s.worker, s.outbox, s.sends)
  {
  }

  // ---------------------------------------------------------------------------
  // Runs
  // ---------------------------------------------------------------------------

  ghost predicate Leads(s: State, actions: seq<Action>, u: State, max: nat)
    decreases |actions|
  {
    if actions == [] then s == u
    else Enabled(s, actions[0], max) && Leads(Apply(s, actions[0], max), actions[1..], u, max)
  }

  lemma {:induction false} InvOverRuns(s: State, actions: seq<Action>, u: State, max: nat)
    requires Inv(s, max) && Leads(s, actions, u, max)
    ensures Inv(u, max)
    decreases |actions|
  {
    if actions != [] {
      InvIsInductive(s, actions[0], max);
      InvOverRuns(Apply(s, actions[0], max), actions[1..], u, max);
    }
  }

  /** However submissions, restarts, passes and retries interleave, the messages sent since the last
      manual retry never exceed the attempts on record, nor those the limit. */
  lemma AttemptsBoundSends(start: State, actions: seq<Action>, s: State, max: nat)
    requires Initial(start) && Leads(start, actions, s, max)
    ensures s.row.Some? ==> s.sends <= s.row.value.attempts <= max
    ensures s.row.None? ==> s.sends == 0 && s.outbox == None
  {
    InvOverRuns(start, actions, s, max);
  }

  lemma RefusedStays(s: State, a: Action, max: nat)
    requires Enabled(s, a, max) && Refused(s)
    ensures Refused(Apply(s, a, max))
  {
  }

  /** Once the log has an event or the receipt has left "reserved", no submission reaches the host
      again: a host that has forgotten the turn never runs it a second time. */
  lemma {:induction false} NeverResubmitted(s: State, actions: seq<Action>, u: State, max: nat)
    requires Refused(s) && Leads(s, actions, u, max)
    ensures Refused(u)
    ensures forall t, f :: Apply(u, Submit(t, f), max) == u
    ensures !s.scheduled ==> !u.scheduled
    decreases |actions|
  {
    if actions != [] {
      RefusedStays(s, actions[0], max);
      NeverResubmitted(Apply(s, actions[0], max), actions[1..], u, max);
    }
  }

  lemma PublishedStays(s: State, a: Action, max: nat)
    requires Inv(s, max) && Enabled(s, a, max) && s.outbox.Some?
    ensures Apply(s, a, max).outbox == s.outbox
  {
  }

  /** A reply that was published is the one of the turn's terminal event, and is never replaced. */
  lemma {:induction false} PublishedIsFinal(s: State, actions: seq<Action>, u: State, max: nat)
    requires Inv(s, max) && s.outbox.Some? && Leads(s, actions, u, max)
    ensures u.outbox == s.outbox && IsReply(s, s.outbox.value)
    decreases |actions|
  {
    if actions != [] {
      PublishedStays(s, actions[0], max);
      InvIsInductive(s, actions[0], max);
      PublishedIsFinal(Apply(s, actions[0], max), actions[1..], u, max);
    }
  }

  /** The turn was cut short by a restart. */
  predicate CutShort(s: State)
  {
    s.log != [] && s.log[|s.log| - 1].Terminal? && Interrupted(s.log[|s.log| - 1])
  }

  lemma CutShortStays(s: State, a: Action, max: nat)
    requires CutShort(s) && Enabled(s, a, max)
    ensures CutShort(Apply(s, a, max))
  {
    assert HasTerminal(s.log);
  }

  /** An execution whose end is uncertain is never answered, and not even a manual retry sends
      anything for it. */
  lemma {:induction false} CutShortIsNeverSent(s: State, actions: seq<Action>, u: State, max: nat)
    requires Inv(s, max) && CutShort(s) && Leads(s, actions, u, max)
    ensures CutShort(u) && u.outbox == None && !Enabled(u, Retry, max) && !u.worker.Sending?
    decreases |actions|
  {
    if actions != [] {
      CutShortStays(s, actions[0], max);
      InvIsInductive(s, actions[0], max);
      CutShortIsNeverSent(Apply(s, actions[0], max), actions[1..], u, max);
    }
  }

  /** So is a turn that startup recovery ends, from then on. */
  lemma RecoveredIsNeverSent(s: State, payload: TurnLog.Doc, actions: seq<Action>, u: State, max: nat)
    requires Inv(s, max) && Enabled(s, RecoveryAppends(payload), max)
    requires Leads(Apply(s, RecoveryAppends(payload), max), actions, u, max)
    ensures u.outbox == None && !Enabled(u, Retry, max) && !u.worker.Sending?
  {
    InvIsInductive(s, RecoveryAppends(payload), max);
    CutShortIsNeverSent(Apply(s, RecoveryAppends(payload), max), actions, u, max);
  }

  predicate IsDelivered(s: State)
  {
    s.row.Some? && s.row.value.status == Delivered
  }

  lemma DeliveredRests(s: State, max: nat)
    requires Inv(s, max) && IsDelivered(s)
    ensures s.worker == Resting && Refused(s)
  {
  }

  lemma DeliveredStays(s: State, a: Action, max: nat)
    requires Inv(s, max) && IsDelivered(s) && s.inFlight == 0 && Enabled(s, a, max)
    ensures var u := Apply(s, a, max); IsDelivered(u) && u.inFlight == 0 && u.sends == s.sends
  {
    DeliveredRests(s, max);
  }

  /** "Delivered" is final when no submission is still waiting to write "running"... */
  lemma {:induction false} DeliveredIsFinal(s: State, actions: seq<Action>, u: State, max: nat)
    requires Inv(s, max) && IsDelivered(s) && s.inFlight == 0 && Leads(s, actions, u, max)
    ensures IsDelivered(u) && u.sends == s.sends
    decreases |actions|
  {
    if actions != [] {
      DeliveredStays(s, actions[0], max);
      InvIsInductive(s, actions[0], max);
      DeliveredIsFinal(Apply(s, actions[0], max), actions[1..], u, max);
    }
  }

  /** ...and only then: a late "running" reopens the receipt... */
  lemma LateRunningReopens(s: State, max: nat) returns (u: State)
    requires Inv(s, max) && IsDelivered(s) && s.inFlight > 0
    ensures Leads(s, [MarkRunning] + ([BeginPass(false)] + ([Examine(true)] + [])), u, max) && Inv(u, max)
    ensures u.worker.Due? && u.worker.row.attempts == s.row.value.attempts
    ensures !IsDelivered(u) && u.sends == s.sends && u.outbox == s.outbox
  {
    DeliveredRests(s, max);
    var s1 := Apply(s, MarkRunning, max);
    InvIsInductive(s, MarkRunning, max);
    var s2 := Apply(s1, BeginPass(false), max);
    InvIsInductive(s1, BeginPass(false), max);
    assert HasTerminal(s.log);
    LastIsTerminal(s.log);
    u := Apply(s2, Examine(true), max);
    InvIsInductive(s2, Examine(true), max);
    FirstAndRest(Examine(true), []);
    assert Leads(s2, [Examine(true)] + [], u, max);
    FirstAndRest(BeginPass(false), [Examine(true)] + []);
    assert Leads(s1, [BeginPass(false)] + ([Examine(true)] + []), u, max);
    FirstAndRest(MarkRunning, [BeginPass(false)] + ([Examine(true)] + []));
  }

  /** ...and what is due is sent (again) while attempts are left, with the same reply. */
  lemma DueIsSentAgain(s: State, max: nat) returns (u: State)
    requires Inv(s, max) && s.worker.Due? && s.worker.row.attempts < max
    ensures Leads(s, [Persist] + ([Publish(true, true)] + []), u, max)
    ensures u.sends == s.sends + 1 && u.outbox.Some? && (s.outbox.Some? ==> u.outbox == s.outbox)
  {
    var w := Apply(s, Persist, max);
    InvIsInductive(s, Persist, max);
    u := Apply(w, Publish(true, true), max);
    FirstAndRest(Publish(true, true), []);
    assert Leads(w, [Publish(true, true)] + [], u, max);
    FirstAndRest(Persist, [Publish(true, true)] + []);
    if s.outbox.Some? { PublishedStays(w, Publish(true, true), max); }
  }

  lemma FirstAndRest(a: Action, rest: seq<Action>)
    ensures ([a] + rest)[0] == a && ([a] + rest)[1..] == rest
  {
  }

  ghost predicate Reaches(s: State, u: State, max: nat) { exists actions :: Leads(s, actions, u, max) }

  lemma {:induction false} Compose(s: State, first: seq<Action>, t: State, second: seq<Action>, u: State, max: nat)
    requires Leads(s, first, t, max) && Leads(t, second, u, max)
    ensures Leads(s, first + second, u, max)
    decreases |first|
  {
    if first == [] {
      assert first + second == second;
    } else {
      Compose(Apply(s, first[0], max), first[1..], t, second, u, max);
      assert (first + second)[1..] == first[1..] + second;
    }
  }

  lemma Then(start: State, s: State, a: Action, max: nat) returns (u: State)
    requires Inv(s, max) && Reaches(start, s, max) && Enabled(s, a, max)
    ensures Inv(u, max) && Reaches(start, u, max) && u == Apply(s, a, max)
  {
    hide Inv, Enabled, Apply;
    u := Apply(s, a, max);
    InvIsInductive(s, a, max);
    var first :| Leads(start, first, s, max);
    FirstAndRest(a, []);
    assert Leads(s, [a] + [], u, max);
    Compose(start, first, s, [a] + [], u, max);
  }

  lemma TurnIsAnswered(start: State, turn: TurnId, fingerprint: Fingerprint, e: Event, max: nat) returns (s: State)
    requires Initial(start) && e.Terminal? && !Interrupted(e) && max >= 1
    ensures Inv(s, max) && Reaches(start, s, max) && s.inFlight == 1 && s.worker == Resting && s.sends == 0
    ensures s.row == Some(Row(fingerprint, turn, Reserved, "", 0)) && s.log == [e] && s.outbox == None
  {
    assert Leads(start, [], start, max);
    assert Inv(start, max);
    hide Inv, Reaches, Leads;
    s := start;
    s := Then(start, s, Submit(turn, fingerprint), max);
    s := Then(start, s, TurnAppends(e), max);
  }

  /** The host may answer a turn, and the worker deliver the answer, before the submission has
      written "running"... */
  lemma DeliveredWhileInFlight(start: State, turn: TurnId, fingerprint: Fingerprint, e: Event, max: nat) returns (s: State)
    requires Initial(start) && e.Terminal? && !Interrupted(e) && max >= 1
    ensures Inv(s, max) && Reaches(start, s, max) && IsDelivered(s) && s.inFlight == 1
    ensures s.sends == 1 && s.row.value.attempts == 1 && s.outbox == Some(Reply(turn, e))
  {
    s := TurnIsAnswered(start, turn, fingerprint, e, max);
    hide Inv, Reaches, Leads, Reply;
    s := Then(start, s, BeginPass(false), max);
    assert s.log[0].Terminal?;
    s := Then(start, s, Examine(true), max);
    s := Then(start, s, Persist, max);
    s := Then(start, s, Publish(true, true), max);
    s := Then(start, s, Record, max);
  }

  /** ...so that the late "running" has a delivered message sent a second time, if two attempts are
      allowed. */
  lemma DeliveredIsSentTwice(start: State, turn: TurnId, fingerprint: Fingerprint, e: Event, max: nat)
    returns (s: State, u: State)
    requires Initial(start) && e.Terminal? && !Interrupted(e) && max >= 2
    ensures Reaches(start, s, max) && IsDelivered(s) && s.sends == 1
    ensures Reaches(s, u, max) && u.sends == 2 && u.outbox == s.outbox
  {
    s := DeliveredWhileInFlight(start, turn, fingerprint, e, max);
    hide Inv, Enabled, Apply, Reply;
    var due := LateRunningReopens(s, max);
    u := DueIsSentAgain(due, max);
    Compose(s, [MarkRunning] + ([BeginPass(false)] + ([Examine(true)] + [])), due, [Persist] + ([Publish(true, true)] + []), u, max);
  }
}
