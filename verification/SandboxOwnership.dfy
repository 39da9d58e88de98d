/** Durable ownership of sandbox containers: a record is saved before the container is requested, a
    lease (a file lock) is held while a session uses it, and any process may reconcile records
    whose lease is free. Create requests may land long after the client that sent them gave up;
    processes may crash between any two steps. */
module SandboxOwnership {

  import opened Wrappers

  type Token = nat
  type Pid = nat

  datatype RecordState = Intent | Created | Closed

  /** The container of one token, as the daemon has it. The one create request for it may be in
      flight, and may also get lost. */
  datatype Container = InFlight | Exists | Removed | Lost

  datatype Stage = Listing | Found | NotFound | Gone

  /** What a process is doing. The cleaning of a token works on a copy `record` of its record:
      the session's own one, or the one a reconciliation read from disk. */
  datatype Phase =
    | Idle
    | Claimed | Creating | Acked | Starting
    | Cleaning(token: Token, record: RecordState, stage: Stage, own: bool)

  /** One process with its adapter: the session it owns, the broken latch, and its own copy of the
      session's record. */
  datatype Process = Process(phase: Phase, session: Option<Token>, broken: bool, record: RecordState)

  datatype State = State(
    processes: map<Pid, Process>,
    leases: map<Token, Pid>,
    records: map<Token, RecordState>,
    daemon: map<Token, Container>)

  const FRESH: Process := Process(Idle, None, false, Intent)

  ghost predicate Initial(s: State)
  {
    && (forall p :: p in s.processes ==> s.processes[p] == FRESH)
    && s.leases == map[] && s.records == map[] && s.daemon == map[]
  }

  /** The session can be handed to a tool. */
  predicate Usable(s: State, p: Pid)
  {
    p in s.processes && s.processes[p].phase == Idle && s.processes[p].session.Some? && !s.processes[p].broken
  }

  // ---------------------------------------------------------------------------
  // Steps
  // ---------------------------------------------------------------------------

  datatype Action =
    | Claim(p: Pid, token: Token)             // lease taken, intent saved, name set
    | ClaimFails(p: Pid, token: Token)        // the save raised after the record was in place
    | SendCreate(p: Pid)
    | Land(token: Token) | Lose(token: Token) // the daemon executes, or never gets, the request
    | CreateAcknowledged(p: Pid)
    | SaveCreated(p: Pid)
    | StartSucceeds(p: Pid)
    | StartFails(p: Pid)                      // any failure or timeout while starting
    | Invalidate(p: Pid)                      // stop, or a failed process clean-up
    | InvalidateBlocked(p: Pid)               // ...while another process holds the lease
    | Reset(p: Pid)                           // the end of stop
    | Reconcile(p: Pid, token: Token)
    | List(p: Pid)
    | Remove(p: Pid)
    | RemoveUnconfirmed(p: Pid, happened: bool)
    | Close(p: Pid)
    | CloseFails(p: Pid, saved: bool)
    | Watch(p: Pid)
    | SkipClosed(p: Pid)
    | CleaningFails(p: Pid)
    | Crash(p: Pid)

  predicate IsCleaning(s: State, p: Pid) { p in s.processes && s.processes[p].phase.Cleaning? }

  predicate At(s: State, p: Pid, phase: Phase)
  {
    p in s.processes && s.processes[p].phase == phase && s.processes[p].session.Some?
  }

  predicate ContainerIs(s: State, t: Token, c: Container) { t in s.daemon && s.daemon[t] == c }

  predicate Enabled(s: State, a: Action)
  {
    match a
    case Claim(p, t) =>
      p in s.processes && s.processes[p].phase == Idle && s.processes[p].session.None? && !s.processes[p].broken
      && t !in s.records && t !in s.leases && t !in s.daemon
    case ClaimFails(p, t) =>
      p in s.processes && s.processes[p].phase == Idle && s.processes[p].session.None? && !s.processes[p].broken
      && t !in s.records && t !in s.leases && t !in s.daemon
    case SendCreate(p) => At(s, p, Claimed)
    case Land(t) => ContainerIs(s, t, InFlight)
    case Lose(t) => ContainerIs(s, t, InFlight)
    case CreateAcknowledged(p) => At(s, p, Creating) && ContainerIs(s, s.processes[p].session.value, Exists)
    case SaveCreated(p) => At(s, p, Acked)
    case StartSucceeds(p) => At(s, p, Starting)
    case StartFails(p) => At(s, p, Claimed) || At(s, p, Creating) || At(s, p, Acked) || At(s, p, Starting)
    case Invalidate(p) =>
      At(s, p, Idle) && (var t := s.processes[p].session.value; t !in s.leases || s.leases[t] == p)
    case InvalidateBlocked(p) =>
      At(s, p, Idle) && (var t := s.processes[p].session.value; t in s.leases && s.leases[t] != p)
    case Reset(p) => p in s.processes && s.processes[p].phase == Idle && s.processes[p].session.None?
    case Reconcile(p, t) =>
      p in s.processes && s.processes[p].phase == Idle && s.processes[p].session.None? && !s.processes[p].broken
      && t in s.records && t !in s.leases
    case List(p) =>
      IsCleaning(s, p) && s.processes[p].phase.stage == Listing && s.processes[p].phase.record != Closed
    case Remove(p) => IsCleaning(s, p) && s.processes[p].phase.stage == Found
    case RemoveUnconfirmed(p, _) => IsCleaning(s, p) && s.processes[p].phase.stage == Found
    case Close(p) => IsCleaning(s, p) && MayClose(s.processes[p].phase)
    case CloseFails(p, _) => IsCleaning(s, p) && MayClose(s.processes[p].phase)
    case Watch(p) =>
      IsCleaning(s, p) && s.processes[p].phase.stage == NotFound && s.processes[p].phase.record == Intent
    case SkipClosed(p) =>
      IsCleaning(s, p) && s.processes[p].phase.stage == Listing && s.processes[p].phase.record == Closed
    case CleaningFails(p) => IsCleaning(s, p) && s.processes[p].phase.stage == Listing
    case Crash(p) => p in s.processes
  }

  /** Only an observed deletion or an acknowledged create permits final closure. */
  predicate MayClose(phase: Phase)
    requires phase.Cleaning?
  {
    phase.stage == Gone || (phase.stage == NotFound && phase.record == Created)
  }

  function Set(s: State, p: Pid, q: Process): State { s.(processes := s.processes[p := q]) }

  /** The broken latch is set and the session's own record is cleaned up under its lease. */
  function BeginOwn(s: State, p: Pid): State
    requires p in s.processes && s.processes[p].session.Some?
  {
    var q := s.processes[p];
    var t := q.session.value;
    Set(s, p, q.(broken := true, phase := Cleaning(t, q.record, Listing, true))).(leases := s.leases[t := p])
  }

  /** The lease is released; a session's own clean-up that succeeded also clears its name. */
  function EndCleaning(s: State, p: Pid, record: RecordState, success: bool): State
    requires IsCleaning(s, p)
  {
    var q := s.processes[p];
    var q' := if q.phase.own then q.(phase := Idle, record := record, session := if success then None else q.session)
              else q.(phase := Idle);
    Set(s, p, q').(leases := s.leases - {q.phase.token})
  }

  function Apply(s: State, a: Action): State
    requires Enabled(s, a)
  {
    match a
    case Claim(p, t) =>
      Set(s, p, Process(Claimed, Some(t), false, Intent)).(leases := s.leases[t := p], records := s.records[t := Intent])
    case ClaimFails(p, t) => s.(records := s.records[t := Intent])
    case SendCreate(p) =>
      Set(s, p, s.processes[p].(phase := Creating)).(daemon := s.daemon[s.processes[p].session.value := InFlight])
    case Land(t) => s.(daemon := s.daemon[t := Exists])
    case Lose(t) => s.(daemon := s.daemon[t := Lost])
    case CreateAcknowledged(p) => Set(s, p, s.processes[p].(phase := Acked, record := Created))
    case SaveCreated(p) =>
      Set(s, p, s.processes[p].(phase := Starting)).(records := s.records[s.processes[p].session.value := Created])
    case StartSucceeds(p) => Set(s, p, s.processes[p].(phase := Idle))
    case StartFails(p) => BeginOwn(s, p)
    case Invalidate(p) => BeginOwn(s, p)
    case InvalidateBlocked(p) => Set(s, p, s.processes[p].(broken := true))
    case Reset(p) => Set(s, p, s.processes[p].(broken := false))
    case Reconcile(p, t) =>
      Set(s, p, s.processes[p].(phase := Cleaning(t, s.records[t], Listing, false))).(leases := s.leases[t := p])
    case List(p) =>
      var q := s.processes[p];
      Set(s, p, q.(phase := q.phase.(stage := if ContainerIs(s, q.phase.token, Exists) then Found else NotFound)))
    case Remove(p) =>
      var q := s.processes[p];
      Set(s, p, q.(phase := q.phase.(stage := Gone))).(daemon := s.daemon[q.phase.token := Removed])
    case RemoveUnconfirmed(p, happened) =>
      var q := s.processes[p];
      EndCleaning(s, p, q.phase.record, false)
        .(daemon := if happened then s.daemon[q.phase.token := Removed] else s.daemon)
    case Close(p) =>
      EndCleaning(s, p, Closed, true).(records := s.records[s.processes[p].phase.token := Closed])
    case CloseFails(p, saved) =>
      EndCleaning(s, p, Closed, false)
        .(records := if saved then s.records[s.processes[p].phase.token := Closed] else s.records)
    case Watch(p) => EndCleaning(s, p, Intent, true)
    case SkipClosed(p) => EndCleaning(s, p, Closed, true)
    case CleaningFails(p) => EndCleaning(s, p, s.processes[p].phase.record, false)
    case Crash(p) =>
      Set(s, p, FRESH).(leases := map t | t in s.leases && s.leases[t] != p :: s.leases[t])
  }

  // ---------------------------------------------------------------------------
  // The inductive invariant
  // ---------------------------------------------------------------------------

  /** A copy of a record never claims more than happened. */
  predicate Honest(s: State, t: Token, r: RecordState)
  {
    match r
    case Intent => true
    case Created => ContainerIs(s, t, Exists) || ContainerIs(s, t, Removed)
    case Closed => ContainerIs(s, t, Removed)
  }

  predicate Holds(s: State, p: Pid, t: Token) { t in s.leases && s.leases[t] == p }

  predicate RecordInv(s: State, t: Token)
  {
    && (t in s.daemon ==> t in s.records)
    && (t in s.records ==> Honest(s, t, s.records[t]))
    && (t in s.leases ==> t in s.records && s.leases[t] in s.processes && LeaseInv(s.processes[s.leases[t]], t))
  }

  /** A lease that is held is held for the process's session or for its cleaning. */
  predicate LeaseInv(q: Process, t: Token)
  {
    if q.phase.Cleaning? then q.phase.token == t else q.session == Some(t) && !q.broken
  }

  ghost predicate ProcessInv(s: State, p: Pid)
    requires p in s.processes
  {
    var q := s.processes[p];
    && (q.session.Some? ==> q.session.value in s.records && Honest(s, q.session.value, q.record))
    && (match q.phase
        case Idle =>
          q.session.Some? && !q.broken ==>
            Holds(s, p, q.session.value) && ContainerIs(s, q.session.value, Exists)
            && s.records[q.session.value] == Created && q.record == Created
        case Claimed =>
          q.session.Some? && !q.broken && Holds(s, p, q.session.value)
          && q.session.value !in s.daemon && s.records[q.session.value] == Intent
        case Creating =>
          q.session.Some? && !q.broken && Holds(s, p, q.session.value)
          && q.session.value in s.daemon && s.daemon[q.session.value] != Removed && s.records[q.session.value] == Intent
        case Acked =>
          q.session.Some? && !q.broken && Holds(s, p, q.session.value)
          && ContainerIs(s, q.session.value, Exists) && q.record == Created && s.records[q.session.value] == Intent
        case Starting =>
          q.session.Some? && !q.broken && Holds(s, p, q.session.value)
          && ContainerIs(s, q.session.value, Exists) && q.record == Created && s.records[q.session.value] == Created
        case Cleaning(t, record, stage, own) =>
          && Holds(s, p, t) && Honest(s, t, record)
          && (own ==> q.session == Some(t) && q.broken)
          && (!own ==> q.session.None? && !q.broken)
          && (stage == Found ==> ContainerIs(s, t, Exists))
          && (stage == Gone ==> ContainerIs(s, t, Removed))
          && (stage == NotFound && record == Created ==> ContainerIs(s, t, Removed)))
  }

  ghost predicate Inv(s: State)
  {
    (forall t :: RecordInv(s, t)) && forall p :: p in s.processes ==> ProcessInv(s, p)
  }

  lemma InvHoldsInitially(s: State)
    requires Initial(s)
    ensures Inv(s)
  {
  }

  // ---------------------------------------------------------------------------
  // The invariant is inductive
  // ---------------------------------------------------------------------------

  /** What a step may do to a token from the point of view of a process that does not take it. */
  predicate UndisturbedAt(s: State, s': State, p: Pid, t: Token)
  {
    && (t in s.records ==> t in s'.records)
    && (ContainerIs(s, t, Exists) ==> ContainerIs(s', t, Exists) || ContainerIs(s', t, Removed))
    && (ContainerIs(s, t, Removed) ==> ContainerIs(s', t, Removed))
    && (Holds(s, p, t) ==>
          && Holds(s', p, t)
          && (t in s.records ==> s'.records[t] == s.records[t])
          && (t in s.daemon <==> t in s'.daemon)
          && (ContainerIs(s', t, Removed) ==> ContainerIs(s, t, Removed))
          && (ContainerIs(s, t, Exists) ==> ContainerIs(s', t, Exists)))
  }

  ghost predicate Undisturbed(s: State, s': State, p: Pid)
    requires p in s.processes
  {
    p in s'.processes && s'.processes[p] == s.processes[p] && forall t :: UndisturbedAt(s, s', p, t)
  }

  lemma UndisturbedKeepsInv(s: State, s': State, p: Pid)
    requires p in s.processes && ProcessInv(s, p)
    requires Undisturbed(s, s', p)
    ensures ProcessInv(s', p)
  {
    var q := s.processes[p];
    if q.session.Some? { assert UndisturbedAt(s, s', p, q.session.value); }
    if q.phase.Cleaning? { assert UndisturbedAt(s, s', p, q.phase.token); }
  }

  function Actor(a: Action): Option<Pid>
  {
    match a
    case Land(_) => None
    case Lose(_) => None
    case _ => Some(a.p)
  }

  /** The steps of a clean-up, as opposed to those of a session, the daemon or a crash. */
  predicate OfCleaning(a: Action)
  {
    a.List? || a.Remove? || a.RemoveUnconfirmed? || a.Close? || a.CloseFails? || a.Watch? || a.SkipClosed?
    || a.CleaningFails?
  }

  /** The steps of a clean-up that look at the container or remove it. */
  predicate OfRemoval(a: Action) { a.List? || a.Remove? || a.RemoveUnconfirmed? }

  lemma OthersUndisturbedInSession(s: State, a: Action, q: Pid, t: Token)
    requires Inv(s) && Enabled(s, a) && q in s.processes && Actor(a) != Some(q) && !OfCleaning(a)
    ensures UndisturbedAt(s, Apply(s, a), q, t)
  {
    if Actor(a).Some? { assert a.p in s.processes && ProcessInv(s, a.p); }
  }

  lemma OthersUndisturbedInRemoval(s: State, a: Action, q: Pid, t: Token)
    requires Inv(s) && Enabled(s, a) && q in s.processes && Actor(a) != Some(q) && OfRemoval(a)
    ensures UndisturbedAt(s, Apply(s, a), q, t)
  {
    assert ProcessInv(s, a.p);
  }

  lemma OthersUndisturbedInClosing(s: State, a: Action, q: Pid, t: Token)
    requires Inv(s) && Enabled(s, a) && q in s.processes && Actor(a) != Some(q) && OfCleaning(a) && !OfRemoval(a)
    ensures UndisturbedAt(s, Apply(s, a), q, t)
  {
    assert ProcessInv(s, a.p);
  }

  lemma OthersUndisturbed(s: State, a: Action, q: Pid)
    requires Inv(s) && Enabled(s, a) && q in s.processes && Actor(a) != Some(q)
    ensures Undisturbed(s, Apply(s, a), q)
  {
    forall t ensures UndisturbedAt(s, Apply(s, a), q, t) {
      if OfRemoval(a) {
        OthersUndisturbedInRemoval(s, a, q, t);
      } else if OfCleaning(a) {
        OthersUndisturbedInClosing(s, a, q, t);
      } else {
        OthersUndisturbedInSession(s, a, q, t);
      }
    }
  }

  lemma ActorKeepsInvInSession(s: State, a: Action)
    requires Inv(s) && Enabled(s, a) && Actor(a).Some? && !OfCleaning(a)
    ensures a.p in Apply(s, a).processes && ProcessInv(Apply(s, a), a.p)
  {
    assert ProcessInv(s, a.p);
    if s.processes[a.p].session.Some? { assert RecordInv(s, s.processes[a.p].session.value); }
    if a.Reconcile? { assert RecordInv(s, a.token); }
  }

  lemma ActorKeepsInvInCleaning(s: State, a: Action)
    requires Inv(s) && Enabled(s, a) && Actor(a).Some? && OfCleaning(a)
    ensures a.p in Apply(s, a).processes && ProcessInv(Apply(s, a), a.p)
  {
    assert ProcessInv(s, a.p);
    assert RecordInv(s, s.processes[a.p].phase.token);
  }

  lemma ActorKeepsInv(s: State, a: Action)
    requires Inv(s) && Enabled(s, a) && Actor(a).Some?
    ensures a.p in Apply(s, a).processes && ProcessInv(Apply(s, a), a.p)
  {
    if OfCleaning(a) {
      ActorKeepsInvInCleaning(s, a);
    } else {
      ActorKeepsInvInSession(s, a);
    }
  }

  lemma RecordsKeptInSession(s: State, a: Action, t: Token)
    requires Inv(s) && Enabled(s, a) && !OfCleaning(a)
    ensures RecordInv(Apply(s, a), t)
  {
    assert RecordInv(s, t);
    if Actor(a).Some? { assert a.p in s.processes && ProcessInv(s, a.p); }
  }

  lemma RecordsKeptInRemoval(s: State, a: Action, t: Token)
    requires Inv(s) && Enabled(s, a) && OfRemoval(a)
    ensures RecordInv(Apply(s, a), t)
  {
    assert RecordInv(s, t);
    assert ProcessInv(s, a.p);
  }

  lemma RecordsKeptInClosing(s: State, a: Action, t: Token)
    requires Inv(s) && Enabled(s, a) && OfCleaning(a) && !OfRemoval(a)
    ensures RecordInv(Apply(s, a), t)
  {
    assert RecordInv(s, t);
    assert ProcessInv(s, a.p);
  }

  lemma InvIsInductive(s: State, a: Action)
    requires Inv(s) && Enabled(s, a)
    ensures Inv(Apply(s, a))
  {
    forall t ensures RecordInv(Apply(s, a), t) {
      if OfRemoval(a) {
        RecordsKeptInRemoval(s, a, t);
      } else if OfCleaning(a) {
        RecordsKeptInClosing(s, a, t);
      } else {
        RecordsKeptInSession(s, a, t);
      }
    }
    forall q | q in Apply(s, a).processes
      ensures ProcessInv(Apply(s, a), q)
    {
      if Actor(a) == Some(q) {
        ActorKeepsInv(s, a);
      } else {
        OthersUndisturbed(s, a, q);
        UndisturbedKeepsInv(s, Apply(s, a), q);
      }
    }
  }

  // ---------------------------------------------------------------------------
  // Runs
  // ---------------------------------------------------------------------------

  ghost predicate Leads(s: State, actions: seq<Action>, u: State)
    decreases |actions|
  {
    if actions == [] then s == u else Enabled(s, actions[0]) && Leads(Apply(s, actions[0]), actions[1..], u)
  }

  ghost predicate Reachable(s: State)
  {
    exists start, actions :: Initial(start) && Leads(start, actions, s)
  }

  lemma {:induction false} InvOverRuns(s: State, actions: seq<Action>, u: State)
    requires Inv(s) && Leads(s, actions, u)
    ensures Inv(u)
    decreases |actions|
  {
    if actions != [] {
      InvIsInductive(s, actions[0]);
      InvOverRuns(Apply(s, actions[0]), actions[1..], u);
    }
  }

  lemma ReachableInv(s: State)
    requires Reachable(s)
    ensures Inv(s)
  {
    var start, actions :| Initial(start) && Leads(start, actions, s);
    InvHoldsInitially(start);
    InvOverRuns(start, actions, s);
  }

  // ---------------------------------------------------------------------------
  // A closed record is final
  // ---------------------------------------------------------------------------

  predicate ClosedFor(s: State, t: Token)
  {
    t in s.records && s.records[t] == Closed && ContainerIs(s, t, Removed)
  }

  lemma ClosedStays(s: State, a: Action, t: Token)
    requires Inv(s) && Enabled(s, a) && ClosedFor(s, t)
    ensures ClosedFor(Apply(s, a), t)
  {
    assert RecordInv(s, t);
    if Actor(a).Some? { assert a.p in s.processes && ProcessInv(s, a.p); }
  }

  /** A record marked closed stays closed, and its container is gone and never appears again,
      whatever requests are still in flight and whoever crashes or reconciles. */
  lemma {:induction false} ClosedIsForever(s: State, t: Token, actions: seq<Action>, u: State)
    requires Inv(s) && t in s.records && s.records[t] == Closed && Leads(s, actions, u)
    ensures ClosedFor(s, t) && ClosedFor(u, t)
    decreases |actions|
  {
    assert RecordInv(s, t);
    if actions != [] {
      InvIsInductive(s, actions[0]);
      ClosedStays(s, actions[0], t);
      ClosedIsForever(Apply(s, actions[0]), t, actions[1..], u);
    }
  }

  /** A run has a moment at which the container of the token exists. */
  ghost predicate Existed(s: State, actions: seq<Action>, t: Token)
    decreases |actions|
  {
    ContainerIs(s, t, Exists)
    || (actions != [] && Enabled(s, actions[0]) && Existed(Apply(s, actions[0]), actions[1..], t))
  }

  lemma OnlyExistingIsRemoved(s: State, a: Action, t: Token)
    requires Inv(s) && Enabled(s, a) && !ContainerIs(s, t, Removed) && !ContainerIs(s, t, Exists)
    ensures !ContainerIs(Apply(s, a), t, Removed)
  {
    if Actor(a).Some? { assert a.p in s.processes && ProcessInv(s, a.p); }
  }

  lemma {:induction false} RemovedExisted(s: State, actions: seq<Action>, u: State, t: Token)
    requires Inv(s) && Leads(s, actions, u) && !ContainerIs(s, t, Removed) && ContainerIs(u, t, Removed)
    ensures Existed(s, actions, t)
    decreases |actions|
  {
    if !ContainerIs(s, t, Exists) {
      OnlyExistingIsRemoved(s, actions[0], t);
      InvIsInductive(s, actions[0]);
      RemovedExisted(Apply(s, actions[0]), actions[1..], u, t);
    }
  }

  /** Nothing is closed that was not created first. */
  lemma ClosedWasCreated(start: State, actions: seq<Action>, u: State, t: Token)
    requires Initial(start) && Leads(start, actions, u) && t in u.records && u.records[t] == Closed
    ensures Existed(start, actions, t) && ContainerIs(u, t, Removed)
  {
    InvHoldsInitially(start);
    InvOverRuns(start, actions, u);
    assert RecordInv(u, t);
    RemovedExisted(start, actions, u, t);
  }

  // ---------------------------------------------------------------------------
  // A usable session is safe from everybody else
  // ---------------------------------------------------------------------------

  predicate SafeSession(s: State, p: Pid, t: Token)
  {
    Usable(s, p) && s.processes[p].session == Some(t) && Holds(s, p, t) && ContainerIs(s, t, Exists)
    && t in s.records && s.records[t] == Created
  }

  lemma UsableIsSafe(s: State, p: Pid)
    requires Inv(s) && Usable(s, p)
    ensures SafeSession(s, p, s.processes[p].session.value)
    ensures forall q :: !Enabled(s, Reconcile(q, s.processes[p].session.value))
  {
    assert ProcessInv(s, p);
  }

  /** As long as a process does nothing, no interleaving of the others' steps (late creates,
      crashes, reconciliations) takes its lease or removes its container. */
  lemma {:induction false} UsableStaysUsable(s: State, p: Pid, actions: seq<Action>, u: State)
    requires Inv(s) && Usable(s, p) && Leads(s, actions, u)
    requires forall a :: a in actions ==> Actor(a) != Some(p)
    ensures SafeSession(u, p, s.processes[p].session.value)
    decreases |actions|
  {
    UsableIsSafe(s, p);
    if actions != [] {
      var a := actions[0];
      InvIsInductive(s, a);
      OthersUndisturbed(s, a, p);
      UsableStaysUsable(Apply(s, a), p, actions[1..], u);
    }
  }

  // ---------------------------------------------------------------------------
  // No orphan is forgotten
  // ---------------------------------------------------------------------------

  /** A container that exists, or may still come to exist, has a record that is not closed. */
  lemma NoOrphanIsForgotten(s: State, t: Token)
    requires Reachable(s) && (ContainerIs(s, t, InFlight) || ContainerIs(s, t, Exists))
    ensures t in s.records && s.records[t] != Closed
  {
    ReachableInv(s);
    assert RecordInv(s, t);
  }

  lemma FirstStep(s: State, a: Action, rest: seq<Action>, u: State)
    requires Enabled(s, a) && Leads(Apply(s, a), rest, u)
    ensures Leads(s, [a] + rest, u)
  {
    assert ([a] + rest)[1..] == rest;
  }

  lemma FoundIsClosed(s: State, t: Token, q: Pid) returns (u: State)
    requires Inv(s) && q in s.processes && s.processes[q].phase.Cleaning?
    requires s.processes[q].phase.token == t && s.processes[q].phase.stage == Found && !s.processes[q].phase.own
    ensures Leads(s, [Remove(q)] + ([Close(q)] + []), u)
    ensures ClosedFor(u, t) && q in u.processes && u.processes[q] == FRESH.(record := s.processes[q].record)
    ensures u.leases == s.leases - {t}
  {
    var v := Apply(s, Remove(q));
    u := Apply(v, Close(q));
    FirstStep(v, Close(q), [], u);
    FirstStep(s, Remove(q), [Close(q)] + [], u);
  }

  /** ...and once its lease is free, any idle process can remove it and close the record. */
  lemma OrphanCanBeRemoved(s: State, t: Token, q: Pid) returns (u: State)
    requires Inv(s) && ContainerIs(s, t, Exists) && t !in s.leases
    requires q in s.processes && s.processes[q] == FRESH
    ensures Leads(s, [Reconcile(q, t)] + ([List(q)] + ([Remove(q)] + ([Close(q)] + []))), u)
    ensures ClosedFor(u, t) && u.leases == s.leases && q in u.processes && u.processes[q] == FRESH
  {
    assert RecordInv(s, t);
    var v := Apply(s, Reconcile(q, t));
    InvIsInductive(s, Reconcile(q, t));
    var w := Apply(v, List(q));
    InvIsInductive(v, List(q));
    u := FoundIsClosed(w, t, q);
    FirstStep(v, List(q), [Remove(q)] + ([Close(q)] + []), u);
    FirstStep(s, Reconcile(q, t), [List(q)] + ([Remove(q)] + ([Close(q)] + [])), u);
  }
}
