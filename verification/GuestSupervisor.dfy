/** The supervisor of one guest execution: a `run` that launches a process group and any number of
    `cancel`s for the same token, serialised by a lock file and fenced by a tombstone. Every effect
    is a step of its own, and an exception may come at every point between two effects, whether a
    call raises before or after it took effect or a signal handler raises in between. The steps of
    the run, of each cancel and of the children interleave freely. */
module GuestSupervisor {

  // ---------------------------------------------------------------------------
  // State
  // ---------------------------------------------------------------------------

  /** The group leader. Once it is reaped and no member of its group lives, its id may belong to
      anybody. */
  datatype Leader = NotLaunched | Alive | Zombie | Reaped

  /** The pid file: absent, created but empty, or holding some of the digits of the leader's pid or
      all of them. */
  datatype PidFile = Absent | Empty | Partial | Pid

  datatype RunPc =
    | Start                    // before the lock is taken
    | Locked                   // lock held, tombstone not yet looked at
    | Forked                   // lock held, child started, no handler in place
    | Spawned                  // lock held, about to write the pid file
    | Written                  // lock held, pid file complete
    | WriteFailed | FailKilled | FailReaped   // lock held, error path of the pid file
    | Released                 // lock free, no handler in place
    | Waiting                  // lock free, waiting for the leader without reaping it
    | Relocking                // lock free, clean-up is to begin
    | Cleaning | Unlinked | Tombed | Killed   // lock held, clean-up
    | Reaping                  // lock free, about to collect the exit status
    | Finished

  datatype CancelPc =
    | CStart
    | CLocked                  // lock held, tombstone not yet written
    | CTombed                  // lock held, pid file not yet looked at
    | CTargeting               // lock held, about to kill the group of the pid it read
    | CLeaving                 // lock held, nothing left to do
    | CDone
    | CFailed                  // ended by an exception

  datatype Holder = Nobody | ByRun | ByCancel(id: nat)

  datatype State = State(
    run: RunPc,
    cancels: map<nat, CancelPc>,
    lock: Holder,
    tombstone: bool,
    pidFile: PidFile,
    leader: Leader,
    members: nat,              // living processes of the group besides the leader
    stray: bool)               // some kill was sent to an id that was not the group's any more

  ghost predicate Initial(s: State)
  {
    && s.run == Start && (forall c :: c in s.cancels ==> s.cancels[c] == CStart)
    && s.lock == Nobody && !s.tombstone && s.pidFile == Absent
    && s.leader == NotLaunched && s.members == 0 && !s.stray
  }

  // ---------------------------------------------------------------------------
  // Steps
  // ---------------------------------------------------------------------------

  datatype Action =
    | RunLock | RunSeesTombstone | Launch | EnterWrite | WritePid
    | KillAfterFailure | ReapAfterFailure | LeaveAfterFailure
    | Release | EnterWait | WaitEnds | Relock | Unlink | Touch | KillGroup | ReleaseAfterKill | Reap | OrphanReaped
    | Raise(at: RunPc) | WriteRaises(left: PidFile)
    | CancelLock(id: nat) | CancelTouch(id: nat) | CancelFindsNoPid(id: nat) | CancelFindsEmpty(id: nat)
    | CancelReadsPid(id: nat) | CancelKills(id: nat) | CancelLeaves(id: nat) | CancelRaises(id: nat)
    | LeaderExits | MemberExits | Fork

  /** The group's id is free for anybody. */
  predicate IdIsFree(s: State) { s.leader == Reaped && s.members == 0 }

  /** SIGKILL to the group: nothing of it survives. A kill sent once the id is free may hit an
      unrelated process group that got it. */
  function KillPg(s: State): State
  {
    s.(members := 0, leader := if s.leader == Alive then Zombie else s.leader, stray := s.stray || IdIsFree(s))
  }

  /** The kill of a cancel goes to whatever number the pid file holds. */
  function KillFromFile(s: State): State
  {
    if s.pidFile == Partial then s.(stray := true) else KillPg(s)
  }

  /** An exception of the run: while it waits, the clean-up follows; at any other point the run ends,
      and whatever lock it holds is freed. One that comes while the pid file is written is a step of
      its own, as it enters the error path. */
  function AfterException(s: State): State
  {
    if s.run == Waiting then s.(run := Relocking)
    else s.(run := Finished, lock := if s.lock == ByRun then Nobody else s.lock)
  }

  predicate CancelAt(s: State, id: nat, pc: CancelPc) { id in s.cancels && s.cancels[id] == pc }

  function SetCancel(s: State, id: nat, pc: CancelPc): State { s.(cancels := s.cancels[id := pc]) }

  predicate GroupAlive(s: State) { s.leader == Alive || s.members > 0 }

  predicate Enabled(s: State, a: Action)
  {
    match a
    case RunLock => s.run == Start && s.lock == Nobody
    case RunSeesTombstone => s.run == Locked && s.tombstone
    case Launch => s.run == Locked && !s.tombstone
    case EnterWrite => s.run == Forked
    case WritePid => s.run == Spawned
    case KillAfterFailure => s.run == WriteFailed
    case ReapAfterFailure => s.run == FailKilled && s.leader == Zombie
    case LeaveAfterFailure => s.run == FailReaped
    case Release => s.run == Written
    case EnterWait => s.run == Released
    case WaitEnds => s.run == Waiting && s.leader == Zombie
    case Relock => s.run == Relocking && s.lock == Nobody
    case Unlink => s.run == Cleaning
    case Touch => s.run == Unlinked
    case KillGroup => s.run == Tombed
    case ReleaseAfterKill => s.run == Killed
    case Reap => s.run == Reaping && s.leader == Zombie
    case Raise(at) => s.run == at && at !in {Spawned, Finished}
    case WriteRaises(_) => s.run == Spawned
    case OrphanReaped => s.run == Finished && s.leader == Zombie
    case CancelLock(id) => CancelAt(s, id, CStart) && s.lock == Nobody
    case CancelTouch(id) => CancelAt(s, id, CLocked)
    case CancelFindsNoPid(id) => CancelAt(s, id, CTombed) && s.pidFile == Absent
    case CancelFindsEmpty(id) => CancelAt(s, id, CTombed) && s.pidFile == Empty
    case CancelReadsPid(id) => CancelAt(s, id, CTombed) && s.pidFile in {Partial, Pid}
    case CancelKills(id) => CancelAt(s, id, CTargeting)
    case CancelLeaves(id) => CancelAt(s, id, CLeaving)
    case CancelRaises(id) => id in s.cancels && s.cancels[id] !in {CDone, CFailed}
    case LeaderExits => s.leader == Alive
    case MemberExits => s.members > 0
    case Fork => GroupAlive(s)
  }

  function Apply(s: State, a: Action): State
    requires Enabled(s, a)
  {
    match a
    case RunLock => s.(run := Locked, lock := ByRun)
    case RunSeesTombstone => s.(run := Finished, lock := Nobody)
    case Launch => s.(run := Forked, leader := Alive)
    case EnterWrite => s.(run := Spawned)
    case WritePid => s.(run := Written, pidFile := Pid)
    case KillAfterFailure => KillPg(s).(run := FailKilled)
    case ReapAfterFailure => s.(run := FailReaped, leader := Reaped)
    case LeaveAfterFailure => s.(run := Finished, lock := Nobody)
    case Release => s.(run := Released, lock := Nobody)
    case EnterWait => s.(run := Waiting)
    case WaitEnds => s.(run := Relocking)
    case Relock => s.(run := Cleaning, lock := ByRun)
    case Unlink => s.(run := Unlinked, pidFile := Absent)
    case Touch => s.(run := Tombed, tombstone := true)
    case KillGroup => KillPg(s).(run := Killed)
    case ReleaseAfterKill => s.(run := Reaping, lock := Nobody)
    case Reap => s.(run := Finished, leader := Reaped)
    case Raise(_) => AfterException(s)
    case WriteRaises(left) => s.(run := WriteFailed, pidFile := left)
    case OrphanReaped => s.(leader := Reaped)
    case CancelLock(id) => SetCancel(s, id, CLocked).(lock := ByCancel(id))
    case CancelTouch(id) => SetCancel(s, id, CTombed).(tombstone := true)
    case CancelFindsNoPid(id) => SetCancel(s, id, CLeaving)
    case CancelFindsEmpty(id) => SetCancel(s, id, CFailed).(lock := Nobody)   // no number to read
    case CancelReadsPid(id) => SetCancel(s, id, CTargeting)
    case CancelKills(id) => SetCancel(KillFromFile(s), id, CLeaving)
    case CancelLeaves(id) => SetCancel(s, id, CDone).(lock := Nobody)
    case CancelRaises(id) => SetCancel(s, id, CFailed).(lock := if s.lock == ByCancel(id) then Nobody else s.lock)
    case LeaderExits => s.(leader := Zombie)
    case MemberExits => s.(members := s.members - 1)
    case Fork => s.(members := s.members + 1)
  }

  // ---------------------------------------------------------------------------
  // The inductive invariant
  // ---------------------------------------------------------------------------

  predicate RunHolds(pc: RunPc)
  {
    pc in {Locked, Forked, Spawned, Written, WriteFailed, FailKilled, FailReaped, Cleaning, Unlinked, Tombed, Killed}
  }

  predicate CancelHolds(pc: CancelPc) { pc in {CLocked, CTombed, CTargeting, CLeaving} }

  /** The lock is held by exactly the party whose program counter says so. */
  ghost predicate LockInv(s: State)
  {
    && (s.lock == ByRun <==> RunHolds(s.run))
    && (forall c :: c in s.cancels ==> (s.lock == ByCancel(c) <==> CancelHolds(s.cancels[c])))
  }

  /** Where the leader and its group can be at each point of the run. */
  ghost predicate GroupInv(s: State)
  {
    && (s.leader == NotLaunched ==> s.members == 0)
    && (s.run in {Start, Locked} ==> s.leader == NotLaunched)
    && (s.run in {Forked, Spawned, Written, WriteFailed, Released, Waiting, Relocking, Cleaning, Unlinked, Tombed} ==>
          s.leader in {Alive, Zombie})
    && (s.run in {FailKilled, Killed, Reaping} ==> s.leader == Zombie && s.members == 0)
    && (s.run == FailReaped ==> IdIsFree(s))
  }

  /** What the pid file can hold at each point of the run. */
  ghost predicate PidInv(s: State)
  {
    && (s.run in {Start, Locked, Forked, Spawned, Unlinked, Tombed, Killed, Reaping} ==> s.pidFile == Absent)
    && (s.run in {Written, Released, Waiting, Relocking, Cleaning} ==> s.pidFile == Pid)
    && (s.run == Finished && s.pidFile != Absent ==> s.leader != NotLaunched)
  }

  /** The run has finished with its group alive, and the pid file does not lead to the group. */
  predicate Lost(s: State) { s.run == Finished && s.pidFile in {Absent, Partial} && GroupAlive(s) }

  /** The fence: once a cancel has put up the tombstone nothing is launched, and once it is past
      the pid file the group is dead, unless the run lost it. */
  ghost predicate FenceInv(s: State)
  {
    forall c :: c in s.cancels ==>
      && (s.cancels[c] in {CTombed, CTargeting, CLeaving, CDone} ==> s.tombstone)
      && (s.cancels[c] == CTargeting ==> s.pidFile in {Partial, Pid})
      && (s.cancels[c] in {CLeaving, CDone} ==> (!GroupAlive(s) || Lost(s)) && s.run !in {Forked, Spawned})
  }

  /** The run has finished and some digits of its pid are left in the file. */
  predicate LeftPid(s: State) { s.run == Finished && s.pidFile in {Partial, Pid} }

  /** A stray kill needs a pid file that outlived the run. */
  ghost predicate StrayInv(s: State) { s.stray ==> LeftPid(s) }

  ghost predicate Inv(s: State)
  {
    LockInv(s) && GroupInv(s) && PidInv(s) && FenceInv(s) && StrayInv(s)
    && (s.tombstone ==> s.run !in {Forked, Spawned})
  }

  lemma InvHoldsInitially(s: State)
    requires Initial(s)
    ensures Inv(s)
  {
  }

  /** Steps of the children alone. */
  predicate ByChildren(a: Action) { a in {LeaderExits, MemberExits, Fork, OrphanReaped} }

  predicate ByCanceller(a: Action)
  {
    a.CancelLock? || a.CancelTouch? || a.CancelFindsNoPid? || a.CancelFindsEmpty? || a.CancelReadsPid?
    || a.CancelKills? || a.CancelLeaves? || a.CancelRaises?
  }

  lemma ChildrenKeepInv(s: State, a: Action)
    requires Inv(s) && ByChildren(a) && Enabled(s, a)
    ensures Inv(Apply(s, a))
  {
  }

  lemma RunKeepsFence(s: State, a: Action)
    requires Inv(s) && !ByChildren(a) && !ByCanceller(a) && Enabled(s, a)
    ensures FenceInv(Apply(s, a))
  {
    // A step of the run with the lock held excludes every cancel from its critical section.
    assert forall c :: c in s.cancels && CancelHolds(s.cancels[c]) ==> s.lock == ByCancel(c);
  }

  lemma RunKeepsInv(s: State, a: Action)
    requires Inv(s) && !ByChildren(a) && !ByCanceller(a) && Enabled(s, a)
    ensures Inv(Apply(s, a))
  {
    RunKeepsFence(s, a);
    hide FenceInv;
  }

  lemma CancelKeepsLock(s: State, a: Action)
    requires Inv(s) && ByCanceller(a) && Enabled(s, a)
    ensures LockInv(Apply(s, a))
  {
  }

  lemma CancelKeepsInv(s: State, a: Action)
    requires Inv(s) && ByCanceller(a) && Enabled(s, a)
    ensures Inv(Apply(s, a))
  {
    CancelKeepsLock(s, a);
    assert CancelHolds(s.cancels[a.id]) ==> s.lock == ByCancel(a.id) && !RunHolds(s.run);
    if a.CancelLock? || a.CancelTouch? {
      assert FenceInv(Apply(s, a));
    }
  }

  lemma InvIsInductive(s: State, a: Action)
    requires Inv(s) && Enabled(s, a)
    ensures Inv(Apply(s, a))
  {
    if ByChildren(a) {
      ChildrenKeepInv(s, a);
    } else if ByCanceller(a) {
      CancelKeepsInv(s, a);
    } else {
      RunKeepsInv(s, a);
    }
  }

  // ---------------------------------------------------------------------------
  // Runs
  // ---------------------------------------------------------------------------

  /** `actions` is an interleaving that takes `s` to `t`. */
  ghost predicate Leads(s: State, actions: seq<Action>, t: State)
    decreases |actions|
  {
    if actions == [] then s == t
    else Enabled(s, actions[0]) && Leads(Apply(s, actions[0]), actions[1..], t)
  }

  lemma {:induction false} InvOnRuns(s: State, actions: seq<Action>, t: State)
    requires Inv(s) && Leads(s, actions, t)
    ensures Inv(t)
    decreases |actions|
  {
    if actions != [] {
      InvIsInductive(s, actions[0]);
      InvOnRuns(Apply(s, actions[0]), actions[1..], t);
    }
  }

  // ---------------------------------------------------------------------------
  // Exceptions
  // ---------------------------------------------------------------------------

  predicate Raises(a: Action) { a.Raise? || a.WriteRaises? || a.CancelRaises? }

  /** No exception but those in `e`. */
  predicate Within(actions: seq<Action>, e: iset<Action>)
  {
    forall i :: 0 <= i < |actions| && Raises(actions[i]) ==> actions[i] in e
  }

  ghost predicate Reaches(s: State, e: iset<Action>, t: State) { exists actions :: Leads(s, actions, t) && Within(actions, e) }

  /** The error path of the pid file can be cut short before its kill, with `left` in the file. */
  predicate FailsTwice(e: iset<Action>, left: PidFile) { WriteRaises(left) in e && Raise(WriteFailed) in e }

  /** No exception lets go of the group without a pid file that leads to it. */
  predicate KeepsTrack(e: iset<Action>)
  {
    && Raise(Forked) !in e && Raise(Unlinked) !in e && Raise(Tombed) !in e
    && !FailsTwice(e, Absent) && !FailsTwice(e, Partial)
  }

  /** Points behind the launch at which an exception ends the run with the pid still in the file. */
  predicate WithPid(at: RunPc) { at in {Written, Released, Relocking, Cleaning} }

  /** No exception ends the run between the launch and the kill. */
  predicate AlwaysKills(e: iset<Action>)
  {
    && Raise(Forked) !in e && Raise(Unlinked) !in e && Raise(Tombed) !in e
    && (forall at :: WithPid(at) ==> Raise(at) !in e) && (forall left :: !FailsTwice(e, left))
  }

  /** No exception leaves digits of the pid in the file for good. */
  predicate ClearsPid(e: iset<Action>)
  {
    (forall at :: WithPid(at) ==> Raise(at) !in e) && WriteRaises(Partial) !in e && WriteRaises(Pid) !in e
  }

  /** A failed write was one of those in `e`. */
  predicate FailedWithin(s: State, e: iset<Action>) { s.run == WriteFailed ==> WriteRaises(s.pidFile) in e }

  lemma StepIsWithin(actions: seq<Action>, e: iset<Action>)
    requires actions != [] && Within(actions, e)
    ensures (Raises(actions[0]) ==> actions[0] in e) && Within(actions[1..], e)
  {
  }

  lemma StepKeepsTrack(s: State, a: Action, e: iset<Action>)
    requires Inv(s) && !Lost(s) && FailedWithin(s, e) && KeepsTrack(e)
    requires Enabled(s, a) && (Raises(a) ==> a in e)
    ensures var t := Apply(s, a); !Lost(t) && FailedWithin(t, e)
  {
    hide FenceInv, LockInv, StrayInv;
  }

  lemma {:induction false} NeverLost(s: State, actions: seq<Action>, t: State, e: iset<Action>)
    requires Inv(s) && !Lost(s) && FailedWithin(s, e) && KeepsTrack(e) && Leads(s, actions, t) && Within(actions, e)
    ensures Inv(t) && !Lost(t) && FailedWithin(t, e)
    decreases |actions|
  {
    hide Inv, Lost, FailedWithin, KeepsTrack, Enabled, Apply;
    if actions != [] {
      StepIsWithin(actions, e);
      InvIsInductive(s, actions[0]);
      StepKeepsTrack(s, actions[0], e);
      NeverLost(Apply(s, actions[0]), actions[1..], t, e);
    }
  }

  /** The run killed its group before it finished. */
  predicate Tidy(s: State) { s.run == Finished ==> !GroupAlive(s) }

  lemma StepStaysTidy(s: State, a: Action, e: iset<Action>)
    requires Inv(s) && Tidy(s) && FailedWithin(s, e) && AlwaysKills(e)
    requires Enabled(s, a) && (Raises(a) ==> a in e)
    ensures var t := Apply(s, a); Tidy(t) && FailedWithin(t, e)
  {
    hide FenceInv, LockInv, StrayInv;
    assert a.Raise? ==> a == Raise(a.at) && !WithPid(a.at);
    assert FailsTwice(e, s.pidFile) <==> WriteRaises(s.pidFile) in e && Raise(WriteFailed) in e;
  }

  lemma {:induction false} StaysTidy(s: State, actions: seq<Action>, t: State, e: iset<Action>)
    requires Inv(s) && Tidy(s) && FailedWithin(s, e) && AlwaysKills(e) && Leads(s, actions, t) && Within(actions, e)
    ensures Tidy(t)
    decreases |actions|
  {
    hide Inv, Tidy, FailedWithin, AlwaysKills, Enabled, Apply;
    if actions != [] {
      StepIsWithin(actions, e);
      InvIsInductive(s, actions[0]);
      StepStaysTidy(s, actions[0], e);
      StaysTidy(Apply(s, actions[0]), actions[1..], t, e);
    }
  }

  /** No digits of the pid are left, nor will be. */
  predicate NoPidLeft(s: State) { s.run in {WriteFailed, FailKilled, FailReaped, Finished} ==> s.pidFile !in {Partial, Pid} }

  lemma StepLeavesNoPid(s: State, a: Action, e: iset<Action>)
    requires Inv(s) && NoPidLeft(s) && ClearsPid(e)
    requires Enabled(s, a) && (Raises(a) ==> a in e)
    ensures NoPidLeft(Apply(s, a))
  {
    hide FenceInv, LockInv, StrayInv;
  }

  lemma {:induction false} LeavesNoPid(s: State, actions: seq<Action>, t: State, e: iset<Action>)
    requires Inv(s) && NoPidLeft(s) && ClearsPid(e) && Leads(s, actions, t) && Within(actions, e)
    ensures NoPidLeft(t)
    decreases |actions|
  {
    hide Inv, NoPidLeft, ClearsPid, Enabled, Apply;
    if actions != [] {
      StepIsWithin(actions, e);
      InvIsInductive(s, actions[0]);
      StepLeavesNoPid(s, actions[0], e);
      LeavesNoPid(Apply(s, actions[0]), actions[1..], t, e);
    }
  }

  // ---------------------------------------------------------------------------
  // After a cancel
  // ---------------------------------------------------------------------------

  lemma DoneStaysDone(s: State, a: Action, id: nat)
    requires Inv(s) && !Lost(s) && CancelAt(s, id, CDone) && Enabled(s, a)
    ensures a != Launch && a != Fork && CancelAt(Apply(s, a), id, CDone)
  {
    assert s.cancels[id] == CDone;
  }

  lemma {:induction false} NothingLaunchedAfterCancel(s: State, actions: seq<Action>, t: State, e: iset<Action>, id: nat)
    requires Inv(s) && !Lost(s) && FailedWithin(s, e) && KeepsTrack(e) && Leads(s, actions, t) && Within(actions, e)
    requires CancelAt(s, id, CDone)
    ensures CancelAt(t, id, CDone) && forall i :: 0 <= i < |actions| ==> actions[i] != Launch && actions[i] != Fork
    decreases |actions|
  {
    hide Inv, Lost, FailedWithin, KeepsTrack, Enabled, Apply, CancelAt;
    if actions != [] {
      var rest := actions[1..];
      StepIsWithin(actions, e);
      InvIsInductive(s, actions[0]);
      StepKeepsTrack(s, actions[0], e);
      DoneStaysDone(s, actions[0], id);
      NothingLaunchedAfterCancel(Apply(s, actions[0]), rest, t, e, id);
      assert forall i :: 0 < i < |actions| ==> actions[i] == rest[i - 1];
    }
  }

  lemma DoneIsDead(s: State, id: nat)
    requires Inv(s) && CancelAt(s, id, CDone)
    ensures !Enabled(s, Launch) && (GroupAlive(s) <==> Lost(s))
  {
    assert s.cancels[id] == CDone;
  }

  /** In every interleaving whose exceptions keep track of the group: once a cancel has finished, no
      process of the group is alive, and none is launched or forked later. */
  lemma CancelIsFinal(start: State, before: seq<Action>, s: State, after: seq<Action>, t: State, e: iset<Action>, id: nat)
    requires Initial(start) && Leads(start, before, s) && CancelAt(s, id, CDone) && Leads(s, after, t)
    requires Within(before, e) && Within(after, e) && KeepsTrack(e)
    ensures !GroupAlive(s) && !GroupAlive(t)
    ensures forall i :: 0 <= i < |after| ==> after[i] != Launch && after[i] != Fork
  {
    InvHoldsInitially(start);
    NeverLost(start, before, s, e);
    NeverLost(s, after, t, e);
    NothingLaunchedAfterCancel(s, after, t, e, id);
    DoneIsDead(s, id);
    DoneIsDead(t, id);
  }

  /** In every interleaving, whatever raises: nothing is launched once a cancel has finished, and
      the group is alive then only if the run has finished and lost it. */
  lemma AliveAfterCancelIsLost(start: State, actions: seq<Action>, s: State, id: nat)
    requires Initial(start) && Leads(start, actions, s) && CancelAt(s, id, CDone)
    ensures !Enabled(s, Launch)
    ensures GroupAlive(s) <==> Lost(s)
  {
    InvHoldsInitially(start);
    InvOnRuns(start, actions, s);
    DoneIsDead(s, id);
  }

  /** In every interleaving in which no exception comes between the launch and the kill: when the
      run itself has finished, however it ended, nothing of the group is alive. */
  lemma FinishedRunLeavesNothing(start: State, actions: seq<Action>, s: State, e: iset<Action>)
    requires Initial(start) && Leads(start, actions, s) && Within(actions, e) && AlwaysKills(e) && s.run == Finished
    ensures !GroupAlive(s)
  {
    InvHoldsInitially(start);
    StaysTidy(start, actions, s, e);
  }

  // ---------------------------------------------------------------------------
  // Targets of kills
  // ---------------------------------------------------------------------------

  /** Every kill of the run targets an unreaped leader, and so does every kill that a cancel sends
      before the run has finished. A stray kill needs digits of the pid that outlived the run. */
  lemma KillsTargetUnreaped(start: State, actions: seq<Action>, s: State)
    requires Initial(start) && Leads(start, actions, s)
    ensures s.run in {WriteFailed, Tombed} ==> s.leader in {Alive, Zombie}
    ensures forall id :: CancelAt(s, id, CTargeting) && s.run != Finished ==> s.pidFile == Pid && s.leader in {Alive, Zombie}
    ensures s.stray ==> LeftPid(s)
  {
    InvHoldsInitially(start);
    InvOnRuns(start, actions, s);
    forall id | CancelAt(s, id, CTargeting) && s.run != Finished
      ensures s.pidFile == Pid && s.leader in {Alive, Zombie}
    {
      assert CancelHolds(s.cancels[id]) && s.lock == ByCancel(id) && !RunHolds(s.run);
    }
  }

  /** A run in which no exception leaves digits of the pid behind has no stray kill, and every kill
      that a cancel is about to send targets an unreaped leader. */
  lemma NoStrayKill(start: State, actions: seq<Action>, s: State, e: iset<Action>)
    requires Initial(start) && Leads(start, actions, s) && Within(actions, e) && ClearsPid(e)
    ensures !s.stray
    ensures forall id :: CancelAt(s, id, CTargeting) ==> s.pidFile == Pid && s.leader in {Alive, Zombie}
  {
    KillsTargetUnreaped(start, actions, s);
    InvHoldsInitially(start);
    InvOnRuns(start, actions, s);
    LeavesNoPid(start, actions, s, e);
    assert forall id :: CancelAt(s, id, CTargeting) ==> id in s.cancels && s.cancels[id] == CTargeting;
  }

  // ---------------------------------------------------------------------------
  // Constructing runs
  // ---------------------------------------------------------------------------

  lemma {:induction false} Compose(s: State, first: seq<Action>, t: State, second: seq<Action>, u: State)
    requires Leads(s, first, t) && Leads(t, second, u)
    ensures Leads(s, first + second, u)
    decreases |first|
  {
    if first == [] {
      assert first + second == second;
    } else {
      Compose(Apply(s, first[0]), first[1..], t, second, u);
      assert (first + second)[1..] == first[1..] + second;
    }
  }

  lemma Stay(s: State, e: iset<Action>)
    requires Initial(s)
    ensures Inv(s) && Reaches(s, e, s)
  {
    InvHoldsInitially(s);
    assert Leads(s, [], s) && Within([], e);
  }

  lemma Then(start: State, e: iset<Action>, s: State, step: Action) returns (t: State)
    requires Inv(s) && Reaches(start, e, s) && Enabled(s, step) && (Raises(step) ==> step in e)
    ensures Inv(t) && Reaches(start, e, t) && t == Apply(s, step)
  {
    hide Inv, Enabled, Apply;
    t := Apply(s, step);
    InvIsInductive(s, step);
    var first :| Leads(start, first, s) && Within(first, e);
    assert [step][1..] == [];
    assert Leads(s, [step], t);
    Compose(start, first, s, [step], t);
    assert Within(first + [step], e);
  }

  /** The state of a run without exceptions at a point behind its launch, with one more process in
      the group and no cancel begun; the leader exits while the run waits. */
  function RunAt(start: State, at: RunPc): State
  {
    start.(
      run := at,
      lock := if RunHolds(at) then ByRun else Nobody,
      tombstone := at == Tombed,
      pidFile := if at in {Written, Released, Waiting, Relocking, Cleaning} then Pid else Absent,
      leader := if at in {Relocking, Cleaning, Unlinked, Tombed} then Zombie else Alive,
      members := 1)
  }

  function Rank(at: RunPc): nat
  {
    match at
    case Forked => 1 case Spawned => 2 case Written => 3 case Released => 4 case Waiting => 5
    case Relocking => 6 case Cleaning => 7 case Unlinked => 8 case Tombed => 9
    case _ => 0
  }

  lemma RunForks(start: State, e: iset<Action>)
    requires Initial(start)
    ensures Inv(RunAt(start, Forked)) && Reaches(start, e, RunAt(start, Forked))
  {
    Stay(start, e);
    hide Inv, Reaches, Leads;
    var s := Then(start, e, start, RunLock);
    s := Then(start, e, s, Launch);
    s := Then(start, e, s, Fork);
  }

  lemma RunWaitsInVain(start: State, e: iset<Action>)
    requires Inv(RunAt(start, Waiting)) && Reaches(start, e, RunAt(start, Waiting))
    ensures Inv(RunAt(start, Relocking)) && Reaches(start, e, RunAt(start, Relocking))
  {
    hide Inv, Reaches, Leads;
    var s := Then(start, e, RunAt(start, Waiting), LeaderExits);
    s := Then(start, e, s, WaitEnds);
  }

  function Previous(at: RunPc): RunPc
  {
    match at
    case Spawned => Forked case Written => Spawned case Released => Written case Waiting => Released
    case Cleaning => Relocking case Unlinked => Cleaning case Tombed => Unlinked
    case _ => at
  }

  function StepTo(at: RunPc): Action
  {
    match at
    case Spawned => EnterWrite case Written => WritePid case Released => Release case Waiting => EnterWait
    case Cleaning => Relock case Unlinked => Unlink case Tombed => Touch
    case _ => Launch
  }

  lemma StepLeadsTo(start: State, at: RunPc)
    requires Initial(start) && Rank(at) > 1 && at != Relocking
    ensures Enabled(RunAt(start, Previous(at)), StepTo(at)) && !Raises(StepTo(at))
    ensures Apply(RunAt(start, Previous(at)), StepTo(at)) == RunAt(start, at)
  {
  }

  lemma {:induction false} RunTo(start: State, e: iset<Action>, at: RunPc)
    requires Initial(start) && Rank(at) > 0
    ensures Inv(RunAt(start, at)) && Reaches(start, e, RunAt(start, at))
    decreases Rank(at)
  {
    hide Inv, Reaches, Leads, RunAt, Initial, Enabled, Apply;
    if at == Forked {
      RunForks(start, e);
    } else if at == Relocking {
      RunTo(start, e, Waiting);
      RunWaitsInVain(start, e);
    } else {
      RunTo(start, e, Previous(at));
      StepLeadsTo(start, at);
      var s := Then(start, e, RunAt(start, Previous(at)), StepTo(at));
    }
  }

  /** A run cut short at a point between the launch and the kill ends with its group alive. */
  lemma RunIsCutShort(start: State, e: iset<Action>, at: RunPc) returns (s: State)
    requires Initial(start) && Raise(at) in e && (WithPid(at) || at in {Forked, Unlinked, Tombed})
    ensures Inv(s) && Reaches(start, e, s) && s.run == Finished && s.lock == Nobody && s.cancels == start.cancels
    ensures GroupAlive(s) && s.leader != NotLaunched && s.pidFile == if WithPid(at) then Pid else Absent
  {
    RunTo(start, e, at);
    hide Inv, Reaches, Leads;
    s := Then(start, e, RunAt(start, at), Raise(at));
  }

  lemma WriteFails(start: State, e: iset<Action>, left: PidFile) returns (s: State)
    requires Initial(start) && WriteRaises(left) in e
    ensures Inv(s) && Reaches(start, e, s) && s == RunAt(start, Spawned).(run := WriteFailed, pidFile := left)
  {
    RunTo(start, e, Spawned);
    hide Inv, Reaches, Leads;
    s := Then(start, e, RunAt(start, Spawned), WriteRaises(left));
  }

  /** The error path is cut short before its kill... */
  lemma RunFailsTwice(start: State, e: iset<Action>, left: PidFile) returns (s: State)
    requires Initial(start) && FailsTwice(e, left)
    ensures Inv(s) && Reaches(start, e, s) && s.run == Finished && s.lock == Nobody && s.cancels == start.cancels
    ensures GroupAlive(s) && s.pidFile == left
  {
    s := WriteFails(start, e, left);
    hide Inv, Reaches, Leads;
    s := Then(start, e, s, Raise(WriteFailed));
  }

  /** ...or kills and reaps the child but leaves the pid file. */
  lemma RunFails(start: State, e: iset<Action>, left: PidFile) returns (s: State)
    requires Initial(start) && WriteRaises(left) in e
    ensures Inv(s) && Reaches(start, e, s) && s.run == Finished && s.lock == Nobody && s.cancels == start.cancels
    ensures IdIsFree(s) && s.pidFile == left
  {
    s := WriteFails(start, e, left);
    hide Inv, Reaches, Leads;
    s := Then(start, e, s, KillAfterFailure);
    s := Then(start, e, s, ReapAfterFailure);
    s := Then(start, e, s, LeaveAfterFailure);
  }

  /** A finished run's group may end by itself, so that its id is free. */
  lemma {:induction false} GroupEnds(start: State, e: iset<Action>, s: State) returns (t: State)
    requires Inv(s) && Reaches(start, e, s) && s.run == Finished && s.leader != NotLaunched
    ensures Inv(t) && Reaches(start, e, t) && t == s.(leader := Reaped, members := 0)
    decreases s.members
  {
    hide Inv, Reaches, Leads;
    if s.members > 0 {
      t := Then(start, e, s, MemberExits);
      t := GroupEnds(start, e, t);
    } else {
      t := s;
      if t.leader == Alive {
        t := Then(start, e, t, LeaderExits);
      }
      if t.leader == Zombie {
        t := Then(start, e, t, OrphanReaped);
      }
    }
  }

  lemma CancelTombs(start: State, e: iset<Action>, s: State, id: nat) returns (t: State)
    requires Inv(s) && Reaches(start, e, s) && s.lock == Nobody && CancelAt(s, id, CStart)
    ensures Inv(t) && Reaches(start, e, t)
    ensures t == SetCancel(s, id, CTombed).(tombstone := true, lock := ByCancel(id))
  {
    hide Inv, Reaches, Leads;
    t := Then(start, e, s, CancelLock(id));
    t := Then(start, e, t, CancelTouch(id));
    assert s.cancels[id := CLocked][id := CTombed] == s.cancels[id := CTombed];
  }

  lemma CancelKillsFromFile(start: State, e: iset<Action>, s: State, id: nat) returns (t: State)
    requires Inv(s) && Reaches(start, e, s) && CancelAt(s, id, CTombed) && s.pidFile in {Partial, Pid}
    ensures Inv(t) && Reaches(start, e, t) && t.run == s.run && CancelAt(t, id, CLeaving)
    ensures GroupAlive(t) <==> GroupAlive(s) && s.pidFile == Partial
    ensures t.stray <==> s.stray || s.pidFile == Partial || IdIsFree(s)
  {
    hide Inv, Reaches, Leads;
    t := Then(start, e, s, CancelReadsPid(id));
    t := Then(start, e, t, CancelKills(id));
  }

  lemma CancelFindsNothing(start: State, e: iset<Action>, s: State, id: nat) returns (t: State)
    requires Inv(s) && Reaches(start, e, s) && CancelAt(s, id, CTombed) && s.pidFile in {Absent, Empty}
    ensures Inv(t) && Reaches(start, e, t) && t.run == s.run
    ensures CancelAt(t, id, if s.pidFile == Empty then CFailed else CLeaving)
    ensures (GroupAlive(t) <==> GroupAlive(s)) && t.stray == s.stray
  {
    hide Inv, Reaches, Leads;
    t := Then(start, e, s, if s.pidFile == Absent then CancelFindsNoPid(id) else CancelFindsEmpty(id));
  }

  lemma CancelEnds(start: State, e: iset<Action>, s: State, id: nat) returns (t: State)
    requires Inv(s) && Reaches(start, e, s) && CancelAt(s, id, CLeaving)
    ensures Inv(t) && Reaches(start, e, t) && t.run == s.run && CancelAt(t, id, CDone)
    ensures (GroupAlive(t) <==> GroupAlive(s)) && t.stray == s.stray
  {
    hide Inv, Reaches, Leads;
    t := Then(start, e, s, CancelLeaves(id));
  }

  /** A cancel that starts after the run has finished, with nobody in its way and nothing raised from
      outside, comes to an end: it fails exactly on an empty pid file, without a kill. Otherwise the
      group survives it exactly if it was lost, and its kill goes astray exactly if the file holds
      only some of the digits, or all of them with nobody left to hold the id. */
  lemma CancelAfterRun(start: State, e: iset<Action>, s: State, id: nat) returns (t: State)
    requires Inv(s) && Reaches(start, e, s) && s.run == Finished && s.lock == Nobody && CancelAt(s, id, CStart)
    ensures Inv(t) && Reaches(start, e, t) && t.run == Finished
    ensures CancelAt(t, id, if s.pidFile == Empty then CFailed else CDone)
    ensures GroupAlive(t) <==> Lost(s) || (s.pidFile == Empty && GroupAlive(s))
    ensures t.stray <==> s.stray || s.pidFile == Partial || (s.pidFile == Pid && IdIsFree(s))
  {
    hide Inv, Reaches, Leads;
    t := CancelTombs(start, e, s, id);
    assert CancelAt(t, id, CTombed);
    assert GroupAlive(t) == GroupAlive(s) && IdIsFree(t) == IdIsFree(s);
    assert s.pidFile.Absent? || s.pidFile.Empty? || s.pidFile in {Partial, Pid};
    if s.pidFile in {Partial, Pid} {
      t := CancelKillsFromFile(start, e, t, id);
    } else {
      t := CancelFindsNothing(start, e, t, id);
    }
    if s.pidFile != Empty {
      t := CancelEnds(start, e, t, id);
    }
  }

  /** The cancel has not got past the pid file. */
  predicate NotPast(s: State, id: nat)
  {
    id in s.cancels && s.cancels[id] in {CStart, CLocked, CTombed, CFailed}
  }

  lemma StepNotPast(s: State, a: Action, id: nat)
    requires s.run == Finished && s.pidFile == Empty && NotPast(s, id) && Enabled(s, a)
    ensures var t := Apply(s, a); t.run == Finished && t.pidFile == Empty && NotPast(t, id)
  {
  }

  /** And in no interleaving does a cancel finish that meets an empty pid file after the run. */
  lemma {:induction false} EmptyFileFailsCancel(s: State, actions: seq<Action>, t: State, id: nat)
    requires s.run == Finished && s.pidFile == Empty && NotPast(s, id) && Leads(s, actions, t)
    ensures NotPast(t, id) && !CancelAt(t, id, CDone)
    decreases |actions|
  {
    hide Enabled, Apply;
    if actions != [] {
      StepNotPast(s, actions[0], id);
      EmptyFileFailsCancel(Apply(s, actions[0]), actions[1..], t, id);
    }
  }

  // ---------------------------------------------------------------------------
  // The conditions are exact
  // ---------------------------------------------------------------------------

  /** Whatever exceptions are let loose: no group survives a finished cancel if and only if they keep
      track of the group. */
  lemma CancelIsFinalIff(start: State, e: iset<Action>, id: nat)
    requires Initial(start) && id in start.cancels
    ensures (forall s :: Reaches(start, e, s) && CancelAt(s, id, CDone) ==> !GroupAlive(s)) <==> KeepsTrack(e)
  {
    if KeepsTrack(e) {
      forall s | Reaches(start, e, s) && CancelAt(s, id, CDone)
        ensures !GroupAlive(s)
      {
        var actions :| Leads(start, actions, s) && Within(actions, e);
        assert Leads(s, [], s);
        CancelIsFinal(start, actions, s, [], s, e, id);
      }
    } else {
      GroupOutlivesCancel(start, e, id);
    }
  }

  lemma GroupOutlivesCancel(start: State, e: iset<Action>, id: nat)
    requires Initial(start) && id in start.cancels && !KeepsTrack(e)
    ensures exists s :: Reaches(start, e, s) && CancelAt(s, id, CDone) && GroupAlive(s)
  {
    assert start.cancels[id] == CStart;
    hide Inv, Reaches, Initial;
    var s: State;
    if FailsTwice(e, Absent) {
      s := RunFailsTwice(start, e, Absent);
    } else if FailsTwice(e, Partial) {
      s := RunFailsTwice(start, e, Partial);
    } else {
      s := RunIsCutShort(start, e, if Raise(Forked) in e then Forked else if Raise(Unlinked) in e then Unlinked else Tombed);
    }
    s := CancelAfterRun(start, e, s, id);
  }

  /** A finished run leaves no group if and only if no exception can come between launch and kill. */
  lemma FinishedRunLeavesNothingIff(start: State, e: iset<Action>)
    requires Initial(start)
    ensures (forall s :: Reaches(start, e, s) && s.run == Finished ==> !GroupAlive(s)) <==> AlwaysKills(e)
  {
    if AlwaysKills(e) {
      forall s | Reaches(start, e, s) && s.run == Finished
        ensures !GroupAlive(s)
      {
        var actions :| Leads(start, actions, s) && Within(actions, e);
        FinishedRunLeavesNothing(start, actions, s, e);
      }
    } else {
      GroupOutlivesRun(start, e);
    }
  }

  lemma GroupOutlivesRun(start: State, e: iset<Action>)
    requires Initial(start) && !AlwaysKills(e)
    ensures exists s :: Reaches(start, e, s) && s.run == Finished && GroupAlive(s)
  {
    hide Inv, Reaches, Initial;
    var s: State;
    if left: PidFile :| FailsTwice(e, left) {
      s := RunFailsTwice(start, e, left);
    } else {
      var at :| Raise(at) in e && (WithPid(at) || at in {Forked, Unlinked, Tombed});
      s := RunIsCutShort(start, e, at);
    }
  }

  /** No kill goes astray if and only if no exception leaves digits of the pid. */
  lemma NoStrayKillIff(start: State, e: iset<Action>, id: nat)
    requires Initial(start) && id in start.cancels
    ensures (forall s :: Reaches(start, e, s) ==> !s.stray) <==> ClearsPid(e)
  {
    if ClearsPid(e) {
      forall s | Reaches(start, e, s)
        ensures !s.stray
      {
        var actions :| Leads(start, actions, s) && Within(actions, e);
        NoStrayKill(start, actions, s, e);
      }
    } else {
      StrayKillHappens(start, e, id);
    }
  }

  lemma StrayKillHappens(start: State, e: iset<Action>, id: nat)
    requires Initial(start) && id in start.cancels && !ClearsPid(e)
    ensures exists s :: Reaches(start, e, s) && s.stray
  {
    assert start.cancels[id] == CStart;
    hide Inv, Reaches, Initial;
    var s: State;
    if at: RunPc :| WithPid(at) && Raise(at) in e {
      s := RunIsCutShort(start, e, at);
      s := GroupEnds(start, e, s);
    } else {
      s := RunFails(start, e, if WriteRaises(Partial) in e then Partial else Pid);
    }
    s := CancelAfterRun(start, e, s, id);
  }
}
