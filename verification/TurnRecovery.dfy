/** Start-up recovery of turns that a crash interrupted: the log is repaired, a missing history is
    seeded from the snapshot, an unfinished turn is failed, and the snapshot is rewritten from
    the log. */
module TurnRecovery {

  import opened Wrappers
  import opened TurnLog

  datatype Snapshot = Snapshot(
    turnId: string, sessionId: string, requestId: string,
    state: string, request: Doc, outcome: Doc)

  /** What one run directory holds. */
  datatype Disk = Disk(log: string, snapshot: Option<Snapshot>)

  /** The random event ids a recovery draws. */
  datatype Ids = Ids(accepted: string, terminal: string, failed: string)

  // ---------------------------------------------------------------------------
  // Committing an event
  // ---------------------------------------------------------------------------

  datatype Done<T> = Done(disk: Disk, result: Result<T, StorageError>)

  ghost function Commit(codec: Codec, disk: Disk, event: Event, snapshot: Option<Snapshot>): Done<()>
  {
    var appended := Append(codec, disk.log, event);
    if appended.result.Err? then Done(Disk(appended.file, disk.snapshot), appended.result)
    else Done(Disk(appended.file, if snapshot.Some? then snapshot else disk.snapshot), Ok(()))
  }

  // ---------------------------------------------------------------------------
  // Recovery as a function of the run directory
  // ---------------------------------------------------------------------------

  /** A snapshot must belong to the directory, and to the turn of the surviving records. */
  function SnapshotObjection(snapshot: Option<Snapshot>, turnId: string, records: seq<Event>): Option<StorageError>
  {
    if snapshot.None? then None
    else
      var s := snapshot.value;
      if s.turnId != turnId then Some(SnapshotMismatch)
      else if records != [] && !(s.turnId == records[0].turnId && s.sessionId == records[0].sessionId
                                 && s.requestId == records[0].requestId) then Some(SnapshotMismatch)
      else None
  }

  predicate IsFinished(state: string) { state in {"completed", "failed", "cancelled"} }

  function SeedAccepted(s: Snapshot, id: string): Event
  {
    Event(FORMAT_VERSION, id, "turn.accepted", s.turnId, s.sessionId, s.requestId, 1, s.request, map[])
  }

  function SeedTerminal(s: Snapshot, id: string): Event
  {
    Event(FORMAT_VERSION, id, "turn." + s.state, s.turnId, s.sessionId, s.requestId, 2, map[], s.outcome)
  }

  /** The history the snapshot stands for. */
  function Seeds(s: Snapshot, ids: Ids): seq<Event>
  {
    [SeedAccepted(s, ids.accepted)] + if IsFinished(s.state) then [SeedTerminal(s, ids.terminal)] else []
  }

  ghost function Seed(codec: Codec, log: string, snapshot: Option<Snapshot>, ids: Ids, records: seq<Event>): Outcome<seq<Event>>
  {
    if records != [] || snapshot.None? then Outcome(log, Ok(records))
    else
      var s := snapshot.value;
      if s.turnId == "" || s.sessionId == "" || s.requestId == "" then Outcome(log, Err(MissingIds))
      else
        var first := Append(codec, log, SeedAccepted(s, ids.accepted));
        if first.result.Err? then Outcome(first.file, Err(first.result.error))
        else if !IsFinished(s.state) then Outcome(first.file, Ok(Seeds(s, ids)))
        else
          var second := Append(codec, first.file, SeedTerminal(s, ids.terminal));
          if second.result.Err? then Outcome(second.file, Err(second.result.error))
          else Outcome(second.file, Ok(Seeds(s, ids)))
  }

  function RequestOf(records: seq<Event>, snapshot: Option<Snapshot>): Doc
    requires records != []
  {
    if records[0].request == map[] && snapshot.Some? then snapshot.value.request else records[0].request
  }

  /** The last terminal record. */
  function TerminalOf(records: seq<Event>): (r: Event)
    requires HasTerminal(records)
    ensures IsTerminal(r) && r in records
  {
    if IsTerminal(records[|records| - 1]) then records[|records| - 1]
    else
      assert records[..|records| - 1] + [records[|records| - 1]] == records;
      var i :| 0 <= i < |records| && IsTerminal(records[i]);
      assert records[..|records| - 1][i] == records[i];
      TerminalOf(records[..|records| - 1])
  }

  /** The snapshot that a finished log stands for. */
  function Project(records: seq<Event>, snapshot: Option<Snapshot>): Snapshot
    requires HasTerminal(records)
  {
    var terminal := TerminalOf(records);
    Snapshot(records[0].turnId, records[0].sessionId, records[0].requestId,
             StateOf(terminal.kind), RequestOf(records, snapshot), terminal.payload)
  }

  function StateOf(kind: string): string
  {
    if "turn." <= kind then kind[5..] else kind
  }

  function FailureOutcome(first: Event): Doc
  {
    map["turn_id" := first.turnId, "request_id" := first.requestId, "session_id" := first.sessionId,
        "state" := "failed", "final_answer" := "", "error" := INTERRUPTED]
  }

  function Failure(records: seq<Event>, id: string): Event
    requires records != []
  {
    var first := records[0];
    Event(FORMAT_VERSION, id, "turn.failed", first.turnId, first.sessionId, first.requestId,
          |records| + 1, map[], FailureOutcome(first))
  }

  function FailureSnapshot(records: seq<Event>, snapshot: Option<Snapshot>): Snapshot
    requires records != []
  {
    Snapshot(records[0].turnId, records[0].sessionId, records[0].requestId, "failed",
             RequestOf(records, snapshot), FailureOutcome(records[0]))
  }

  /** Recovery of one run directory; the result says whether the turn was failed by it. */
  ghost function Recover(codec: Codec, turnId: string, disk: Disk, ids: Ids): Done<bool>
  {
    var read := Read(codec, disk.log, true);
    match read.result
    case Err(error) => Done(Disk(read.file, disk.snapshot), Err(error))
    case Ok(found) =>
      var mismatch := SnapshotObjection(disk.snapshot, turnId, found);
      if mismatch.Some? then Done(Disk(read.file, disk.snapshot), Err(mismatch.value))
      else
        var seeded := Seed(codec, read.file, disk.snapshot, ids, found);
        match seeded.result
        case Err(error) => Done(Disk(seeded.file, disk.snapshot), Err(error))
        case Ok(records) => Finish(codec, seeded.file, disk.snapshot, ids, records)
  }

  ghost function Finish(codec: Codec, log: string, snapshot: Option<Snapshot>, ids: Ids, records: seq<Event>): Done<bool>
  {
    var objection := HistoryObjection(records);
    if objection.Some? then Done(Disk(log, snapshot), Err(objection.value))
    else if HasTerminal(records) then Done(Disk(log, Some(Project(records, snapshot))), Ok(false))
    else if records == [] then Done(Disk(log, snapshot), Ok(false))
    else
      var appended := Append(codec, log, Failure(records, ids.failed));
      if appended.result.Err? then Done(Disk(appended.file, snapshot), Err(appended.result.error))
      else Done(Disk(appended.file, Some(FailureSnapshot(records, snapshot))), Ok(true))
  }

  // ---------------------------------------------------------------------------
  // The run directory between operations
  // ---------------------------------------------------------------------------

  ghost predicate Matches(snapshot: Option<Snapshot>, turnId: string, records: seq<Event>)
  {
    SnapshotObjection(snapshot, turnId, records).None?
  }

  /** The log holds `records`, perhaps with a torn line behind them, all of the turn the directory
      is named after; the snapshot, however stale, is absent or of that turn. */
  ghost predicate Consistent(codec: Codec, turnId: string, disk: Disk, records: seq<Event>)
  {
    && Holds(codec, disk.log, records)
    && HistoryObjection(records).None?
    && (records != [] ==> records[0].turnId == turnId)
    && Matches(disk.snapshot, turnId, records)
  }

  /** The history recovery leaves: the surviving records, failed if they were unfinished. */
  ghost function Closed(records: seq<Event>, ids: Ids): seq<Event>
    requires records != []
  {
    if HasTerminal(records) then records else records + [Failure(records, ids.failed)]
  }

  ghost predicate FreshFor(records: seq<Event>, ids: Ids)
  {
    && !HasId(records, ids.failed)
    && ids.accepted != ids.terminal && ids.accepted != ids.failed && ids.terminal != ids.failed
  }

  lemma FailureIsAccepted(records: seq<Event>, ids: Ids)
    requires records != [] && HistoryObjection(records).None? && !HasTerminal(records) && FreshFor(records, ids)
    ensures HistoryObjection(records + [Failure(records, ids.failed)]).None?
  {
    var all := records + [Failure(records, ids.failed)];
    assert all[..|all| - 1] == records;
  }

  lemma TerminalComesLast(records: seq<Event>)
    requires HistoryObjection(records).None? && HasTerminal(records)
    ensures IsTerminal(records[|records| - 1])
    ensures forall i :: 0 <= i < |records| - 1 ==> !IsTerminal(records[i])
    ensures TerminalOf(records) == records[|records| - 1]
  {
    AcceptedIsWellFormed(records);
  }

  lemma RecoverFinishes(codec: Codec, turnId: string, disk: Disk, ids: Ids, records: seq<Event>)
    requires Faithful(codec) && Holds(codec, disk.log, records) && records != []
    requires Matches(disk.snapshot, turnId, records)
    ensures Recover(codec, turnId, disk, ids) == Finish(codec, Encoded(codec, records), disk.snapshot, ids, records)
  {
    ReadRepairs(codec, disk.log, records);
  }

  lemma FinishFails(codec: Codec, snapshot: Option<Snapshot>, ids: Ids, records: seq<Event>)
    requires Faithful(codec) && HistoryObjection(records).None? && records != [] && !HasTerminal(records)
    requires FreshFor(records, ids)
    ensures HasTerminal(Closed(records, ids))
    ensures Finish(codec, Encoded(codec, records), snapshot, ids, records)
         == Done(Disk(Encoded(codec, Closed(records, ids)), Some(Project(Closed(records, ids), snapshot))), Ok(true))
  {
    var failure := Failure(records, ids.failed);
    var closed := records + [failure];
    assert IsTerminal(closed[|records|]);
    WholeLinesHold(codec, records);
    AppendWrites(codec, Encoded(codec, records), records, failure);
    assert TerminalOf(closed) == failure && closed[0] == records[0];
    assert StateOf("turn.failed") == "failed";
  }

  /** Recovery of a directory with surviving records, stated outright. */
  lemma RecoverSurvivors(codec: Codec, turnId: string, disk: Disk, ids: Ids, records: seq<Event>)
    requires Faithful(codec) && Consistent(codec, turnId, disk, records) && records != []
    requires HasTerminal(records) || FreshFor(records, ids)
    ensures HasTerminal(Closed(records, ids))
    ensures Recover(codec, turnId, disk, ids)
         == Done(Disk(Encoded(codec, Closed(records, ids)), Some(Project(Closed(records, ids), disk.snapshot))),
                 Ok(!HasTerminal(records)))
  {
    RecoverFinishes(codec, turnId, disk, ids, records);
    if !HasTerminal(records) {
      FinishFails(codec, disk.snapshot, ids, records);
    }
  }

  /** Snapshots of another directory's turn and of another turn than the log's are what recovery
      refuses, and then it changes nothing but a torn line. */
  lemma ForeignSnapshotIsRefused(codec: Codec, turnId: string, disk: Disk, ids: Ids, records: seq<Event>)
    requires Faithful(codec) && Holds(codec, disk.log, records) && records != []
    requires HistoryObjection(records).None? && (HasTerminal(records) || FreshFor(records, ids))
    ensures var done := Recover(codec, turnId, disk, ids);
            var foreign := disk.snapshot.Some?
                           && (disk.snapshot.value.turnId != turnId || disk.snapshot.value.turnId != records[0].turnId
                               || disk.snapshot.value.sessionId != records[0].sessionId
                               || disk.snapshot.value.requestId != records[0].requestId);
            if foreign then done == Done(Disk(Encoded(codec, records), disk.snapshot), Err(SnapshotMismatch))
            else done.result == Ok(!HasTerminal(records))
  {
    hide Append, Finish;
    ReadRepairs(codec, disk.log, records);
    FinishSucceeds(codec, disk.snapshot, ids, records);
  }

  lemma FinishSucceeds(codec: Codec, snapshot: Option<Snapshot>, ids: Ids, records: seq<Event>)
    requires Faithful(codec) && HistoryObjection(records).None? && records != []
    requires HasTerminal(records) || FreshFor(records, ids)
    ensures Finish(codec, Encoded(codec, records), snapshot, ids, records).result == Ok(!HasTerminal(records))
  {
    if !HasTerminal(records) { FinishFails(codec, snapshot, ids, records); }
  }

  /** The event says of the turn, beside its own ids and kind, the same in its payload, and that a
      restart cut the turn short. */
  ghost predicate SaysInterrupted(e: Event)
  {
    && e.kind == "turn.failed"
    && {"turn_id", "session_id", "request_id", "state", "final_answer", "error"} <= e.payload.Keys
    && e.payload["turn_id"] == e.turnId && e.payload["session_id"] == e.sessionId && e.payload["request_id"] == e.requestId
    && "turn." + e.payload["state"] == e.kind && e.payload["final_answer"] == ""
    && e.payload["error"] == "interrupted by process restart" && WasInterrupted(e.payload)
  }

  /** The snapshot has the ids of the log, the state that the kind of its last event names and that
      event's payload; its request is that of the first event, or the old snapshot's if that event
      has none. */
  ghost predicate IsProjection(s: Snapshot, log: seq<Event>, before: Option<Snapshot>)
  {
    && log != [] && s.turnId == log[0].turnId && s.sessionId == log[0].sessionId && s.requestId == log[0].requestId
    && "turn." + s.state == log[|log| - 1].kind && s.outcome == log[|log| - 1].payload
    && (log[0].request != map[] ==> s.request == log[0].request)
    && (log[0].request == map[] && before.Some? ==> s.request == before.value.request)
    && (log[0].request == map[] && before.None? ==> s.request == map[])
  }

  lemma FailureSaysInterrupted(records: seq<Event>, id: string)
    requires records != []
    ensures SaysInterrupted(Failure(records, id)) && Failure(records, id).eventId == id
  {
    assert "turn." + "failed" == "turn.failed";
  }

  lemma ProjectProjects(records: seq<Event>, snapshot: Option<Snapshot>)
    requires records != [] && IsTerminal(records[|records| - 1])
    ensures HasTerminal(records) && IsProjection(Project(records, snapshot), records, snapshot)
    ensures Matches(Some(Project(records, snapshot)), records[0].turnId, records)
  {
    var kind := records[|records| - 1].kind;
    assert "turn." <= kind && "turn." + kind[5..] == kind;
  }

  /** For every committed history, every point at which a crash cut the last line, and a stale
      or missing snapshot: recovery leaves a log that the validator accepts, that is the committed
      records plus at most one `turn.failed`, has exactly one terminal event, placed last, and a
      snapshot that is the projection of that log. */
  lemma RecoveryClosesTheTurn(codec: Codec, turnId: string, disk: Disk, ids: Ids, records: seq<Event>)
    requires Faithful(codec) && Consistent(codec, turnId, disk, records) && records != [] && FreshFor(records, ids)
    ensures var done := Recover(codec, turnId, disk, ids);
            var closed := Closed(records, ids);
            && done.result == Ok(!HasTerminal(records))
            && Read(codec, done.disk.log, false) == Outcome(done.disk.log, Ok(closed))
            && WellFormedLog(closed)
            && (if HasTerminal(records) then closed == records
                else closed[..|records|] == records && |closed| == |records| + 1
                     && closed[|records|].eventId == ids.failed && SaysInterrupted(closed[|records|]))
            && IsTerminal(closed[|closed| - 1])
            && (forall i :: 0 <= i < |closed| - 1 ==> !IsTerminal(closed[i]))
            && HasTerminal(closed)
            && done.disk.snapshot == Some(Project(closed, disk.snapshot))
            && IsProjection(Project(closed, disk.snapshot), closed, disk.snapshot)
            && Consistent(codec, turnId, done.disk, closed)
  {
    var closed := Closed(records, ids);
    FailureSaysInterrupted(records, ids.failed);
    hide SaysInterrupted, IsProjection, Project, FailureOutcome, Recover, Read, Matches;
    RecoverSurvivors(codec, turnId, disk, ids, records);
    if !HasTerminal(records) {
      FailureIsAccepted(records, ids);
    }
    TerminalComesLast(closed);
    ProjectProjects(closed, disk.snapshot);
    AcceptedIsWellFormed(closed);
    WholeLinesHold(codec, closed);
    ReadWhole(codec, closed);
  }

  lemma ReadWhole(codec: Codec, records: seq<Event>)
    requires Faithful(codec)
    ensures forall repair :: Read(codec, Encoded(codec, records), repair) == Outcome(Encoded(codec, records), Ok(records))
  {
    TornTailIsCut(codec, records, "");
    assert Encoded(codec, records) + "" == Encoded(codec, records);
    ReadingGivesWritten(codec, records);
  }

  // ---------------------------------------------------------------------------
  // No surviving record: the history is seeded from the snapshot
  // ---------------------------------------------------------------------------

  ghost predicate Identified(s: Snapshot, turnId: string)
  {
    s.turnId == turnId && s.turnId != "" && s.sessionId != "" && s.requestId != ""
  }

  lemma SeedsAreAccepted(s: Snapshot, ids: Ids)
    requires ids.accepted != ids.terminal
    ensures HistoryObjection(Seeds(s, ids)).None?
    ensures HasTerminal(Seeds(s, ids)) <==> IsFinished(s.state)
    ensures Objection([], SeedAccepted(s, ids.accepted)).None?
    ensures IsFinished(s.state) ==> Objection([SeedAccepted(s, ids.accepted)], SeedTerminal(s, ids.terminal)).None?
  {
    var first := [SeedAccepted(s, ids.accepted)];
    assert first[..|first| - 1] == [];
    assert Objection([], first[0]).None? && HistoryObjection([]).None?;
    assert HistoryObjection(first).None?;
    if IsFinished(s.state) {
      var both := Seeds(s, ids);
      assert both[..1] == first;
      assert "turn." + "completed" == "turn.completed";
      assert "turn." + "failed" == "turn.failed";
      assert "turn." + "cancelled" == "turn.cancelled";
      assert IsTerminal(both[1]);
    } else {
      assert Seeds(s, ids) == first;
    }
  }

  lemma SeedWrites(codec: Codec, s: Snapshot, ids: Ids)
    requires Faithful(codec) && ids.accepted != ids.terminal && Identified(s, s.turnId)
    ensures Seed(codec, "", Some(s), ids, []) == Outcome(Encoded(codec, Seeds(s, ids)), Ok(Seeds(s, ids)))
  {
    var first := SeedAccepted(s, ids.accepted);
    SeedsAreAccepted(s, ids);
    WholeLinesHold(codec, []);
    AppendWrites(codec, "", [], first);
    assert [] + [first] == [first];
    if IsFinished(s.state) {
      WholeLinesHold(codec, [first]);
      AppendWrites(codec, Encoded(codec, [first]), [first], SeedTerminal(s, ids.terminal));
    } else {
      assert Seeds(s, ids) == [first];
    }
  }

  lemma RecoverSeeds(codec: Codec, turnId: string, disk: Disk, s: Snapshot, ids: Ids)
    requires Faithful(codec) && Holds(codec, disk.log, []) && disk.snapshot == Some(s) && Identified(s, turnId)
    requires ids.accepted != ids.terminal
    ensures Recover(codec, turnId, disk, ids)
         == Recover(codec, turnId, Disk(Encoded(codec, Seeds(s, ids)), disk.snapshot), ids)
  {
    var seeds := Seeds(s, ids);
    ReadRepairs(codec, disk.log, []);
    SeedWrites(codec, s, ids);
    ReadWhole(codec, seeds);
    assert seeds[0] == SeedAccepted(s, ids.accepted);
  }

  /** A snapshot that lacks one of its ids seeds nothing. */
  lemma AnonymousSnapshotIsRefused(codec: Codec, turnId: string, disk: Disk, s: Snapshot, ids: Ids)
    requires Faithful(codec) && Holds(codec, disk.log, []) && disk.snapshot == Some(s) && s.turnId == turnId
    requires s.turnId == "" || s.sessionId == "" || s.requestId == ""
    ensures Recover(codec, turnId, disk, ids) == Done(Disk("", disk.snapshot), Err(MissingIds))
  {
    ReadRepairs(codec, disk.log, []);
  }

  /** A commit appends its event, or reports the objection; the snapshot is replaced only behind an
      appended event, and only by one that is given. */
  lemma CommitMeans(codec: Codec, disk: Disk, records: seq<Event>, event: Event, snapshot: Option<Snapshot>)
    requires Faithful(codec) && Holds(codec, disk.log, records)
    ensures var done := Commit(codec, disk, event, snapshot);
            && (done.result.Ok? <==> Objection(records, event).None?)
            && done.disk.log == Encoded(codec, if done.result.Ok? then records + [event] else records)
            && (done.result.Ok? && snapshot.Some? ==> done.disk.snapshot == snapshot)
            && (done.result.Err? || snapshot.None? ==> done.disk.snapshot == disk.snapshot)
            && (done.result.Err? ==> Objection(records, event) == Some(done.result.error))
  {
    AppendWrites(codec, disk.log, records, event);
  }

  /** The log stands for the snapshot: its acceptance with its request, and if it is finished the event
      that ended it with its outcome. */
  ghost predicate StandsFor(log: seq<Event>, s: Snapshot)
  {
    && 1 <= |log| <= 2 && log[0].kind == "turn.accepted" && log[0].request == s.request
    && (forall i :: 0 <= i < |log| ==>
          log[i].turnId == s.turnId && log[i].sessionId == s.sessionId && log[i].requestId == s.requestId)
    && (|log| == 2 <==> s.state in {"completed", "failed", "cancelled"})
    && (|log| == 2 ==> log[1].kind == "turn." + s.state && log[1].payload == s.outcome)
  }

  /** A turn known only from its snapshot is recovered from it: a finished one with its own state
      and outcome, an unfinished one as failed; the request survives either way. */
  lemma RecoverFromSnapshot(codec: Codec, turnId: string, disk: Disk, s: Snapshot, ids: Ids)
    requires Faithful(codec) && Holds(codec, disk.log, []) && disk.snapshot == Some(s) && Identified(s, turnId)
    requires FreshFor(Seeds(s, ids), ids)
    ensures var done := Recover(codec, turnId, disk, ids);
            var closed := Closed(Seeds(s, ids), ids);
            && done.result == Ok(!IsFinished(s.state))
            && HasTerminal(closed)
            && done.disk == Disk(Encoded(codec, closed), Some(Project(closed, disk.snapshot)))
            && Consistent(codec, turnId, done.disk, closed)
            && StandsFor(Seeds(s, ids), s)
            && (!IsFinished(s.state) ==> SaysInterrupted(closed[1]))
            && IsProjection(Project(closed, disk.snapshot), closed, disk.snapshot)
            && Project(closed, disk.snapshot).request == s.request
            && (if IsFinished(s.state)
                then Project(closed, disk.snapshot) == s
                else Project(closed, disk.snapshot).state == "failed")
  {
    var seeds := Seeds(s, ids);
    RecoverSeeds(codec, turnId, disk, s, ids);
    SeedsAreAccepted(s, ids);
    WholeLinesHold(codec, seeds);
    var seeded := Disk(Encoded(codec, seeds), disk.snapshot);
    RecoveryClosesTheTurn(codec, turnId, seeded, ids, seeds);
    RecoverSurvivors(codec, turnId, seeded, ids, seeds);
    ProjectSeeds(s, ids);
  }

  lemma ProjectSeeds(s: Snapshot, ids: Ids)
    requires ids.accepted != ids.terminal && HasTerminal(Closed(Seeds(s, ids), ids))
    ensures var projected := Project(Closed(Seeds(s, ids), ids), Some(s));
            && projected.request == s.request
            && (if IsFinished(s.state) then projected == s else projected.state == "failed")
  {
    var seeds := Seeds(s, ids);
    SeedsAreAccepted(s, ids);
    if IsFinished(s.state) {
      assert IsTerminal(seeds[1]) && TerminalOf(seeds) == SeedTerminal(s, ids.terminal);
      assert ("turn." + s.state)[5..] == s.state;
    } else {
      assert TerminalOf(Closed(seeds, ids)) == Failure(seeds, ids.failed);
      assert StateOf("turn.failed") == "failed";
    }
  }

  // ---------------------------------------------------------------------------
  // Recovering twice
  // ---------------------------------------------------------------------------

  lemma ProjectionIsStable(records: seq<Event>, snapshot: Option<Snapshot>)
    requires HasTerminal(records)
    ensures Project(records, Some(Project(records, snapshot))) == Project(records, snapshot)
  {
  }

  lemma FinishedIsFixed(codec: Codec, turnId: string, disk: Disk, ids: Ids, records: seq<Event>, before: Option<Snapshot>)
    requires Faithful(codec) && Consistent(codec, turnId, disk, records) && HasTerminal(records)
    requires disk == Disk(Encoded(codec, records), Some(Project(records, before)))
    ensures Recover(codec, turnId, disk, ids) == Done(disk, Ok(false))
  {
    RecoverSurvivors(codec, turnId, disk, ids, records);
    ProjectionIsStable(records, before);
  }

  /** After a successful recovery a second one recovers nothing, leaves the log as it is and
      writes the identical snapshot, whatever ids it draws; also when the whole history, or only
      the request, came from the old snapshot. */
  lemma RecoveryIsIdempotent(codec: Codec, turnId: string, disk: Disk, records: seq<Event>, ids: Ids, ids': Ids)
    requires Faithful(codec) && Consistent(codec, turnId, disk, records)
    requires records == [] && disk.snapshot.Some? ==> Identified(disk.snapshot.value, turnId)
    requires FreshFor(if records == [] && disk.snapshot.Some? then Seeds(disk.snapshot.value, ids) else records, ids)
    ensures var done := Recover(codec, turnId, disk, ids);
            done.result.Ok? && Recover(codec, turnId, done.disk, ids') == Done(done.disk, Ok(false))
  {
    if records != [] {
      RecoveryClosesTheTurn(codec, turnId, disk, ids, records);
      RecoverSurvivors(codec, turnId, disk, ids, records);
      var done := Recover(codec, turnId, disk, ids);
      FinishedIsFixed(codec, turnId, done.disk, ids', Closed(records, ids), disk.snapshot);
    } else if disk.snapshot.Some? {
      var s := disk.snapshot.value;
      RecoverFromSnapshot(codec, turnId, disk, s, ids);
      var done := Recover(codec, turnId, disk, ids);
      FinishedIsFixed(codec, turnId, done.disk, ids', Closed(Seeds(s, ids), ids), disk.snapshot);
    } else {
      ReadRepairs(codec, disk.log, []);
      ReadWhole(codec, []);
    }
  }

  /** The recovery never compares the ids in the log with the directory name unless there is a
      snapshot. So for a log without snapshot the first pass always succeeds, and the second one
      does exactly when the log belongs to the directory. */
  lemma SecondPassNeedsMatchingId(codec: Codec, turnId: string, disk: Disk, records: seq<Event>, ids: Ids, ids': Ids)
    requires Faithful(codec) && Holds(codec, disk.log, records) && HistoryObjection(records).None?
    requires records != [] && disk.snapshot.None? && FreshFor(records, ids)
    ensures var done := Recover(codec, turnId, disk, ids);
            && done.result.Ok?
            && (Recover(codec, turnId, done.disk, ids').result.Ok? <==> records[0].turnId == turnId)
  {
    var owner := records[0].turnId;
    RecoverSurvivors(codec, owner, disk, ids, records);
    RecoveryClosesTheTurn(codec, owner, disk, ids, records);
    assert Recover(codec, turnId, disk, ids) == Recover(codec, owner, disk, ids);
    var done := Recover(codec, turnId, disk, ids);
    ReadWhole(codec, Closed(records, ids));
    if owner == turnId {
      FinishedIsFixed(codec, turnId, done.disk, ids', Closed(records, ids), disk.snapshot);
    }
  }

  /** A crash inside the seeding can cut the two seeded lines anywhere. A finished turn keeps its
      state exactly when the cut leaves no whole first line, or both lines whole, or the turn had
      failed anyway; between the two lines a completed turn is recovered as failed. */
  lemma SeedingCrash(codec: Codec, turnId: string, s: Snapshot, ids: Ids, ids': Ids, first: nat, second: nat)
    requires Faithful(codec) && Identified(s, turnId) && IsFinished(s.state) && ids.accepted != ids.terminal
    requires first <= |LineOf(codec, SeedAccepted(s, ids.accepted))|
    requires second <= |LineOf(codec, SeedTerminal(s, ids.terminal))|
    requires second > 0 ==> first == |LineOf(codec, SeedAccepted(s, ids.accepted))|
    requires FreshFor([SeedAccepted(s, ids.accepted)], ids') && FreshFor(Seeds(s, ids'), ids')
    ensures var log := LineOf(codec, SeedAccepted(s, ids.accepted))[..first] + LineOf(codec, SeedTerminal(s, ids.terminal))[..second];
            var done := Recover(codec, turnId, Disk(log, Some(s)), ids');
            && done.disk.snapshot.Some?
            && (done.disk.snapshot.value.state == s.state
                <==> first < |LineOf(codec, SeedAccepted(s, ids.accepted))|
                     || second == |LineOf(codec, SeedTerminal(s, ids.terminal))|
                     || s.state == "failed")
  {
    var accepted, terminal := SeedAccepted(s, ids.accepted), SeedTerminal(s, ids.terminal);
    var one, two := LineOf(codec, accepted), LineOf(codec, terminal);
    var log := one[..first] + two[..second];
    var disk := Disk(log, Some(s));
    SeedsAreAccepted(s, ids);
    if first < |one| {
      CrashCutsOneRecord(codec, [], accepted, first);
      assert log == Encoded(codec, []) + one[..first];
      RecoverFromSnapshot(codec, turnId, disk, s, ids');
    } else {
      EncodedAppend(codec, [], accepted);
      assert [] + [accepted] == [accepted] && log == Encoded(codec, [accepted]) + two[..second];
      SecondLineCut(codec, turnId, s, ids, ids', second, log);
    }
  }

  lemma SecondLineCut(codec: Codec, turnId: string, s: Snapshot, ids: Ids, ids': Ids, second: nat, log: string)
    requires Faithful(codec) && Identified(s, turnId) && IsFinished(s.state) && ids.accepted != ids.terminal
    requires second <= |LineOf(codec, SeedTerminal(s, ids.terminal))|
    requires log == Encoded(codec, [SeedAccepted(s, ids.accepted)]) + LineOf(codec, SeedTerminal(s, ids.terminal))[..second]
    requires FreshFor([SeedAccepted(s, ids.accepted)], ids')
    ensures var done := Recover(codec, turnId, Disk(log, Some(s)), ids');
            && done.disk.snapshot.Some?
            && (done.disk.snapshot.value.state == s.state
                <==> second == |LineOf(codec, SeedTerminal(s, ids.terminal))| || s.state == "failed")
  {
    var accepted, terminal := SeedAccepted(s, ids.accepted), SeedTerminal(s, ids.terminal);
    SeedsAreAccepted(s, ids);
    FirstSeedAccepted(accepted);
    CrashCutsOneRecord(codec, [accepted], terminal, second);
    if second < |LineOf(codec, terminal)| {
      RecoverSurvivors(codec, turnId, Disk(log, Some(s)), ids', [accepted]);
      assert TerminalOf(Closed([accepted], ids')) == Failure([accepted], ids'.failed);
      assert StateOf("turn.failed") == "failed";
    } else {
      assert [accepted] + [terminal] == Seeds(s, ids);
      RecoverSurvivors(codec, turnId, Disk(log, Some(s)), ids', Seeds(s, ids));
      assert Closed(Seeds(s, ids), ids') == Seeds(s, ids) && TerminalOf(Seeds(s, ids)) == terminal;
      assert ("turn." + s.state)[5..] == s.state;
    }
  }

  lemma FirstSeedAccepted(accepted: Event)
    requires Objection([], accepted).None?
    ensures HistoryObjection([accepted]).None?
  {
    assert [accepted][..0] == [] && HistoryObjection([]).None?;
  }

  // ---------------------------------------------------------------------------
  // Whole runs: commits, crashes and recoveries in any order
  // ---------------------------------------------------------------------------

  datatype Action =
    | CommitEvent(event: Event, snapshot: Option<Snapshot>)
    | CrashInCommit(event: Event, cut: nat)
    | RecoverTurn(ids: Ids)
    | CrashInRecovery(ids: Ids, cut: nat)

  /** The records of a log that holds whole lines and perhaps a torn one. */
  ghost function Records(codec: Codec, disk: Disk): seq<Event>
  {
    if exists records :: Holds(codec, disk.log, records)
    then var records :| Holds(codec, disk.log, records); records
    else []
  }

  /** One action of the runtime or of a crash. Commits concern the turn of the directory, and a
      snapshot is written only together with an event of the same turn. */
  ghost predicate Next(codec: Codec, turnId: string, before: Disk, action: Action, after: Disk)
  {
    var records := Records(codec, before);
    match action
    case CommitEvent(event, snapshot) =>
      && event.turnId == turnId
      && Matches(snapshot, turnId, records + [event])
      && after == Commit(codec, before, event, snapshot).disk
    case CrashInCommit(event, cut) =>
      && event.turnId == turnId && Objection(records, event).None? && cut <= |LineOf(codec, event)|
      && after == before.(log := Encoded(codec, records) + LineOf(codec, event)[..cut])
    case RecoverTurn(ids) =>
      && FreshFor(records, ids)
      && after == Recover(codec, turnId, before, ids).disk
    case CrashInRecovery(ids, cut) =>
      && FreshFor(records, ids)
      && records != [] && !HasTerminal(records) && cut <= |LineOf(codec, Failure(records, ids.failed))|
      && after == before.(log := Encoded(codec, records) + LineOf(codec, Failure(records, ids.failed))[..cut])
  }

  ghost predicate Invariant(codec: Codec, turnId: string, disk: Disk)
  {
    && Consistent(codec, turnId, disk, Records(codec, disk))
    && (disk.snapshot.Some? ==> Records(codec, disk) != [])
  }

  /** The history only grows, and not at all once the turn has ended. */
  ghost predicate Grows(before: seq<Event>, after: seq<Event>)
  {
    before <= after && (HasTerminal(before) ==> after == before)
  }

  lemma RecordsAre(codec: Codec, disk: Disk, records: seq<Event>)
    requires Faithful(codec) && Holds(codec, disk.log, records)
    ensures Records(codec, disk) == records
  {
    ReadRepairs(codec, disk.log, records);
    ReadRepairs(codec, disk.log, Records(codec, disk));
  }

  lemma MatchesMore(snapshot: Option<Snapshot>, turnId: string, records: seq<Event>, event: Event)
    requires Matches(snapshot, turnId, records) && (snapshot.Some? ==> records != [])
    ensures Matches(snapshot, turnId, records + [event])
  {
  }

  lemma AcceptedAppend(records: seq<Event>, event: Event)
    requires HistoryObjection(records).None? && Objection(records, event).None?
    ensures HistoryObjection(records + [event]).None?
    ensures records != [] ==> (records + [event])[0] == records[0] && event.turnId == records[0].turnId
    ensures Grows(records, records + [event])
  {
    assert (records + [event])[..|records|] == records;
  }

  lemma CutKeepsInvariant(codec: Codec, turnId: string, disk: Disk, records: seq<Event>, event: Event, cut: nat)
    requires Faithful(codec) && Invariant(codec, turnId, disk) && records == Records(codec, disk)
    requires event.turnId == turnId && Objection(records, event).None? && cut <= |LineOf(codec, event)|
    ensures var after := disk.(log := Encoded(codec, records) + LineOf(codec, event)[..cut]);
            Invariant(codec, turnId, after) && Grows(records, Records(codec, after))
  {
    var after := disk.(log := Encoded(codec, records) + LineOf(codec, event)[..cut]);
    CrashCutsOneRecord(codec, records, event, cut);
    if cut < |LineOf(codec, event)| {
      RecordsAre(codec, after, records);
    } else {
      AcceptedAppend(records, event);
      RecordsAre(codec, after, records + [event]);
      MatchesMore(disk.snapshot, turnId, records, event);
    }
  }

  lemma CommitKeepsInvariant(codec: Codec, turnId: string, disk: Disk, event: Event, snapshot: Option<Snapshot>)
    requires Faithful(codec) && Invariant(codec, turnId, disk)
    requires event.turnId == turnId && Matches(snapshot, turnId, Records(codec, disk) + [event])
    ensures var after := Commit(codec, disk, event, snapshot).disk;
            Invariant(codec, turnId, after) && Grows(Records(codec, disk), Records(codec, after))
  {
    var records := Records(codec, disk);
    var after := Commit(codec, disk, event, snapshot).disk;
    AppendWrites(codec, disk.log, records, event);
    if Objection(records, event).None? {
      WholeLinesHold(codec, records + [event]);
      RecordsAre(codec, after, records + [event]);
      AcceptedAppend(records, event);
      MatchesMore(disk.snapshot, turnId, records, event);
    } else {
      WholeLinesHold(codec, records);
      RecordsAre(codec, after, records);
    }
  }

  lemma RecoverKeepsInvariant(codec: Codec, turnId: string, disk: Disk, ids: Ids)
    requires Faithful(codec) && Invariant(codec, turnId, disk) && FreshFor(Records(codec, disk), ids)
    ensures var after := Recover(codec, turnId, disk, ids).disk;
            Invariant(codec, turnId, after) && Grows(Records(codec, disk), Records(codec, after))
  {
    var records := Records(codec, disk);
    var after := Recover(codec, turnId, disk, ids).disk;
    if records == [] {
      ReadRepairs(codec, disk.log, []);
      WholeLinesHold(codec, []);
      RecordsAre(codec, after, []);
    } else {
      RecoveryClosesTheTurn(codec, turnId, disk, ids, records);
      RecoverSurvivors(codec, turnId, disk, ids, records);
      RecordsAre(codec, after, Closed(records, ids));
    }
  }

  lemma NextKeepsInvariant(codec: Codec, turnId: string, before: Disk, action: Action, after: Disk)
    requires Faithful(codec) && Invariant(codec, turnId, before) && Next(codec, turnId, before, action, after)
    ensures Invariant(codec, turnId, after) && Grows(Records(codec, before), Records(codec, after))
  {
    var records := Records(codec, before);
    match action
    case CommitEvent(event, snapshot) => CommitKeepsInvariant(codec, turnId, before, event, snapshot);
    case CrashInCommit(event, cut) => CutKeepsInvariant(codec, turnId, before, records, event, cut);
    case RecoverTurn(ids) => RecoverKeepsInvariant(codec, turnId, before, ids);
    case CrashInRecovery(ids, cut) =>
      CutKeepsInvariant(codec, turnId, before, records, Failure(records, ids.failed), cut);
  }

  /** `disks` is a run that starts in an empty directory. */
  ghost predicate IsRun(codec: Codec, turnId: string, disks: seq<Disk>, actions: seq<Action>)
  {
    && |disks| == |actions| + 1
    && disks[0] == Disk("", None)
    && forall i: nat :: i < |actions| ==> StepAt(codec, turnId, disks, actions, i)
  }

  ghost predicate StepAt(codec: Codec, turnId: string, disks: seq<Disk>, actions: seq<Action>, i: nat)
    requires |disks| == |actions| + 1 && i < |actions|
  {
    Next(codec, turnId, disks[i], actions[i], disks[i + 1])
  }

  lemma RunStep(codec: Codec, turnId: string, disks: seq<Disk>, actions: seq<Action>, i: nat)
    requires Faithful(codec) && IsRun(codec, turnId, disks, actions) && i < |actions|
    requires Invariant(codec, turnId, disks[i])
    ensures Invariant(codec, turnId, disks[i + 1])
    ensures Grows(Records(codec, disks[i]), Records(codec, disks[i + 1]))
  {
    assert StepAt(codec, turnId, disks, actions, i);
    NextKeepsInvariant(codec, turnId, disks[i], actions[i], disks[i + 1]);
  }

  lemma GrowsOn(a: seq<Event>, b: seq<Event>, c: seq<Event>)
    requires Grows(a, b) && Grows(b, c)
    ensures Grows(a, c)
  {
  }

  lemma {:induction false} InvariantOverRuns(codec: Codec, turnId: string, disks: seq<Disk>, actions: seq<Action>, i: nat)
    requires Faithful(codec) && IsRun(codec, turnId, disks, actions) && i < |disks|
    ensures Invariant(codec, turnId, disks[i])
  {
    if i == 0 {
      WholeLinesHold(codec, []);
      RecordsAre(codec, disks[0], []);
    } else {
      InvariantOverRuns(codec, turnId, disks, actions, i - 1);
      RunStep(codec, turnId, disks, actions, i - 1);
    }
  }

  /** Over every run, at every two moments: the log is valid, no recorded event is ever lost or
      changed, and nothing is recorded after the terminal event. */
  lemma {:induction false} HistoryOverRuns(codec: Codec, turnId: string, disks: seq<Disk>, actions: seq<Action>, i: nat, j: nat)
    requires Faithful(codec) && IsRun(codec, turnId, disks, actions) && i <= j < |disks|
    ensures HistoryObjection(Records(codec, disks[j])).None?
    ensures Grows(Records(codec, disks[i]), Records(codec, disks[j]))
    decreases j - i
  {
    InvariantOverRuns(codec, turnId, disks, actions, j);
    if i < j {
      InvariantOverRuns(codec, turnId, disks, actions, i);
      RunStep(codec, turnId, disks, actions, i);
      HistoryOverRuns(codec, turnId, disks, actions, i + 1, j);
      GrowsOn(Records(codec, disks[i]), Records(codec, disks[i + 1]), Records(codec, disks[j]));
    }
  }
}
