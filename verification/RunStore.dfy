/** The operations on a run directory as they are carried out on its files, step by step, each
    proved against its function in TurnLog and TurnRecovery. */
module RunStore {

  import opened Wrappers
  import opened TurnLog
  import opened TurnRecovery

  class TurnDirectory {
    const turnId: string
    const codec: Codec
    /** The contents of the event file; a missing file is an empty one. */
    var log: string
    var snapshot: Option<Snapshot>

    constructor (turnId: string, codec: Codec)
      ensures this.turnId == turnId && this.codec == codec && Contents() == Disk("", None)
    {
      this.turnId, this.codec := turnId, codec;
      log, snapshot := "", None;
    }

    function Contents(): Disk
      reads this
    {
      Disk(log, snapshot)
    }

    method ReadJsonl(repairTail: bool) returns (result: Result<seq<Event>, StorageError>)
      modifies this`log
      ensures Outcome(log, result) == Read(codec, old(log), repairTail)
    {
      var complete := CompletePart(log);
      if complete != log {
        if !repairTail {
          return Err(TornTail);
        }
        log := complete;
      }
      result := ParseLines(codec, complete);
    }

    method AppendJsonl(event: Event) returns (result: Result<(), StorageError>)
      modifies this`log
      ensures Outcome(log, result) == Append(codec, old(log), event)
    {
      var records := ReadJsonl(true);
      if records.Err? {
        return Err(records.error);
      }
      var objection := Objection(records.value, event);
      if objection.Some? {
        return Err(objection.value);
      }
      log := log + LineOf(codec, event);
      return Ok(());
    }

    method CommitTurnEvent(event: Event, newSnapshot: Option<Snapshot>) returns (result: Result<(), StorageError>)
      modifies this
      ensures Done(Contents(), result) == Commit(codec, old(Contents()), event, newSnapshot)
    {
      result := AppendJsonl(event);
      if result.Ok? && newSnapshot.Some? {
        snapshot := newSnapshot;
      }
    }

    method LoadTurnEvents() returns (result: Result<seq<Event>, StorageError>)
      modifies this`log
      ensures log == old(log)
      ensures result.Ok? ==> WellFormedLog(result.value) && Parse(codec, [], log) == result
      ensures Complete(log) != log ==> result == Err(TornTail)
    {
      result := ReadJsonl(false);
      if result.Ok? {
        var objection := ValidateHistory(result.value);
        AcceptedIsWellFormed(result.value);
        if objection.Some? {
          return Err(objection.value);
        }
      }
    }

    method SeedMissingHistory(records: seq<Event>, ids: Ids) returns (result: Result<seq<Event>, StorageError>)
      modifies this`log
      ensures Outcome(log, result) == Seed(codec, old(log), snapshot, ids, records)
    {
      if records != [] || snapshot.None? {
        return Ok(records);
      }
      var s := snapshot.value;
      if s.turnId == "" || s.sessionId == "" || s.requestId == "" {
        return Err(MissingIds);
      }
      var accepted := SeedAccepted(s, ids.accepted);
      var appended := AppendJsonl(accepted);
      if appended.Err? {
        return Err(appended.error);
      }
      var seeded := [accepted];
      if IsFinished(s.state) {
        var terminal := SeedTerminal(s, ids.terminal);
        appended := AppendJsonl(terminal);
        if appended.Err? {
          return Err(appended.error);
        }
        seeded := seeded + [terminal];
      }
      assert seeded == Seeds(s, ids);
      return Ok(seeded);
    }

    method RecoverTurn(ids: Ids) returns (result: Result<bool, StorageError>)
      modifies this
      ensures Done(Contents(), result) == Recover(codec, turnId, old(Contents()), ids)
    {
      var found := ReadJsonl(true);
      if found.Err? {
        return Err(found.error);
      }
      var mismatch := SnapshotObjection(snapshot, turnId, found.value);
      if mismatch.Some? {
        return Err(mismatch.value);
      }
      var seeded := SeedMissingHistory(found.value, ids);
      if seeded.Err? {
        return Err(seeded.error);
      }
      var records := seeded.value;
      var objection := ValidateHistory(records);
      if objection.Some? {
        return Err(objection.value);
      }
      if HasTerminal(records) {
        snapshot := Some(Project(records, snapshot));
        return Ok(false);
      }
      if records == [] {
        return Ok(false);
      }
      var appended := AppendJsonl(Failure(records, ids.failed));
      if appended.Err? {
        return Err(appended.error);
      }
      snapshot := Some(FailureSnapshot(records, snapshot));
      return Ok(true);
    }
  }

  // ---------------------------------------------------------------------------
  // All run directories
  // ---------------------------------------------------------------------------

  /** What recovery makes of a directory whose contents were `disk`. */
  ghost function Recovery(directory: TurnDirectory, disk: Disk, ids: Ids): Done<bool>
  {
    Recover(directory.codec, directory.turnId, disk, ids)
  }

  /** The names of the first `n` directories whose turn was failed by the recovery, in order. */
  ghost function Recovered(directories: seq<TurnDirectory>, disks: seq<Disk>, ids: seq<Ids>, n: nat): seq<string>
    requires n <= |directories| && |disks| == |directories| == |ids|
  {
    if n == 0 then []
    else Recovered(directories, disks, ids, n - 1)
         + if Recovery(directories[n - 1], disks[n - 1], ids[n - 1]).result == Ok(true)
           then [directories[n - 1].turnId] else []
  }

  /** Directories are recovered one by one; the first that cannot be ends the pass, and those after it
      are left as they were. */
  method RecoverIncompleteTurns(directories: seq<TurnDirectory>, ids: seq<Ids>, ghost disks: seq<Disk>)
    returns (recovered: Result<seq<string>, StorageError>, n: nat)
    requires |ids| == |disks| == |directories|
    requires forall i, j :: 0 <= i < j < |directories| ==> directories[i] != directories[j]
    requires forall k :: 0 <= k < |directories| ==> disks[k] == directories[k].Contents()
    modifies directories
    ensures n <= |directories|
    ensures forall k :: 0 <= k < n ==>
              var done := Recovery(directories[k], disks[k], ids[k]);
              directories[k].Contents() == done.disk && done.result.Ok?
    ensures forall k :: n < k < |directories| ==> directories[k].Contents() == disks[k]
    ensures if n == |directories| then recovered == Ok(Recovered(directories, disks, ids, n))
            else var done := Recovery(directories[n], disks[n], ids[n]);
                 done.result.Err? && recovered == Err(done.result.error) && directories[n].Contents() == done.disk
  {
    hide Recover;
    var names: seq<string> := [];
    n := 0;
    while n < |directories|
      invariant n <= |directories| && names == Recovered(directories, disks, ids, n)
      invariant forall k :: 0 <= k < n ==>
                  var done := Recovery(directories[k], disks[k], ids[k]);
                  directories[k].Contents() == done.disk && done.result.Ok?
      invariant forall k :: n <= k < |directories| ==> directories[k].Contents() == disks[k]
    {
      var failed := directories[n].RecoverTurn(ids[n]);
      if failed.Err? { return Err(failed.error), n; }
      if failed.value { names := names + [directories[n].turnId]; }
      n := n + 1;
    }
    recovered := Ok(names);
  }

  method CompletePart(text: string) returns (complete: string)
    ensures complete == Complete(text)
  {
    var n: nat := |text|;
    while n > 0 && text[n - 1] != '\n'
      invariant n <= |text| && forall i :: n <= i < |text| ==> text[i] != '\n'
    {
      n := n - 1;
    }
    CompleteIs(text, n);
    return text[..n];
  }

  method FindBreak(text: string) returns (n: nat)
    ensures n == Break(text)
  {
    n := 0;
    while n < |text| && text[n] != '\n'
      invariant n <= |text| && forall i :: 0 <= i < n ==> text[i] != '\n'
    {
      n := n + 1;
    }
    BreakIs(text, n);
  }

  method ParseLines(codec: Codec, text: string) returns (result: Result<seq<Event>, StorageError>)
    ensures result == Parse(codec, [], text)
  {
    hide Break, IsBlank;
    var records, rest := [], text;
    while rest != ""
      invariant Parse(codec, [], text) == Parse(codec, records, rest)
      decreases |rest|
    {
      var n := FindBreak(rest);
      var line := rest[..n];
      rest := if n < |rest| then rest[n + 1..] else "";
      if IsBlank(line) {
        continue;
      }
      var record := codec.decode(line);
      if record.None? {
        return Err(BadRecord);
      }
      records := records + [record.value];
    }
    return Ok(records);
  }
}
