/** Versioned session files shared by any number of store instances: optimistic writes fenced by a
    revision, and deletion by a tombstone that is written before the file is removed. */
module SessionStore {

  import opened Wrappers

  type Id = string

  datatype Value = Number(n: int) | Text(text: string) | Other(code: nat)

  /** A JSON object. */
  type Payload = map<string, Value>

  /** A session file as it reads: an object, or something else. */
  datatype File = Object(payload: Payload) | Garbage

  datatype Disk = Disk(files: map<Id, File>, deleted: set<Id>)

  /** The revisions one instance last loaded or wrote. */
  type Memory = map<Id, int>

  datatype Error = Invalid | Deleted | Missing | Corrupt | Stale

  const FORMAT_VERSION := 1

  const VERSION_KEY := "_schema_version"
  const REVISION_KEY := "_revision"

  // ---------------------------------------------------------------------------
  // What one operation does
  // ---------------------------------------------------------------------------

  predicate IsAlphanumeric(c: char) { 'a' <= c <= 'z' || 'A' <= c <= 'Z' || '0' <= c <= '9' }

  predicate IsSessionId(id: Id)
  {
    && 1 <= |id| <= 128 && IsAlphanumeric(id[0])
    && forall i :: 1 <= i < |id| ==> IsAlphanumeric(id[i]) || id[i] == '_' || id[i] == '.' || id[i] == '-'
  }

  function PathError(disk: Disk, id: Id): Option<Error>
  {
    if !IsSessionId(id) then Some(Invalid) else if id in disk.deleted then Some(Deleted) else None
  }

  function Field(payload: Payload, key: string): Option<Value>
  {
    if key in payload then Some(payload[key]) else None
  }

  /** The revision of a well-formed payload. */
  function Revision(payload: Payload): Result<int, Error>
  {
    var version := if VERSION_KEY in payload then payload[VERSION_KEY] else Number(0);
    var revision := if REVISION_KEY in payload then payload[REVISION_KEY] else Number(0);
    if !version.Number? || !revision.Number? || version.n !in {0, FORMAT_VERSION} || revision.n < 0 then Err(Corrupt)
    else Ok(revision.n)
  }

  function Stamped(payload: Payload, revision: int): Payload
  {
    payload[VERSION_KEY := Number(FORMAT_VERSION)][REVISION_KEY := Number(revision)]
  }

  function Unstamped(payload: Payload): Payload { payload - {VERSION_KEY, REVISION_KEY} }

  function Inspected(disk: Disk, id: Id): (r: Result<Payload, Error>)
    ensures r.Ok? ==> id in disk.files && disk.files[id] == Object(r.value) && Revision(r.value).Ok?
  {
    var refused := PathError(disk, id);
    if refused.Some? then Err(refused.value)
    else if id !in disk.files then Err(Missing)
    else if disk.files[id].Garbage? then Err(Corrupt)
    else
      var payload := disk.files[id].payload;
      if Revision(payload).Err? then Err(Corrupt)
      else if Field(payload, "id") != Some(Text(id)) then Err(Corrupt)
      else Ok(payload)
  }

  /** The revision the next save of the session will write, if it is allowed. */
  function NextRevision(disk: Disk, memory: Memory, id: Id): Result<int, Error>
  {
    var refused := PathError(disk, id);
    if refused.Some? then Err(refused.value)
    else if id !in disk.files then
      if id in memory && memory[id] != 0 then Err(Stale) else Ok(1)
    else
      var existing := Inspected(disk, id);
      if existing.Err? then Err(existing.error)
      else
        var actual := Revision(existing.value).value;
        if id !in memory || memory[id] != actual then Err(Stale) else Ok(actual + 1)
  }

  function Write(disk: Disk, id: Id, payload: Payload, revision: int): Disk
  {
    disk.(files := disk.files[id := Object(Stamped(payload, revision))])
  }

  /** The payload a rewrite commits. */
  function Rewritten(disk: Disk, id: Id, expected: int, transform: Payload -> Option<Payload>): Result<Payload, Error>
  {
    if expected < 0 then Err(Invalid)
    else
      var current := Inspected(disk, id);
      if current.Err? then current
      else if Revision(current.value).value != expected then Err(Stale)
      else
        var updated := transform(current.value);
        if updated.None? || Field(updated.value, "id") != Some(Text(id))
           || Field(updated.value, "workspace_root") != Field(current.value, "workspace_root") then Err(Invalid)
        else Ok(updated.value)
  }

  function DeleteError(disk: Disk, id: Id, expected: int): Option<Error>
  {
    if expected < 0 then Some(Invalid)
    else
      var current := Inspected(disk, id);
      if current.Err? then Some(current.error)
      else if Revision(current.value).value != expected then Some(Stale)
      else None
  }

  // ---------------------------------------------------------------------------
  // When an operation is allowed
  // ---------------------------------------------------------------------------

  predicate IsIn(c: char, first: int, last: int) { first <= c as int <= last }

  /** ASCII letters and digits, and behind the first character also '-', '.' and '_'. */
  predicate IsName(id: Id)
  {
    && id != "" && |id| < 129
    && forall i :: 0 <= i < |id| ==>
         IsIn(id[i], 97, 122) || IsIn(id[i], 65, 90) || IsIn(id[i], 48, 57) || (i > 0 && id[i] in {'-', '.', '_'})
  }

  lemma NamesAreSessionIds(id: Id)
    ensures IsSessionId(id) <==> IsName(id)
  {
    if IsSessionId(id) {
      forall i | 0 <= i < |id|
        ensures IsIn(id[i], 97, 122) || IsIn(id[i], 65, 90) || IsIn(id[i], 48, 57) || (i > 0 && id[i] in {'-', '.', '_'})
      {
        assert i == 0 || 1 <= i;
      }
    }
  }

  /** The session is on disk at this revision: a living file that holds an object with the session's
      id, whose version is known and whose revision is not negative. What is not there counts as 0. */
  predicate Holds(disk: Disk, id: Id, revision: int)
  {
    && IsName(id) && id !in disk.deleted && id in disk.files && disk.files[id].Object?
    && var payload := disk.files[id].payload;
       && "id" in payload && payload["id"] == Text(id)
       && ("_schema_version" in payload ==> payload["_schema_version"] in {Number(0), Number(1)})
       && revision >= 0 && (if "_revision" in payload then payload["_revision"] == Number(revision) else revision == 0)
  }

  lemma InspectedMeans(disk: Disk, id: Id)
    ensures forall revision ::
              Holds(disk, id, revision)
              <==> Inspected(disk, id).Ok? && Revision(Inspected(disk, id).value) == Ok(revision)
    ensures Inspected(disk, id).Ok? ==> Inspected(disk, id).value == disk.files[id].payload
    ensures Inspected(disk, id) == Err(Invalid) <==> !IsName(id)
    ensures Inspected(disk, id) == Err(Deleted) <==> IsName(id) && id in disk.deleted
    ensures Inspected(disk, id) == Err(Missing) <==> IsName(id) && id !in disk.deleted && id !in disk.files
    ensures Inspected(disk, id).Err? ==> Inspected(disk, id).error != Stale
  {
    NamesAreSessionIds(id);
  }

  /** A first save needs no memory but of revision 0; a later one needs that of the revision on disk. */
  lemma SaveIsAllowedIff(disk: Disk, memory: Memory, id: Id, next: int)
    ensures NextRevision(disk, memory, id) == Ok(next)
            <==> if IsName(id) && id !in disk.deleted && id !in disk.files
                 then next == 1 && (id in memory ==> memory[id] == 0)
                 else Holds(disk, id, next - 1) && id in memory && memory[id] == next - 1
    ensures NextRevision(disk, memory, id) == Err(Stale)
            <==> if IsName(id) && id !in disk.deleted && id !in disk.files
                 then id in memory && memory[id] != 0
                 else exists revision :: Holds(disk, id, revision) && !(id in memory && memory[id] == revision)
  {
    InspectedMeans(disk, id);
    NamesAreSessionIds(id);
    assert Inspected(disk, id).Ok? ==> Holds(disk, id, Revision(Inspected(disk, id).value).value);
  }

  lemma DeleteIsAllowedIff(disk: Disk, id: Id, expected: int)
    ensures DeleteError(disk, id, expected).None? <==> Holds(disk, id, expected)
    ensures DeleteError(disk, id, expected) == Some(Stale)
            <==> expected >= 0 && exists revision :: Holds(disk, id, revision) && revision != expected
    ensures DeleteError(disk, id, expected) == Some(Invalid) <==> !(expected >= 0 && IsName(id))
  {
    InspectedMeans(disk, id);
    assert Inspected(disk, id).Ok? ==> Holds(disk, id, Revision(Inspected(disk, id).value).value);
  }

  predicate SameEntry(a: Payload, b: Payload, key: string)
  {
    (key in a <==> key in b) && (key in a ==> a[key] == b[key])
  }

  /** A rewrite keeps the session's id and workspace. */
  lemma RewriteIsAllowedIff(disk: Disk, id: Id, expected: int, transform: Payload -> Option<Payload>)
    ensures Rewritten(disk, id, expected, transform).Ok?
            <==> Holds(disk, id, expected)
                 && var updated := transform(disk.files[id].payload);
                    updated.Some? && SameEntry(updated.value, disk.files[id].payload, "id")
                    && SameEntry(updated.value, disk.files[id].payload, "workspace_root")
    ensures Rewritten(disk, id, expected, transform).Ok? ==>
              Some(Rewritten(disk, id, expected, transform).value) == transform(disk.files[id].payload)
    ensures Rewritten(disk, id, expected, transform) == Err(Stale)
            <==> expected >= 0 && exists revision :: Holds(disk, id, revision) && revision != expected
  {
    InspectedMeans(disk, id);
    assert Inspected(disk, id).Ok? ==> Holds(disk, id, Revision(Inspected(disk, id).value).value);
  }

  /** What is written differs from the payload in the two reserved keys alone. */
  lemma WriteMeans(disk: Disk, id: Id, payload: Payload, revision: int)
    ensures var after := Write(disk, id, payload, revision);
            && after.deleted == disk.deleted && after.files.Keys == disk.files.Keys + {id} && after.files[id].Object?
            && (forall other :: other in disk.files && other != id ==> after.files[other] == disk.files[other])
            && (forall key :: key != "_schema_version" && key != "_revision" ==>
                  SameEntry(after.files[id].payload, payload, key))
            && "_schema_version" in after.files[id].payload && "_revision" in after.files[id].payload
            && after.files[id].payload["_schema_version"] == Number(1)
            && after.files[id].payload["_revision"] == Number(revision)
  {
    assert |VERSION_KEY| == 15 && |REVISION_KEY| == 9;
  }

  // ---------------------------------------------------------------------------
  // The store
  // ---------------------------------------------------------------------------

  /** The directory the instances share. */
  class Folder {
    var disk: Disk

    constructor (disk: Disk)
      ensures this.disk == disk
    {
      this.disk := disk;
    }
  }

  class SessionStore {
    const folder: Folder
    var revisions: Memory

    constructor (folder: Folder)
      ensures this.folder == folder && revisions == map[]
    {
      this.folder := folder;
      revisions := map[];
    }

    method Save(session: Payload) returns (r: Result<int, Error>)
      modifies this`revisions, folder
      ensures "id" !in session || !session["id"].Text? ==> r == Err(Invalid)
      ensures "id" in session && session["id"].Text? ==>
                r == NextRevision(old(folder.disk), old(revisions), session["id"].text)
      ensures r.Ok? ==> "id" in session && session["id"].Text?
                        && folder.disk == Write(old(folder.disk), session["id"].text, session, r.value)
                        && revisions == old(revisions)[session["id"].text := r.value]
      ensures r.Err? ==> folder.disk == old(folder.disk) && revisions == old(revisions)
    {
      if "id" !in session || !session["id"].Text? { return Err(Invalid); }
      var id := session["id"].text;
      var refused := PathError(folder.disk, id);
      if refused.Some? { return Err(refused.value); }
      var actual := 0;
      if id in folder.disk.files {
        var existing := Inspected(folder.disk, id);
        if existing.Err? { return Err(existing.error); }
        actual := Revision(existing.value).value;
        if id !in revisions { return Err(Stale); }
      }
      if id in revisions && revisions[id] != actual { return Err(Stale); }
      var next := actual + 1;
      folder.disk := Write(folder.disk, id, session, next);
      revisions := revisions[id := next];
      return Ok(next);
    }

    method Load(id: Id) returns (r: Result<Payload, Error>)
      modifies this`revisions
      ensures Inspected(folder.disk, id).Err? ==> r == Inspected(folder.disk, id) && revisions == old(revisions)
      ensures Inspected(folder.disk, id).Ok? ==>
                var payload := Inspected(folder.disk, id).value;
                r == Ok(Unstamped(payload)) && revisions == old(revisions)[id := Revision(payload).value]
    {
      var payload := Inspected(folder.disk, id);
      if payload.Err? { return payload; }
      revisions := revisions[id := Revision(payload.value).value];
      return Ok(Unstamped(payload.value));
    }

    /** The tombstone comes before the removal: a crash in between leaves both. */
    method Delete(id: Id, expected: int, crash: bool) returns (error: Option<Error>)
      modifies this`revisions, folder
      ensures error == DeleteError(old(folder.disk), id, expected)
      ensures error.Some? ==> folder.disk == old(folder.disk) && revisions == old(revisions)
      ensures error.None? ==> folder.disk.deleted == old(folder.disk.deleted) + {id}
      ensures error.None? ==> folder.disk.files == if crash then old(folder.disk.files) else old(folder.disk.files) - {id}
      ensures error.None? ==> revisions == if crash then old(revisions) else old(revisions) - {id}
    {
      error := DeleteError(folder.disk, id, expected);
      if error.Some? { return; }
      folder.disk := folder.disk.(deleted := folder.disk.deleted + {id});
      if crash { return; }
      folder.disk := folder.disk.(files := folder.disk.files - {id});
      revisions := revisions - {id};
    }

    method Rewrite(id: Id, expected: int, transform: Payload -> Option<Payload>) returns (r: Result<Payload, Error>)
      modifies this`revisions, folder
      ensures Rewritten(old(folder.disk), id, expected, transform).Err? ==>
                r == Rewritten(old(folder.disk), id, expected, transform)
                && folder.disk == old(folder.disk) && revisions == old(revisions)
      ensures Rewritten(old(folder.disk), id, expected, transform).Ok? ==>
                var updated := Rewritten(old(folder.disk), id, expected, transform).value;
                r == Ok(Stamped(updated, expected + 1))
                && folder.disk == Write(old(folder.disk), id, updated, expected + 1)
                && revisions == old(revisions)[id := expected + 1]
    {
      r := Rewritten(folder.disk, id, expected, transform);
      if r.Err? { return; }
      folder.disk := Write(folder.disk, id, r.value, expected + 1);
      revisions := revisions[id := expected + 1];
      r := Ok(Stamped(r.value, expected + 1));
    }
  }

  // ---------------------------------------------------------------------------
  // Any number of stores
  // ---------------------------------------------------------------------------

  type Pid = nat

  datatype World = World(disk: Disk, stores: map<Pid, Memory>)

  /** What a store can do next. A save or rewrite may fail after the file was replaced, before the
      instance records the revision; a deletion may be cut short by a crash. Opening replaces an
      instance by a new one. */
  datatype Action =
    | Open(p: Pid)
    | Save(p: Pid, id: Id, body: Payload, recorded: bool)
    | Load(p: Pid, id: Id)
    | Rewrite(p: Pid, id: Id, expected: int, transform: Payload -> Option<Payload>, recorded: bool)
    | Delete(p: Pid, id: Id, expected: int, crash: bool)

  predicate Enabled(w: World, a: Action)
  {
    a.Open? || a.p in w.stores
  }

  function MemoryOf(w: World, p: Pid): Memory { if p in w.stores then w.stores[p] else map[] }

  /** The payload and revision the step writes to the file of its session. */
  function Written(w: World, a: Action): Option<(Payload, int)>
  {
    match a
    case Save(p, id, body, _) =>
      var next := NextRevision(w.disk, MemoryOf(w, p), id);
      if next.Err? then None else Some((body["id" := Text(id)], next.value))
    case Rewrite(p, id, expected, transform, _) =>
      var updated := Rewritten(w.disk, id, expected, transform);
      if updated.Err? then None else Some((updated.value, expected + 1))
    case _ => None
  }

  function Apply(w: World, a: Action): World
    requires Enabled(w, a)
  {
    match a
    case Open(p) => w.(stores := w.stores[p := map[]])
    case Load(p, id) =>
      var payload := Inspected(w.disk, id);
      if payload.Err? then w
      else w.(stores := w.stores[p := w.stores[p][id := Revision(payload.value).value]])
    case Delete(p, id, expected, crash) =>
      if DeleteError(w.disk, id, expected).Some? then w
      else if crash then w.(disk := w.disk.(deleted := w.disk.deleted + {id}), stores := w.stores - {p})
      else World(Disk(w.disk.files - {id}, w.disk.deleted + {id}), w.stores[p := w.stores[p] - {id}])
    case _ =>
      var written := Written(w, a);
      if written.None? then w
      else
        World(Write(w.disk, a.id, written.value.0, written.value.1),
              if a.recorded then w.stores[a.p := w.stores[a.p][a.id := written.value.1]] else w.stores)
  }

  ghost predicate Leads(w: World, actions: seq<Action>, u: World)
    decreases |actions|
  {
    if actions == [] then w == u else Enabled(w, actions[0]) && Leads(Apply(w, actions[0]), actions[1..], u)
  }

  // ---------------------------------------------------------------------------
  // One chain of revisions
  // ---------------------------------------------------------------------------

  /** The revision of a session on disk; 0 when there is none. */
  function RevisionOn(disk: Disk, id: Id): int
  {
    if id in disk.files && disk.files[id].Object? && Revision(disk.files[id].payload).Ok?
    then Revision(disk.files[id].payload).value else 0
  }

  predicate Writes(w: World, a: Action, id: Id)
  {
    (a.Save? || a.Rewrite?) && a.id == id && Written(w, a).Some?
  }

  ghost function WritesIn(w: World, actions: seq<Action>, id: Id): nat
    decreases |actions|
  {
    if actions == [] || !Enabled(w, actions[0]) then 0
    else (if Writes(w, actions[0], id) then 1 else 0) + WritesIn(Apply(w, actions[0]), actions[1..], id)
  }

  lemma StepExtendsChain(w: World, a: Action, id: Id)
    requires Enabled(w, a) && id !in Apply(w, a).disk.deleted
    ensures RevisionOn(Apply(w, a).disk, id) == RevisionOn(w.disk, id) + (if Writes(w, a, id) then 1 else 0)
    ensures !Writes(w, a, id) ==>
              (id in Apply(w, a).disk.files <==> id in w.disk.files)
              && (id in w.disk.files ==> Apply(w, a).disk.files[id] == w.disk.files[id])
    ensures id !in w.disk.deleted
  {
  }

  /** Successful writes of a session that is not deleted form a chain, each one revision after the
      last; between writes its file does not change. */
  lemma {:induction false} WritesFormChain(w: World, actions: seq<Action>, u: World, id: Id)
    requires Leads(w, actions, u) && id !in u.disk.deleted
    ensures RevisionOn(u.disk, id) == RevisionOn(w.disk, id) + WritesIn(w, actions, id)
    ensures WritesIn(w, actions, id) == 0 ==> SameFile(w.disk, u.disk, id)
    ensures id !in w.disk.deleted
    decreases |actions|
  {
    if actions != [] {
      WritesFormChain(Apply(w, actions[0]), actions[1..], u, id);
      StepExtendsChain(w, actions[0], id);
    }
  }

  predicate SameFile(d: Disk, e: Disk, id: Id)
  {
    (id in d.files <==> id in e.files) && (id in d.files ==> d.files[id] == e.files[id])
  }

  // ---------------------------------------------------------------------------
  // A save overwrites only what its instance has seen
  // ---------------------------------------------------------------------------

  /** The instance's last load or write of the session is the file on disk. */
  predicate Synced(w: World, p: Pid, id: Id)
  {
    p in w.stores && id in w.stores[p]
    && Inspected(w.disk, id).Ok? && Revision(Inspected(w.disk, id).value) == Ok(w.stores[p][id])
  }

  lemma StampedReads(payload: Payload, revision: int)
    requires revision >= 0
    ensures Revision(Stamped(payload, revision)) == Ok(revision)
    ensures Field(Stamped(payload, revision), "id") == Field(payload, "id")
  {
    assert |"id"| == 2 && |VERSION_KEY| == 15 && |REVISION_KEY| == 9;
  }

  lemma TouchingSyncs(w: World, a: Action)
    requires Enabled(w, a)
    requires (a.Load? && Inspected(w.disk, a.id).Ok?)
             || ((a.Save? || a.Rewrite?) && a.recorded && Written(w, a).Some?)
    ensures Synced(Apply(w, a), a.p, a.id)
  {
    if !a.Load? {
      StampedReads(Written(w, a).value.0, Written(w, a).value.1);
    }
  }

  /** The step leaves what the instance remembers of the session alone. */
  predicate Elsewhere(a: Action, p: Pid, id: Id)
  {
    a.p != p || (!a.Open? && !(a.Delete? && a.crash) && a.id != id)
  }

  lemma {:induction false} MemoryKept(w: World, actions: seq<Action>, u: World, p: Pid, id: Id)
    requires Leads(w, actions, u) && p in w.stores && id in w.stores[p]
    requires forall a :: a in actions ==> Elsewhere(a, p, id)
    ensures p in u.stores && id in u.stores[p] && u.stores[p][id] == w.stores[p][id]
    decreases |actions|
  {
    if actions != [] {
      assert Elsewhere(actions[0], p, id);
      MemoryKept(Apply(w, actions[0]), actions[1..], u, p, id);
    }
  }

  /** Between an instance's load or write and its next save anything may happen elsewhere; the save
      succeeds exactly when nobody wrote or deleted the session meanwhile. */
  lemma SaveSucceedsIffUntouched(w: World, actions: seq<Action>, u: World, p: Pid, id: Id)
    requires Synced(w, p, id) && Leads(w, actions, u)
    requires forall a :: a in actions ==> Elsewhere(a, p, id)
    ensures NextRevision(u.disk, MemoryOf(u, p), id).Ok? <==> id !in u.disk.deleted && WritesIn(w, actions, id) == 0
    ensures NextRevision(u.disk, MemoryOf(u, p), id).Ok? ==> SameFile(w.disk, u.disk, id)
  {
    MemoryKept(w, actions, u, p, id);
    if id !in u.disk.deleted {
      WritesFormChain(w, actions, u, id);
      SomeFileRemains(w, actions, u, id);
    }
  }

  lemma {:induction false} SomeFileRemains(w: World, actions: seq<Action>, u: World, id: Id)
    requires Leads(w, actions, u) && id in w.disk.files && id !in u.disk.deleted
    ensures id in u.disk.files
    decreases |actions|
  {
    if actions != [] {
      WritesFormChain(Apply(w, actions[0]), actions[1..], u, id);
      SomeFileRemains(Apply(w, actions[0]), actions[1..], u, id);
    }
  }

  // ---------------------------------------------------------------------------
  // Deletion is final
  // ---------------------------------------------------------------------------

  /** An allowed deletion leaves the tombstone, and unless it is cut short the file is gone. */
  lemma DeletionLeavesTombstone(w: World, p: Pid, id: Id, expected: int, crash: bool)
    requires p in w.stores && Holds(w.disk, id, expected)
    ensures var u := Apply(w, Delete(p, id, expected, crash));
            && u.disk.deleted == w.disk.deleted + {id}
            && u.disk.files == (if crash then w.disk.files else w.disk.files - {id})
            && u.stores.Keys == (if crash then w.stores.Keys - {p} else w.stores.Keys)
  {
    DeleteIsAllowedIff(w.disk, id, expected);
  }

  lemma TombstoneStays(w: World, a: Action, id: Id)
    requires Enabled(w, a) && id in w.disk.deleted
    ensures id in Apply(w, a).disk.deleted && SameFile(w.disk, Apply(w, a).disk, id) && !Writes(w, a, id)
  {
  }

  /** Once the tombstone is there, with the file gone or left behind by a crash, no step of any store
      changes or recreates the session, and no operation on it succeeds. */
  lemma {:induction false} DeletionIsFinal(w: World, actions: seq<Action>, u: World, id: Id)
    requires id in w.disk.deleted && Leads(w, actions, u)
    ensures id in u.disk.deleted && SameFile(w.disk, u.disk, id) && WritesIn(w, actions, id) == 0
    ensures Inspected(u.disk, id).Err?
    ensures forall memory :: NextRevision(u.disk, memory, id).Err?
    ensures forall expected :: DeleteError(u.disk, id, expected).Some?
    decreases |actions|
  {
    if actions != [] {
      TombstoneStays(w, actions[0], id);
      DeletionIsFinal(Apply(w, actions[0]), actions[1..], u, id);
    }
  }

  // ---------------------------------------------------------------------------
  // What is read back
  // ---------------------------------------------------------------------------

  /** Any instance reads back what a save wrote, up to the two reserved keys. */
  lemma SavedIsReadBack(w: World, a: Action)
    requires Enabled(w, a) && a.Save? && Written(w, a).Some?
    ensures Inspected(Apply(w, a).disk, a.id).Ok?
    ensures Unstamped(Inspected(Apply(w, a).disk, a.id).value) == Unstamped(a.body["id" := Text(a.id)])
    ensures Unstamped(Inspected(Apply(w, a).disk, a.id).value) == a.body["id" := Text(a.id)]
            <==> VERSION_KEY !in a.body && REVISION_KEY !in a.body
  {
    var body := a.body["id" := Text(a.id)];
    StampedReads(body, Written(w, a).value.1);
    assert |"id"| == 2 && |VERSION_KEY| == 15 && |REVISION_KEY| == 9;
    assert Unstamped(Stamped(body, Written(w, a).value.1)) == Unstamped(body);
    assert (Unstamped(body) == body) <==> (VERSION_KEY !in body && REVISION_KEY !in body);
  }

  /** No step touches another session. */
  lemma OtherSessionsUntouched(w: World, a: Action, id: Id)
    requires Enabled(w, a) && !a.Open? && a.id != id
    ensures SameFile(w.disk, Apply(w, a).disk, id)
    ensures id in Apply(w, a).disk.deleted <==> id in w.disk.deleted
  {
  }
}
