/** Planning tool calls into batches, and executing the batches: reads that are safe to run together
    run in parallel, everything else is a barrier. */
module ToolBatches {

  import opened Sequences
  import opened Wrappers

  datatype Effect = Unknown | Read | Write | Execute | External

  datatype Request = Request(callId: string, name: string, arguments: string)

  /** A request may be turned away before its tool runs: by a check of the gateway, as the third
      identical call in a row, or by the approval. */
  datatype Outcome = TurnedAway(why: string) | Repeated | Denied(why: string) | Ran(content: string)

  datatype ToolResult = ToolResult(callId: string, outcome: Outcome)

  predicate Rejected(result: ToolResult) { !result.outcome.Ran? }

  /** What the approval and then the tool make of a request. */
  datatype Attempt = Refused(why: string) | Done(content: string)

  /** A tool with its normalized arguments, as calls are compared. */
  datatype Call = Call(name: string, arguments: string)

  /** The files of the workspace. */
  type Workspace = map<string, string>

  /** The tools of a host. `check` gives the reason for which the gateway turns a request away, if
      any; `asked` is the call a request is compared as, and `recorded` what the session history
      keeps of it once its batch is done. */
  datatype Host = Host(
    effect: Request -> Effect, concurrencySafe: Request -> bool,
    check: (Request, Workspace) -> Option<string>, asked: Request -> Call, recorded: Request -> Call,
    run: (Request, Workspace) -> (Attempt, Workspace), maxParallel: nat)

  predicate IsSafe(h: Host, r: Request) { h.effect(r) == Read && h.concurrencySafe(r) }

  // ---------------------------------------------------------------------------
  // Batches
  // ---------------------------------------------------------------------------

  datatype Mode = Serial | Parallel

  datatype Reason =
    | ReadNotConcurrencySafe | UnresolvedToolSerialized | MutationConflictPolicy
    | ConcurrencySafeRead | ConcurrencySafeReadSingleton

  datatype Batch = Batch(requests: seq<Request>, mode: Mode, reason: Reason, effects: seq<Effect>)

  /** What the constructor of a batch demands. */
  predicate Valid(b: Batch)
  {
    && b.requests != [] && |b.effects| == |b.requests|
    && (b.mode == Parallel ==> |b.requests| >= 2 && forall i :: 0 <= i < |b.effects| ==> b.effects[i] == Read)
    && ((exists i :: 0 <= i < |b.effects| && b.effects[i] != Read) ==> |b.requests| == 1)
  }

  /** The batch says of its requests what the host says of them. */
  predicate Fits(h: Host, b: Batch)
  {
    && Valid(b) && |b.requests| <= (if h.maxParallel > 1 then h.maxParallel else 1)
    && (forall i :: 0 <= i < |b.requests| ==> b.effects[i] == h.effect(b.requests[i]))
    && (b.mode == Parallel ==> forall i :: 0 <= i < |b.requests| ==> IsSafe(h, b.requests[i]))
    && (|b.requests| == 1 ==> b.mode == Serial)
    && b == if IsSafe(h, First(b.requests)) then Together(b.requests) else Barrier(h, First(b.requests))
  }

  function Barrier(h: Host, r: Request): Batch
  {
    var reason := if h.effect(r) == Read then ReadNotConcurrencySafe
                  else if h.effect(r) == Unknown then UnresolvedToolSerialized
                  else MutationConflictPolicy;
    Batch([r], Serial, reason, [h.effect(r)])
  }

  function Together(requests: seq<Request>): Batch
  {
    Batch(requests,
          if |requests| > 1 then Parallel else Serial,
          if |requests| > 1 then ConcurrencySafeRead else ConcurrencySafeReadSingleton,
          seq(|requests|, _ => Read))
  }

  function Parts(batches: seq<Batch>): seq<seq<Request>>
  {
    seq(|batches|, k requires 0 <= k < |batches| => batches[k].requests)
  }

  /** The requests of a plan, in order. */
  function Requests(batches: seq<Batch>): seq<Request> { Flatten(Parts(batches)) }

  lemma RequestsAppend(batches: seq<Batch>, b: Batch)
    ensures Requests(batches + [b]) == Requests(batches) + b.requests
  {
    assert Parts(batches + [b]) == Parts(batches) + [b.requests];
    FlattenOne(Parts(batches), b.requests);
  }

  predicate AllFit(h: Host, batches: seq<Batch>)
  {
    forall k :: 0 <= k < |batches| ==> Fits(h, batches[k])
  }

  /** Two neighbours could not have been one batch: one of them is a barrier, or the first is full. */
  predicate Packed(h: Host, batches: seq<Batch>)
  {
    forall k :: 0 <= k < |batches| - 1 ==>
      !IsSafe(h, Last(batches[k].requests)) || !IsSafe(h, First(batches[k + 1].requests))
      || |batches[k].requests| == h.maxParallel
  }

  function First(s: seq<Request>): Request { if s == [] then Request("", "", "") else s[0] }

  function Last(s: seq<Request>): Request { if s == [] then Request("", "", "") else s[|s| - 1] }

  lemma TogetherFits(h: Host, requests: seq<Request>)
    requires 0 < |requests| <= h.maxParallel && forall i :: 0 <= i < |requests| ==> IsSafe(h, requests[i])
    ensures Fits(h, Together(requests))
  {
  }

  lemma AppendFits(h: Host, batches: seq<Batch>, b: Batch)
    requires AllFit(h, batches) && Packed(h, batches) && Fits(h, b)
    requires !IsSafe(h, First(b.requests)) || MayFollow(h, batches)
    ensures AllFit(h, batches + [b]) && Packed(h, batches + [b])
  {
    hide Fits, IsSafe;
    var more := batches + [b];
    forall k | 0 <= k < |more| - 1
      ensures !IsSafe(h, Last(more[k].requests)) || !IsSafe(h, First(more[k + 1].requests))
              || |more[k].requests| == h.maxParallel
    {
      if k < |batches| - 1 { assert more[k] == batches[k] && more[k + 1] == batches[k + 1]; }
    }
  }

  lemma EmptyFits(h: Host)
    ensures Requests([]) == [] && AllFit(h, []) && Packed(h, [])
  {
    assert Parts([]) == [];
  }

  lemma BarrierFollows(h: Host, pending: seq<Request>, batches: seq<Batch>, index: nat)
    requires index < |pending| && !IsSafe(h, pending[index])
    requires Requests(batches) == pending[..index] && AllFit(h, batches) && Packed(h, batches)
    ensures var more := batches + [Barrier(h, pending[index])];
            && Requests(more) == pending[..index + 1] && AllFit(h, more) && Packed(h, more)
            && Last(more[|batches|].requests) == pending[index]
  {
    hide AllFit, Packed, Requests;
    RequestsAppend(batches, Barrier(h, pending[index]));
    AppendFits(h, batches, Barrier(h, pending[index]));
  }

  lemma MayFollowUnsafe(h: Host, pending: seq<Request>, batches: seq<Batch>, index: nat)
    requires index <= |pending| && (index > 0 ==> batches != [])
    requires batches != [] ==> index > 0 && Last(batches[|batches| - 1].requests) == pending[index - 1]
    requires index > 0 ==> !IsSafe(h, pending[index - 1])
    ensures MayFollow(h, batches)
  {
  }

  method PlanBatches(h: Host, pending: seq<Request>) returns (batches: seq<Batch>)
    requires h.maxParallel >= 1
    ensures Requests(batches) == pending && AllFit(h, batches) && Packed(h, batches)
  {
    hide IsSafe, AllFit, Packed, Last, Barrier, Requests, MayFollow;
    batches := [];
    EmptyFits(h);
    var index := 0;
    while index < |pending|
      invariant 0 <= index <= |pending|
      invariant Requests(batches) == pending[..index] && AllFit(h, batches) && Packed(h, batches)
      invariant batches != [] <==> index > 0
      invariant batches != [] ==> Last(batches[|batches| - 1].requests) == pending[index - 1]
      invariant 0 < index < |pending| && IsSafe(h, pending[index]) ==> !IsSafe(h, pending[index - 1])
    {
      if !IsSafe(h, pending[index]) {
        BarrierFollows(h, pending, batches, index);
        batches := batches + [Barrier(h, pending[index])];
        index := index + 1;
        continue;
      }
      var end := index + 1;
      while end < |pending| && IsSafe(h, pending[end])
        invariant index < end <= |pending|
        invariant forall i :: index <= i < end ==> IsSafe(h, pending[i])
      {
        end := end + 1;
      }
      MayFollowUnsafe(h, pending, batches, index);
      batches := AppendChunks(h, pending, batches, index, end);
      index := end;
    }
    assert pending[..index] == pending;
  }

  /** A batch may come next: the last one ends in a barrier, or is full. */
  predicate MayFollow(h: Host, batches: seq<Batch>)
  {
    batches == [] || !IsSafe(h, Last(batches[|batches| - 1].requests)) || |batches[|batches| - 1].requests| == h.maxParallel
  }

  lemma ChunkFollows(h: Host, pending: seq<Request>, batches: seq<Batch>, start: nat, stop: nat)
    requires start < stop <= |pending| && stop - start <= h.maxParallel
    requires forall i :: start <= i < stop ==> IsSafe(h, pending[i])
    requires Requests(batches) == pending[..start] && AllFit(h, batches) && Packed(h, batches) && MayFollow(h, batches)
    ensures var more := batches + [Together(pending[start..stop])];
            && Requests(more) == pending[..stop] && AllFit(h, more) && Packed(h, more)
            && Last(more[|batches|].requests) == pending[stop - 1]
            && (stop - start == h.maxParallel ==> MayFollow(h, more))
  {
    hide Fits, AllFit, Packed;
    var chunk := pending[start..stop];
    TogetherFits(h, chunk);
    AppendFits(h, batches, Together(chunk));
    RequestsAppend(batches, Together(chunk));
    assert pending[..start] + chunk == pending[..stop];
  }

  method AppendChunks(h: Host, pending: seq<Request>, before: seq<Batch>, index: nat, end: nat)
    returns (batches: seq<Batch>)
    requires h.maxParallel >= 1 && index < end <= |pending|
    requires forall i :: index <= i < end ==> IsSafe(h, pending[i])
    requires Requests(before) == pending[..index] && AllFit(h, before) && Packed(h, before) && MayFollow(h, before)
    ensures Requests(batches) == pending[..end] && AllFit(h, batches) && Packed(h, batches)
    ensures batches != [] && Last(batches[|batches| - 1].requests) == pending[end - 1]
  {
    hide IsSafe, AllFit, Packed, MayFollow, Last, Together, Requests;
    batches := before;
    var start := index;
    while start + h.maxParallel < end
      invariant index <= start < end
      invariant Requests(batches) == pending[..start] && AllFit(h, batches) && Packed(h, batches) && MayFollow(h, batches)
    {
      var stop := start + h.maxParallel;
      ChunkFollows(h, pending, batches, start, stop);
      batches := batches + [Together(pending[start..stop])];
      start := stop;
    }
    ChunkFollows(h, pending, batches, start, end);
    batches := batches + [Together(pending[start..end])];
  }

  /** The first of two plans of the same requests does not start with the shorter batch. */
  lemma FirstBatchNotShorter(h: Host, a: seq<Batch>, b: seq<Batch>)
    requires a != [] && b != [] && Requests(a) == Requests(b)
    requires AllFit(h, a) && Packed(h, a) && AllFit(h, b)
    ensures |a[0].requests| >= |b[0].requests|
  {
    hide Requests;
    FirstAndRest(a);
    FirstAndRest(b);
    assert Fits(h, a[0]);
    var n := |a[0].requests|;
    if |a| == 1 {
      assert a[1..] == [];
      NoRequests();
    } else {
      FirstAndRest(a[1..]);
      assert Fits(h, a[1]) && a[1..][0] == a[1];
      WithinBatch(h, b[0], Requests(b[1..]), n);
      assert Last(a[0].requests) == Requests(a)[n - 1] && First(a[1].requests) == Requests(a)[n];
    }
  }

  lemma WithinBatch(h: Host, b: Batch, rest: seq<Request>, n: nat)
    requires Fits(h, b) && 0 < n < |b.requests + rest|
    ensures n < |b.requests| ==>
              IsSafe(h, (b.requests + rest)[n - 1]) && IsSafe(h, (b.requests + rest)[n]) && |b.requests| <= h.maxParallel
  {
    if n < |b.requests| {
      assert (b.requests + rest)[n - 1] == b.requests[n - 1] && (b.requests + rest)[n] == b.requests[n];
    }
  }

  lemma NoRequests()
    ensures Requests([]) == []
  {
    assert Parts([]) == [];
  }

  lemma FirstAndRest(batches: seq<Batch>)
    requires batches != []
    ensures Requests(batches) == batches[0].requests + Requests(batches[1..])
  {
    assert Parts(batches)[1..] == Parts(batches[1..]);
  }

  /** There is one plan: the batches that fit and are packed are determined by the requests. */
  lemma {:induction false} PlanIsDetermined(h: Host, a: seq<Batch>, b: seq<Batch>)
    requires AllFit(h, a) && Packed(h, a) && AllFit(h, b) && Packed(h, b) && Requests(a) == Requests(b)
    ensures a == b
    decreases |a|
  {
    hide Requests, Packed, Fits;
    if a != [] && b != [] {
      FirstBatchNotShorter(h, a, b);
      FirstBatchNotShorter(h, b, a);
      FirstAndRest(a);
      FirstAndRest(b);
      var n := |a[0].requests|;
      assert a[0].requests == Requests(a)[..n] && b[0].requests == Requests(b)[..n];
      assert Requests(a[1..]) == Requests(a)[n..] && Requests(b[1..]) == Requests(b)[n..];
      SameBatch(h, a[0], b[0]);
      PackedRest(h, a);
      PackedRest(h, b);
      PlanIsDetermined(h, a[1..], b[1..]);
      assert a == [a[0]] + a[1..] && b == [b[0]] + b[1..];
    } else {
      EmptyPlanIsOnly(h, a);
      EmptyPlanIsOnly(h, b);
    }
  }

  lemma PackedRest(h: Host, batches: seq<Batch>)
    requires batches != [] && Packed(h, batches)
    ensures Packed(h, batches[1..])
  {
    forall k | 0 <= k < |batches[1..]| - 1
      ensures !IsSafe(h, Last(batches[1..][k].requests)) || !IsSafe(h, First(batches[1..][k + 1].requests))
              || |batches[1..][k].requests| == h.maxParallel
    {
      assert batches[1..][k] == batches[k + 1] && batches[1..][k + 1] == batches[(k + 1) + 1];
    }
  }

  lemma EmptyPlanIsOnly(h: Host, batches: seq<Batch>)
    requires AllFit(h, batches)
    ensures Requests(batches) == [] <==> batches == []
  {
    NoRequests();
    if batches != [] { FirstAndRest(batches); assert Fits(h, batches[0]); }
  }

  lemma SameBatch(h: Host, a: Batch, b: Batch)
    requires Fits(h, a) && Fits(h, b) && a.requests == b.requests
    ensures a == b
  {
  }

  /** No parallel batch holds a call that is not a safe read, so none reaches across one. */
  lemma NoUnsafeInParallel(h: Host, batches: seq<Batch>, k: nat, r: Request)
    requires AllFit(h, batches) && k < |batches| && r in batches[k].requests && !IsSafe(h, r)
    ensures batches[k].mode == Serial
  {
  }

  // ---------------------------------------------------------------------------
  // Executing
  // ---------------------------------------------------------------------------

  /** What the host notes of an executed request. */
  datatype Observation = Observation(request: Request, result: ToolResult)

  datatype Run = Run(results: seq<ToolResult>, workspace: Workspace, observed: seq<Observation>)

  /** One run and then the other. */
  function Join(a: Run, b: Run): Run { Run(a.results + b.results, b.workspace, a.observed + b.observed) }

  lemma JoinAssociative(a: Run, b: Run, c: Run)
    ensures Join(Join(a, b), c) == Join(a, Join(b, c))
  {
    assert (a.results + b.results) + c.results == a.results + (b.results + c.results);
    assert (a.observed + b.observed) + c.observed == a.observed + (b.observed + c.observed);
  }

  /** The last two recorded calls are the call that is asked for now. */
  predicate Repeats(h: Host, r: Request, history: seq<Call>)
  {
    |history| >= 2 && history[|history| - 1] == h.asked(r) && history[|history| - 2] == h.asked(r)
  }

  /** One request: the checks of the gateway, the test for a repeated call, the approval, the tool. */
  function Execute(h: Host, r: Request, history: seq<Call>, w: Workspace): (ToolResult, Workspace)
  {
    var refusal := h.check(r, w);
    if refusal.Some? then (ToolResult(r.callId, TurnedAway(refusal.value)), w)
    else if Repeats(h, r, history) then (ToolResult(r.callId, Repeated), w)
    else
      var (attempt, after) := h.run(r, w);
      (ToolResult(r.callId, if attempt.Done? then Ran(attempt.content) else Denied(attempt.why)), after)
  }

  /** A request by itself; it is noted unless it is turned away. */
  function Single(h: Host, r: Request, history: seq<Call>, w: Workspace): (run: Run)
    ensures |run.results| == 1
  {
    var (result, after) := Execute(h, r, history, w);
    Run([result], after, if Rejected(result) then [] else [Observation(r, result)])
  }

  function Calls(h: Host, requests: seq<Request>): seq<Call>
  {
    seq(|requests|, i requires 0 <= i < |requests| => h.recorded(requests[i]))
  }

  /** The history a request sees behind `before` in the same response. */
  function Seen(h: Host, history: seq<Call>, before: seq<Request>, recording: bool): seq<Call>
  {
    if recording then history + Calls(h, before) else history
  }

  /** One request after the other. When `recording`, each call is in the history before the next
      request is looked at; otherwise all see the history of the beginning. */
  function OneByOne(h: Host, requests: seq<Request>, history: seq<Call>, w: Workspace, recording: bool): (run: Run)
    ensures |run.results| == |requests|
  {
    if requests == [] then Run([], w, [])
    else
      var k := |requests| - 1;
      var before := OneByOne(h, requests[..k], history, w, recording);
      Join(before, Single(h, requests[k], Seen(h, history, requests[..k], recording), before.workspace))
  }

  /** Serial execution: every request is a batch of its own, recorded before the next. */
  function InSeries(h: Host, requests: seq<Request>, history: seq<Call>, w: Workspace): (run: Run)
    ensures |run.results| == |requests|
  {
    OneByOne(h, requests, history, w, true)
  }

  /** What is noted of a batch that runs in parallel: everything, in request order. */
  function Notes(requests: seq<Request>, results: seq<ToolResult>): seq<Observation>
    requires |requests| == |results|
  {
    seq(|requests|, i requires 0 <= i < |requests| => Observation(requests[i], results[i]))
  }

  /** A batch: nothing is recorded before all of it is done. */
  function OfBatch(h: Host, b: Batch, history: seq<Call>, w: Workspace): (run: Run)
    ensures |run.results| == |b.requests|
  {
    var run := OneByOne(h, b.requests, history, w, false);
    if b.mode == Parallel then run.(observed := Notes(b.requests, run.results)) else run
  }

  /** A plan: batch after batch, each recorded before the next. */
  function OfPlan(h: Host, batches: seq<Batch>, history: seq<Call>, w: Workspace): Run
  {
    if batches == [] then Run([], w, [])
    else
      var k := |batches| - 1;
      var before := OfPlan(h, batches[..k], history, w);
      Join(before, OfBatch(h, batches[k], history + Calls(h, Requests(batches[..k])), before.workspace))
  }

  /** Safe reads leave the workspace alone. */
  ghost predicate ReadsLeaveWorkspace(h: Host)
  {
    forall r, w :: IsSafe(h, r) ==> h.run(r, w).1 == w
  }

  ghost predicate IsOrder(order: seq<nat>, n: nat)
  {
    && |order| == n && (forall k :: 0 <= k < |order| ==> order[k] < n)
    && (forall i :: 0 <= i < n ==> i in order)
  }

  datatype Refusal = UnsafeRequest | TooManyRequests

  predicate AllSafe(h: Host, requests: seq<Request>) { forall i :: 0 <= i < |requests| ==> IsSafe(h, requests[i]) }

  /** The batch is one that may run. */
  predicate MayRun(h: Host, b: Batch)
  {
    b.mode == Parallel ==> AllSafe(h, b.requests) && |b.requests| <= h.maxParallel
  }

  /** The calls of a parallel batch complete in the order given; their results go to their places. */
  method RunParallel(h: Host, requests: seq<Request>, history: seq<Call>, w: Workspace, order: seq<nat>)
    returns (results: seq<ToolResult>, after: Workspace)
    requires IsOrder(order, |requests|) && ReadsLeaveWorkspace(h) && AllSafe(h, requests)
    ensures after == w && |results| == |requests|
    ensures forall i :: 0 <= i < |requests| ==> results[i] == Execute(h, requests[i], history, w).0
  {
    after := w;
    results := seq(|requests|, i requires 0 <= i < |requests| => ToolResult(requests[i].callId, Repeated));
    var k := 0;
    while k < |order|
      invariant 0 <= k <= |order| && |results| == |requests| && after == w
      invariant forall j :: 0 <= j < k ==> results[order[j]] == Execute(h, requests[order[j]], history, w).0
    {
      var i := order[k];
      var (result, next) := Execute(h, requests[i], history, after);
      results, after := results[i := result], next;
      k := k + 1;
    }
    forall i | 0 <= i < |requests| ensures results[i] == Execute(h, requests[i], history, w).0 {
      assert i in order;
    }
  }

  method RunSerial(h: Host, requests: seq<Request>, history: seq<Call>, w: Workspace) returns (run: Run)
    ensures run == OneByOne(h, requests, history, w, false)
  {
    run := Run([], w, []);
    for i := 0 to |requests|
      invariant run == OneByOne(h, requests[..i], history, w, false)
    {
      assert requests[..i + 1][..i] == requests[..i];
      run := Join(run, Single(h, requests[i], history, run.workspace));
    }
    assert requests[..|requests|] == requests;
  }

  lemma ReadLeavesWorkspace(h: Host, r: Request, history: seq<Call>, w: Workspace)
    requires ReadsLeaveWorkspace(h) && IsSafe(h, r)
    ensures Execute(h, r, history, w).1 == w
  {
  }

  /** Safe reads one by one are the reads over the same workspace, each with the history it sees. */
  lemma {:induction false} ReadsOneByOne(h: Host, requests: seq<Request>, history: seq<Call>, w: Workspace, recording: bool)
    requires ReadsLeaveWorkspace(h) && AllSafe(h, requests)
    ensures var run := OneByOne(h, requests, history, w, recording);
            && run.workspace == w
            && forall i :: 0 <= i < |requests| ==>
                 run.results[i] == Execute(h, requests[i], Seen(h, history, requests[..i], recording), w).0
    decreases |requests|
  {
    if requests != [] {
      var k := |requests| - 1;
      var init := requests[..k];
      ReadsOneByOne(h, init, history, w, recording);
      ReadLeavesWorkspace(h, requests[k], Seen(h, history, init, recording), w);
      hide Execute, Seen, IsSafe, ReadsLeaveWorkspace;
      var before, run := OneByOne(h, init, history, w, recording), OneByOne(h, requests, history, w, recording);
      forall i | 0 <= i < k
        ensures run.results[i] == Execute(h, requests[i], Seen(h, history, requests[..i], recording), w).0
      {
        assert init[..i] == requests[..i] && run.results[i] == before.results[i];
      }
    }
  }

  method ExecuteBatch(h: Host, b: Batch, history: seq<Call>, w: Workspace, order: seq<nat>) returns (r: Result<Run, Refusal>)
    requires ReadsLeaveWorkspace(h) && IsOrder(order, |b.requests|)
    ensures r.Ok? <==> MayRun(h, b)
    ensures r == Err(UnsafeRequest)
            <==> b.mode == Parallel && exists q :: q in b.requests && !(h.effect(q) == Read && h.concurrencySafe(q))
    ensures r == Err(TooManyRequests)
            <==> b.mode == Parallel && |b.requests| > h.maxParallel
                 && forall q :: q in b.requests ==> h.effect(q) == Read && h.concurrencySafe(q)
    ensures r.Ok? ==> r.value == OfBatch(h, b, history, w)
  {
    if b.mode == Serial {
      var run := RunSerial(h, b.requests, history, w);
      return Ok(run);
    }
    if exists i :: 0 <= i < |b.requests| && !IsSafe(h, b.requests[i]) { return Err(UnsafeRequest); }
    if |b.requests| > h.maxParallel { return Err(TooManyRequests); }
    var results, after := RunParallel(h, b.requests, history, w, order);
    ReadsOneByOne(h, b.requests, history, w, false);
    assert results == OneByOne(h, b.requests, history, w, false).results;
    var observed: seq<Observation> := [];
    for i := 0 to |b.requests|
      invariant |observed| == i && forall j :: 0 <= j < i ==> observed[j] == Observation(b.requests[j], results[j])
    {
      observed := observed + [Observation(b.requests[i], results[i])];
    }
    assert observed == Notes(b.requests, results);
    r := Ok(Run(results, after, observed));
  }

  lemma FittingMayRun(h: Host, b: Batch)
    requires Fits(h, b) && h.maxParallel >= 1
    ensures MayRun(h, b)
  {
  }

  lemma CallsAppend(h: Host, a: seq<Request>, b: seq<Request>)
    ensures Calls(h, a + b) == Calls(h, a) + Calls(h, b)
  {
  }

  lemma OfPlanAppend(h: Host, batches: seq<Batch>, k: nat, history: seq<Call>, w: Workspace)
    requires k < |batches|
    ensures var before := OfPlan(h, batches[..k], history, w);
            OfPlan(h, batches[..k + 1], history, w)
            == Join(before, OfBatch(h, batches[k], history + Calls(h, Requests(batches[..k])), before.workspace))
    ensures Requests(batches[..k + 1]) == Requests(batches[..k]) + batches[k].requests
  {
    assert batches[..k + 1] == batches[..k] + [batches[k]] && batches[..k + 1][..k] == batches[..k];
    RequestsAppend(batches[..k], batches[k]);
  }

  /** The loop over the batches of a response, with any completion orders inside the parallel ones.
      The calls of a batch are recorded when all of it is done. */
  method ExecutePlan(h: Host, batches: seq<Batch>, history: seq<Call>, w: Workspace, orders: seq<seq<nat>>)
    returns (run: Run, recorded: seq<Call>)
    requires ReadsLeaveWorkspace(h) && h.maxParallel >= 1 && AllFit(h, batches)
    requires |orders| == |batches| && forall k :: 0 <= k < |batches| ==> IsOrder(orders[k], |batches[k].requests|)
    ensures run == OfPlan(h, batches, history, w)
    ensures recorded == history + Calls(h, Requests(batches))
  {
    hide Fits, OfBatch, Requests, Calls;
    run, recorded := Run([], w, []), history;
    NothingYet(h, batches, history);
    for k := 0 to |batches|
      invariant run == OfPlan(h, batches[..k], history, w)
      invariant recorded == history + Calls(h, Requests(batches[..k]))
    {
      var b := batches[k];
      FittingMayRun(h, b);
      var r := ExecuteBatch(h, b, recorded, run.workspace, orders[k]);
      OfPlanAppend(h, batches, k, history, w);
      CallsAppend(h, Requests(batches[..k]), b.requests);
      run := Join(run, r.value);
      recorded := recorded + Calls(h, b.requests);
    }
    assert batches[..|batches|] == batches;
  }

  lemma NothingYet(h: Host, batches: seq<Batch>, history: seq<Call>)
    ensures history + Calls(h, Requests(batches[..0])) == history
  {
  }

  // ---------------------------------------------------------------------------
  // What a plan and its execution are, request by request
  // ---------------------------------------------------------------------------

  /** Several requests are together only if all are reads that are safe to run at once, and then they
      run in parallel. */
  lemma BatchMeans(h: Host, b: Batch)
    requires Fits(h, b)
    ensures b.effects == seq(|b.requests|, i requires 0 <= i < |b.requests| => h.effect(b.requests[i]))
    ensures |b.requests| == 1 || 2 <= |b.requests| <= h.maxParallel
    ensures |b.requests| > 1 ==> b.mode == Parallel && b.reason == ConcurrencySafeRead
    ensures |b.requests| > 1 ==> forall r :: r in b.requests ==> h.effect(r) == Read && h.concurrencySafe(r)
    ensures |b.requests| == 1 ==> b.mode == Serial
    ensures |b.requests| == 1 ==>
              var r := b.requests[0];
              b.reason == match h.effect(r)
                          case Read => if h.concurrencySafe(r) then ConcurrencySafeReadSingleton else ReadNotConcurrencySafe
                          case Unknown => UnresolvedToolSerialized
                          case _ => MutationConflictPolicy
  {
    var r := First(b.requests);
    assert r == b.requests[0];
    assert |b.requests| == 1 ==> b.effects == [h.effect(r)];
  }

  /** The history ends with the call twice. */
  ghost predicate EndsTwiceWith(history: seq<Call>, call: Call)
  {
    exists earlier :: history == earlier + [call, call]
  }

  /** What one request may come to, and what it does to the workspace. */
  ghost predicate IsStep(h: Host, r: Request, history: seq<Call>, w: Workspace, result: ToolResult, after: Workspace)
  {
    result.callId == r.callId
    && match result.outcome
       case TurnedAway(why) => h.check(r, w) == Some(why) && after == w
       case Repeated => h.check(r, w).None? && EndsTwiceWith(history, h.asked(r)) && after == w
       case Denied(why) =>
         h.check(r, w).None? && !EndsTwiceWith(history, h.asked(r)) && h.run(r, w) == (Refused(why), after)
       case Ran(content) =>
         h.check(r, w).None? && !EndsTwiceWith(history, h.asked(r)) && h.run(r, w) == (Done(content), after)
  }

  lemma ExecuteMeans(h: Host, r: Request, history: seq<Call>, w: Workspace)
    ensures var (result, after) := Execute(h, r, history, w); IsStep(h, r, history, w, result, after)
  {
    var call := h.asked(r);
    if Repeats(h, r, history) {
      assert history == history[..|history| - 2] + [call, call];
    }
    forall earlier | history == earlier + [call, call] ensures Repeats(h, r, history) { }
  }

  /** The requests take their steps in order over these workspaces. The i-th sees the calls of the
      first marks[i] requests behind the history. */
  ghost predicate Executes(
    h: Host, requests: seq<Request>, marks: seq<nat>, history: seq<Call>, ws: seq<Workspace>, results: seq<ToolResult>)
  {
    && |marks| == |requests| && |results| == |requests| && |ws| == |requests| + 1
    && forall i :: 0 <= i < |requests| ==>
         && marks[i] <= i
         && IsStep(h, requests[i], history + Calls(h, requests[..marks[i]]), ws[i], results[i], ws[i + 1])
  }

  predicate WasRun(o: Observation) { o.result.outcome.Ran? }

  lemma OneMoreStep(h: Host, a: seq<Request>, marks: seq<nat>, history: seq<Call>, ws: seq<Workspace>,
                    results: seq<ToolResult>, r: Request, m: nat, result: ToolResult, after: Workspace)
    requires Executes(h, a, marks, history, ws, results) && m <= |a|
    requires IsStep(h, r, history + Calls(h, a[..m]), ws[|a|], result, after)
    ensures Executes(h, a + [r], marks + [m], history, ws + [after], results + [result])
  {
    hide IsStep, Calls;
    forall i | 0 <= i < |a| ensures (a + [r])[..marks[i]] == a[..marks[i]] { }
    assert (a + [r])[..m] == a[..m];
  }

  lemma NotesAppend(requests: seq<Request>, results: seq<ToolResult>, r: Request, result: ToolResult)
    requires |requests| == |results|
    ensures Notes(requests + [r], results + [result]) == Notes(requests, results) + [Observation(r, result)]
  {
  }

  /** Requests one by one, each over the workspace the one before left; those that ran are noted. */
  lemma {:induction false} OneByOneMeans(h: Host, requests: seq<Request>, history: seq<Call>, w: Workspace, recording: bool)
    returns (ws: seq<Workspace>)
    ensures var run := OneByOne(h, requests, history, w, recording);
            && Executes(h, requests, seq(|requests|, i => if recording then i else 0), history, ws, run.results)
            && ws[0] == w && ws[|requests|] == run.workspace
            && run.observed == Filter(Notes(requests, run.results), WasRun)
    decreases |requests|
  {
    hide Execute, IsStep, Calls, EndsTwiceWith, Notes, Filter, OneByOne, Seen, Executes;
    if requests == [] {
      ws := [w];
      NothingExecuted(h, history, w, recording);
    } else {
      var k := |requests| - 1;
      var init, r := requests[..k], requests[k];
      var before := OneByOne(h, init, history, w, recording);
      var earlier := OneByOneMeans(h, init, history, w, recording);
      var seen, m := Seen(h, history, init, recording), if recording then k else 0;
      var (result, after) := Execute(h, r, seen, before.workspace);
      ExecuteMeans(h, r, seen, before.workspace);
      SeenIs(h, history, init, recording);
      OneMoreStep(h, init, seq(k, i => if recording then i else 0), history, earlier, before.results, r, m, result, after);
      NotesAppend(init, before.results, r, result);
      FilterAppend(Notes(init, before.results), Observation(r, result), WasRun);
      LastOne(h, requests, history, w, recording);
      ws := earlier + [after];
      ResultsAreOfRequests(h, init, seq(k, i => if recording then i else 0), history, earlier, before.results);
      assert init + [r] == requests;
      assert seq(k, i => if recording then i else 0) + [m] == seq(k + 1, i => if recording then i else 0);
    }
  }

  lemma NothingExecuted(h: Host, history: seq<Call>, w: Workspace, recording: bool)
    ensures OneByOne(h, [], history, w, recording) == Run([], w, []) && Filter(Notes([], []), WasRun) == []
    ensures Executes(h, [], seq(0, i => if recording then i else 0), history, [w], [])
  {
  }

  lemma LastOne(h: Host, requests: seq<Request>, history: seq<Call>, w: Workspace, recording: bool)
    requires requests != []
    ensures var k := |requests| - 1;
            var before, run := OneByOne(h, requests[..k], history, w, recording), OneByOne(h, requests, history, w, recording);
            var (result, after) := Execute(h, requests[k], Seen(h, history, requests[..k], recording), before.workspace);
            && run.results == before.results + [result] && run.workspace == after
            && run.observed == before.observed + if result.outcome.Ran? then [Observation(requests[k], result)] else []
  {
    hide Execute, Seen;
  }

  lemma SeenIs(h: Host, history: seq<Call>, before: seq<Request>, recording: bool)
    ensures Seen(h, history, before, recording) == history + Calls(h, before[..if recording then |before| else 0])
  {
    assert before[..|before|] == before;
  }

  lemma CallsAre(h: Host, requests: seq<Request>, i: nat)
    requires i < |requests|
    ensures |Calls(h, requests)| == |requests| && Calls(h, requests)[i] == h.recorded(requests[i])
  {
  }

  /** For each request of a plan, how many requests are before its batch. */
  function Marks(batches: seq<Batch>): (r: seq<nat>)
    ensures |r| == |Requests(batches)|
  {
    if batches == [] then []
    else
      var k := |batches| - 1;
      assert batches[..k] + [batches[k]] == batches;
      RequestsAppend(batches[..k], batches[k]);
      Marks(batches[..k]) + seq(|batches[k].requests|, _ => |Requests(batches[..k])|)
  }

  /** A parallel batch notes everything, any other what ran. */
  ghost predicate NotesAre(batches: seq<Batch>, results: seq<ToolResult>, observed: seq<Observation>)
  {
    if batches == [] then observed == []
    else
      var b := batches[|batches| - 1];
      var n := |results| - |b.requests|;
      n >= 0 && exists k: nat ::
                  && k <= |observed| && NotesAre(batches[..|batches| - 1], results[..n], observed[..k])
                  && observed[k..] == if b.mode == Parallel then Notes(b.requests, results[n..])
                                      else Filter(Notes(b.requests, results[n..]), WasRun)
  }

  lemma JoinSteps(h: Host, a: seq<Request>, marks: seq<nat>, history: seq<Call>, ws: seq<Workspace>,
                  results: seq<ToolResult>, b: seq<Request>, vs: seq<Workspace>, more: seq<ToolResult>)
    requires Executes(h, a, marks, history, ws, results)
    requires Executes(h, b, seq(|b|, _ => 0), history + Calls(h, a), vs, more) && vs[0] == ws[|a|]
    ensures Executes(h, a + b, marks + seq(|b|, _ => |a|), history, ws[..|a|] + vs, results + more)
  {
    hide IsStep, Calls;
    var all, us := a + b, ws[..|a|] + vs;
    forall i | 0 <= i < |a|
      ensures IsStep(h, all[i], history + Calls(h, all[..marks[i]]), us[i], (results + more)[i], us[i + 1])
    {
      assert all[..marks[i]] == a[..marks[i]] && us[i + 1] == ws[i + 1];
    }
    assert all[..|a|] == a;
    forall i | |a| <= i < |all|
      ensures IsStep(h, all[i], history + Calls(h, a), us[i], (results + more)[i], us[i + 1])
    {
      NoCalls(h, history + Calls(h, a), b);
      assert b[i - |a|] == all[i];
    }
  }

  lemma NoCalls(h: Host, history: seq<Call>, b: seq<Request>)
    ensures history + Calls(h, b[..0]) == history
  {
  }

  /** The requests of a plan in order, each over the workspace the one before left and with the calls
      of all earlier batches in its history. */
  lemma {:induction false} PlanMeans(h: Host, batches: seq<Batch>, history: seq<Call>, w: Workspace)
    returns (ws: seq<Workspace>)
    ensures var run := OfPlan(h, batches, history, w);
            && Executes(h, Requests(batches), Marks(batches), history, ws, run.results)
            && ws[0] == w && ws[|Requests(batches)|] == run.workspace
            && NotesAre(batches, run.results, run.observed)
    decreases |batches|
  {
    hide OfPlan, OfBatch, Executes, Calls, Requests, Marks, NotesAre;
    if batches == [] {
      ws := [w];
      EmptyPlan(h, history, w);
    } else {
      var k := |batches| - 1;
      var init, b := batches[..k], batches[k];
      var before := OfPlan(h, init, history, w);
      var seen := history + Calls(h, Requests(init));
      var earlier := PlanMeans(h, init, history, w);
      ResultsAreOfRequests(h, Requests(init), Marks(init), history, earlier, before.results);
      var vs := BatchRunMeans(h, b, seen, before.workspace);
      ResultsAreOfRequests(h, b.requests, seq(|b.requests|, _ => 0), seen, vs, OfBatch(h, b, seen, before.workspace).results);
      JoinSteps(h, Requests(init), Marks(init), history, earlier, before.results, b.requests, vs,
                OfBatch(h, b, seen, before.workspace).results);
      LastBatch(h, batches, history, w);
      NotesOfMore(batches, before.results, before.observed,
                  OfBatch(h, b, seen, before.workspace).results, OfBatch(h, b, seen, before.workspace).observed);
      ws := earlier[..|Requests(init)|] + vs;
    }
  }

  lemma LastBatch(h: Host, batches: seq<Batch>, history: seq<Call>, w: Workspace)
    requires batches != []
    ensures var init, b := batches[..|batches| - 1], batches[|batches| - 1];
            var before := OfPlan(h, init, history, w);
            && OfPlan(h, batches, history, w)
               == Join(before, OfBatch(h, b, history + Calls(h, Requests(init)), before.workspace))
            && Requests(batches) == Requests(init) + b.requests
            && Marks(batches) == Marks(init) + seq(|b.requests|, _ => |Requests(init)|)
  {
    hide OfBatch, Calls, Requests;
    RequestsAppend(batches[..|batches| - 1], batches[|batches| - 1]);
    assert batches[..|batches| - 1] + [batches[|batches| - 1]] == batches;
  }

  lemma NotesOfMore(batches: seq<Batch>, results: seq<ToolResult>, observed: seq<Observation>,
                    more: seq<ToolResult>, notes: seq<Observation>)
    requires batches != [] && NotesAre(batches[..|batches| - 1], results, observed)
    requires var b := batches[|batches| - 1];
             |more| == |b.requests|
             && notes == if b.mode == Parallel then Notes(b.requests, more) else Filter(Notes(b.requests, more), WasRun)
    ensures NotesAre(batches, results + more, observed + notes)
  {
    hide Notes, Filter;
    var all, k := observed + notes, |observed|;
    assert (results + more)[..|results|] == results && (results + more)[|results|..] == more;
    assert all[..k] == observed && all[k..] == notes;
  }

  lemma ResultsAreOfRequests(
    h: Host, requests: seq<Request>, marks: seq<nat>, history: seq<Call>, ws: seq<Workspace>, results: seq<ToolResult>)
    requires Executes(h, requests, marks, history, ws, results)
    ensures |results| == |requests| && |ws| == |requests| + 1
  {
  }

  lemma EmptyPlan(h: Host, history: seq<Call>, w: Workspace)
    ensures OfPlan(h, [], history, w) == Run([], w, []) && Requests([]) == [] && NotesAre([], [], [])
    ensures Executes(h, Requests([]), Marks([]), history, [w], [])
  {
    assert Parts([]) == [];
  }

  lemma BatchRunMeans(h: Host, b: Batch, history: seq<Call>, w: Workspace) returns (ws: seq<Workspace>)
    ensures var run := OfBatch(h, b, history, w);
            && Executes(h, b.requests, seq(|b.requests|, _ => 0), history, ws, run.results)
            && |ws| == |b.requests| + 1 && ws[0] == w && ws[|b.requests|] == run.workspace
            && run.observed == if b.mode == Parallel then Notes(b.requests, run.results)
                               else Filter(Notes(b.requests, run.results), WasRun)
  {
    ws := OneByOneMeans(h, b.requests, history, w, false);
    hide OneByOne, IsStep, Calls, Notes, Filter;
    assert seq(|b.requests|, i => if false then i else 0) == seq(|b.requests|, _ => 0);
  }

  // ---------------------------------------------------------------------------
  // When a plan does what serial execution does
  // ---------------------------------------------------------------------------

  predicate AnyRejected(results: seq<ToolResult>) { exists i :: 0 <= i < |results| && Rejected(results[i]) }

  /** The test for a repeated call answers the same at the beginning of the batch as after all
      earlier requests. */
  predicate SameAnswer(h: Host, requests: seq<Request>, i: nat, history: seq<Call>)
    requires i < |requests|
  {
    Repeats(h, requests[i], history) == Repeats(h, requests[i], history + Calls(h, requests[..i]))
  }

  /** So it does for every request of a batch that gets as far as the test. */
  predicate SameAnswers(h: Host, requests: seq<Request>, history: seq<Call>, w: Workspace)
  {
    forall i :: 0 <= i < |requests| ==> h.check(requests[i], w).Some? || SameAnswer(h, requests, i, history)
  }

  /** And for every batch of a plan. */
  predicate TestsAgree(h: Host, batches: seq<Batch>, history: seq<Call>, w: Workspace)
  {
    batches == []
    || var k := |batches| - 1;
       && TestsAgree(h, batches[..k], history, w)
       && SameAnswers(h, batches[k].requests, history + Calls(h, Requests(batches[..k])),
                      OfPlan(h, batches[..k], history, w).workspace)
  }

  /** A request in some parallel batch of the plan is turned away. */
  predicate RejectsInParallel(h: Host, batches: seq<Batch>, history: seq<Call>, w: Workspace)
  {
    batches != []
    && var k := |batches| - 1;
       var before := OfPlan(h, batches[..k], history, w);
       var run := OfBatch(h, batches[k], history + Calls(h, Requests(batches[..k])), before.workspace);
       RejectsInParallel(h, batches[..k], history, w) || (batches[k].mode == Parallel && AnyRejected(run.results))
  }

  lemma TestDecides(h: Host, r: Request, a: seq<Call>, b: seq<Call>, w: Workspace)
    ensures Execute(h, r, a, w).0 == Execute(h, r, b, w).0
            <==> h.check(r, w).Some? || Repeats(h, r, a) == Repeats(h, r, b)
  {
  }

  lemma {:induction false} SeriesNotes(h: Host, requests: seq<Request>, history: seq<Call>, w: Workspace, recording: bool)
    ensures var run := OneByOne(h, requests, history, w, recording);
            && |run.observed| <= |requests|
            && (AnyRejected(run.results) <==> |run.observed| < |requests|)
            && (!AnyRejected(run.results) ==> run.observed == Notes(requests, run.results))
    decreases |requests|
  {
    if requests != [] {
      var k := |requests| - 1;
      SeriesNotes(h, requests[..k], history, w, recording);
      var before := OneByOne(h, requests[..k], history, w, recording);
      var run := OneByOne(h, requests, history, w, recording);
      RejectedAppend(before.results, run.results[k]);
      assert run.results == before.results + [run.results[k]];
      if !AnyRejected(run.results) {
        assert Notes(requests, run.results) == Notes(requests[..k], before.results) + [Observation(requests[k], run.results[k])];
      }
    }
  }

  lemma RejectedAppend(results: seq<ToolResult>, result: ToolResult)
    ensures AnyRejected(results + [result]) <==> AnyRejected(results) || Rejected(result)
  {
    var more := results + [result];
    assert more[|results|] == result;
    if AnyRejected(results) {
      var i :| 0 <= i < |results| && Rejected(results[i]);
      assert more[i] == results[i];
    }
  }

  lemma NoneInSeries(h: Host, history: seq<Call>, w: Workspace)
    ensures InSeries(h, [], history, w) == Run([], w, [])
  {
  }

  lemma OneMoreInSeries(h: Host, a: seq<Request>, r: Request, history: seq<Call>, w: Workspace)
    ensures var before := InSeries(h, a, history, w);
            InSeries(h, a + [r], history, w) == Join(before, Single(h, r, history + Calls(h, a), before.workspace))
  {
    assert (a + [r])[..|a|] == a && (a + [r])[|a|] == r;
  }

  lemma {:induction false} InSeriesConcat(h: Host, a: seq<Request>, b: seq<Request>, history: seq<Call>, w: Workspace)
    ensures var first := InSeries(h, a, history, w);
            InSeries(h, a + b, history, w) == Join(first, InSeries(h, b, history + Calls(h, a), first.workspace))
    decreases |b|
  {
    hide OneByOne, InSeries;
    var first, seen := InSeries(h, a, history, w), history + Calls(h, a);
    if b == [] {
      assert a + b == a && InSeries(h, b, seen, first.workspace) == Run([], first.workspace, []) by {
        NoneInSeries(h, seen, first.workspace);
      }
    } else {
      var k := |b| - 1;
      InSeriesConcat(h, a, b[..k], history, w);
      AppendInSeries(h, a, b[..k], b[k], history, w, first, InSeries(h, b[..k], seen, first.workspace));
      assert (a + b[..k]) + [b[k]] == a + b && b[..k] + [b[k]] == b;
    }
  }

  lemma AppendInSeries(h: Host, a: seq<Request>, b: seq<Request>, r: Request, history: seq<Call>, w: Workspace,
                       first: Run, second: Run)
    requires first == InSeries(h, a, history, w) && second == InSeries(h, b, history + Calls(h, a), first.workspace)
    requires InSeries(h, a + b, history, w) == Join(first, second)
    ensures InSeries(h, (a + b) + [r], history, w)
            == Join(first, InSeries(h, b + [r], history + Calls(h, a), first.workspace))
  {
    OneMoreInSeries(h, a + b, r, history, w);
    OneMoreInSeries(h, b, r, history + Calls(h, a), first.workspace);
    CallsAppend(h, a, b);
    assert history + (Calls(h, a) + Calls(h, b)) == (history + Calls(h, a)) + Calls(h, b);
    JoinAssociative(first, second, Single(h, r, (history + Calls(h, a)) + Calls(h, b), second.workspace));
  }

  lemma SameConcat<T>(a: seq<T>, b: seq<T>, c: seq<T>, d: seq<T>)
    requires |a| >= |c| && |b| >= |d|
    ensures a + b == c + d <==> a == c && b == d
  {
    if a + b == c + d {
      assert |a| == |c|;
      assert a == (a + b)[..|a|] && c == (c + d)[..|c|];
      assert b == (a + b)[|a|..] && d == (c + d)[|c|..];
    }
  }

  /** A batch and the same requests in series: the same workspace, the same results exactly if the
      tests answer the same, and the same notes exactly if besides nothing is turned away in
      parallel, since serial execution does not note such calls while a parallel batch does. */
  lemma BatchAgrees(h: Host, b: Batch, history: seq<Call>, w: Workspace)
    requires ReadsLeaveWorkspace(h) && Fits(h, b)
    ensures var batch, series := OfBatch(h, b, history, w), InSeries(h, b.requests, history, w);
            && batch.workspace == series.workspace
            && (batch.results == series.results <==> SameAnswers(h, b.requests, history, w))
            && |batch.observed| >= |series.observed|
            && (batch.observed == series.observed
                <==> SameAnswers(h, b.requests, history, w) && !(b.mode == Parallel && AnyRejected(batch.results)))
  {
    if b.mode == Serial {
      SingletonAgrees(h, b, history, w);
    } else {
      ParallelAgrees(h, b, history, w);
    }
  }

  lemma SingletonAgrees(h: Host, b: Batch, history: seq<Call>, w: Workspace)
    requires Fits(h, b) && b.mode == Serial
    ensures OfBatch(h, b, history, w) == InSeries(h, b.requests, history, w) && SameAnswers(h, b.requests, history, w)
  {
    var requests := b.requests;
    assert |requests| == 1;
    assert requests[..0] == [] && history + Calls(h, []) == history;
    assert Seen(h, history, requests[..0], true) == Seen(h, history, requests[..0], false);
    hide Single, Seen;
    assert OneByOne(h, requests[..0], history, w, true) == OneByOne(h, requests[..0], history, w, false);
    assert OneByOne(h, requests, history, w, true) == OneByOne(h, requests, history, w, false);
  }

  lemma ParallelAgrees(h: Host, b: Batch, history: seq<Call>, w: Workspace)
    requires ReadsLeaveWorkspace(h) && AllSafe(h, b.requests) && b.mode == Parallel
    ensures var batch, series := OfBatch(h, b, history, w), InSeries(h, b.requests, history, w);
            && batch.workspace == series.workspace
            && (batch.results == series.results <==> SameAnswers(h, b.requests, history, w))
            && |batch.observed| >= |series.observed|
            && (batch.observed == series.observed
                <==> SameAnswers(h, b.requests, history, w) && !AnyRejected(batch.results))
  {
    var requests := b.requests;
    var batch, series := OfBatch(h, b, history, w), InSeries(h, requests, history, w);
    ReadsOneByOne(h, requests, history, w, false);
    ReadsOneByOne(h, requests, history, w, true);
    SeriesNotes(h, requests, history, w, true);
    hide OneByOne, Execute, Repeats;
    forall i | 0 <= i < |requests|
      ensures batch.results[i] == series.results[i] <==> h.check(requests[i], w).Some? || SameAnswer(h, requests, i, history)
    {
      TestDecides(h, requests[i], history, history + Calls(h, requests[..i]), w);
    }
    assert batch.results == series.results <==> SameAnswers(h, requests, history, w);
    if batch.observed == series.observed {
      assert series.observed == Notes(requests, series.results);
      forall i | 0 <= i < |requests| ensures batch.results[i] == series.results[i] {
        assert batch.observed[i].result == batch.results[i] && series.observed[i].result == series.results[i];
      }
    }
  }

  /** Executing a plan and executing its requests one by one always leave the same workspace. The
      results are the same exactly if the test for a repeated call answers every request the same
      at the beginning of its batch as after all earlier requests, and the notes of the host are
      the same exactly if besides no request of a parallel batch is turned away. */
  lemma {:induction false} PlanAgrees(h: Host, batches: seq<Batch>, history: seq<Call>, w: Workspace)
    requires ReadsLeaveWorkspace(h) && AllFit(h, batches)
    ensures var plan, series := OfPlan(h, batches, history, w), InSeries(h, Requests(batches), history, w);
            && plan.workspace == series.workspace
            && |plan.results| == |series.results|
            && (plan.results == series.results <==> TestsAgree(h, batches, history, w))
            && |plan.observed| >= |series.observed|
            && (plan.observed == series.observed
                <==> TestsAgree(h, batches, history, w) && !RejectsInParallel(h, batches, history, w))
    decreases |batches|
  {
    if batches != [] {
      var k := |batches| - 1;
      var init, b := batches[..k], batches[k];
      assert batches[..k + 1] == batches;
      PlanAgrees(h, init, history, w);
      OfPlanAppend(h, batches, k, history, w);
      var earlier, at := Requests(init), OfPlan(h, init, history, w).workspace;
      InSeriesConcat(h, earlier, b.requests, history, w);
      BatchAgrees(h, b, history + Calls(h, earlier), at);
      hide OfBatch, InSeries, SameAnswers, Fits, Requests, Calls;
      var run, one := OfBatch(h, b, history + Calls(h, earlier), at), InSeries(h, b.requests, history + Calls(h, earlier), at);
      SameConcat(OfPlan(h, init, history, w).results, run.results, InSeries(h, earlier, history, w).results, one.results);
      SameConcat(OfPlan(h, init, history, w).observed, run.observed, InSeries(h, earlier, history, w).observed, one.observed);
    }
  }

  // ---------------------------------------------------------------------------
  // The condition before the call
  // ---------------------------------------------------------------------------

  /** The tests answer the same, by the requests and the history alone. */
  predicate AnswersAgree(h: Host, batches: seq<Batch>, history: seq<Call>)
  {
    batches == []
    || var k := |batches| - 1;
       && AnswersAgree(h, batches[..k], history)
       && forall i :: 0 <= i < |batches[k].requests| ==>
            SameAnswer(h, batches[k].requests, i, history + Calls(h, Requests(batches[..k])))
  }

  /** If all requests get as far as the test, the condition needs the requests and the history
      only; and it is always enough. */
  lemma {:induction false} TestsFromHistory(h: Host, batches: seq<Batch>, history: seq<Call>, w: Workspace)
    ensures AnswersAgree(h, batches, history) ==> TestsAgree(h, batches, history, w)
    ensures (forall k, r, v :: 0 <= k < |batches| && r in batches[k].requests ==> h.check(r, v).None?) ==>
              (TestsAgree(h, batches, history, w) <==> AnswersAgree(h, batches, history))
    decreases |batches|
  {
    hide SameAnswer, SameAnswers, Requests, Calls, OfPlan;
    if batches != [] {
      var k := |batches| - 1;
      TestsFromHistory(h, batches[..k], history, w);
      BatchFromHistory(h, batches[k].requests, history + Calls(h, Requests(batches[..k])),
                       OfPlan(h, batches[..k], history, w).workspace);
    }
  }

  lemma BatchFromHistory(h: Host, requests: seq<Request>, history: seq<Call>, w: Workspace)
    ensures (forall i :: 0 <= i < |requests| ==> SameAnswer(h, requests, i, history)) ==> SameAnswers(h, requests, history, w)
    ensures (forall r, v :: r in requests ==> h.check(r, v).None?) && SameAnswers(h, requests, history, w) ==>
              forall i :: 0 <= i < |requests| ==> SameAnswer(h, requests, i, history)
  {
    hide SameAnswer;
  }

  /** Every tool is a safe read that answers nothing. */
  function Readers(): Host
  {
    Host(_ => Read, _ => true, (_, _) => None, (r: Request) => Call(r.name, r.arguments), (r: Request) => Call(r.name, r.arguments),
         (_, w) => (Done(""), w), 4)
  }

  /** Three identical reads in one response: a parallel batch executes them all, while in series the
      third is turned away. */
  lemma ThirdReadDiffers(r: Request, w: Workspace)
    ensures Fits(Readers(), Together([r, r, r]))
    ensures OfPlan(Readers(), [Together([r, r, r])], [], w).results[2].outcome == Ran("")
    ensures InSeries(Readers(), [r, r, r], [], w).results[2].outcome == Repeated
  {
  }
}
