/** Fitting a list of messages to a token budget without orphaning tool results: thinking-only
    messages go first, then old tool outputs are elided, then old exchanges dropped, then texts
    clipped as little as possible. */
module ContextOverflow {

  import opened Messages
  import opened Ordering
  import opened Sequences
  import opened Wrappers

  const ELISION := "[earlier tool output elided to fit the context window]"
  const PAYLOAD_ELISION := "[content elided to fit input budget]"
  const KEEP_RECENT: nat := 3

  function Elided(m: Message): Message { m.(content := ELISION) }

  // ---------------------------------------------------------------------------
  // Emergency shrinking
  // ---------------------------------------------------------------------------

  /** The number of tool results among the first `n` messages. */
  function Tools(s: seq<Message>, n: nat): nat
    requires n <= |s|
  {
    if n == 0 then 0 else Tools(s, n - 1) + (if s[n - 1].role == Tool then 1 else 0)
  }

  /** A tool result with text and at least three tool results after it. */
  predicate IsOld(s: seq<Message>, i: nat)
    requires i < |s|
  {
    && s[i].role == Tool && Tools(s, i) + KEEP_RECENT < Tools(s, |s|)
    && s[i].content != "" && s[i].content != ELISION
  }

  function EmergencyAt(s: seq<Message>, i: nat): Message
    requires i < |s|
  {
    if IsOld(s, i) then Elided(s[i]) else s[i]
  }

  ghost predicate IsEmergency(s: seq<Message>, r: seq<Message>)
  {
    |r| == |s| && forall i :: 0 <= i < |s| ==> r[i] == EmergencyAt(s, i)
  }

  /** The positions of the tool results among the first `n` messages, in order. */
  ghost predicate AreToolIndexes(s: seq<Message>, n: nat, tools: seq<nat>)
    requires n <= |s|
  {
    && |tools| == Tools(s, n)
    && (forall a :: 0 <= a < |tools| ==> tools[a] < n && s[tools[a]].role == Tool && Tools(s, tools[a]) == a)
    && (forall i :: 0 <= i < n && s[i].role == Tool ==> Tools(s, i) < |tools| && tools[Tools(s, i)] == i)
  }

  method ToolIndexes(s: seq<Message>) returns (tools: seq<nat>)
    ensures AreToolIndexes(s, |s|, tools)
  {
    tools := [];
    for i := 0 to |s|
      invariant AreToolIndexes(s, i, tools)
    {
      if s[i].role == Tool { tools := tools + [i]; }
    }
  }

  lemma IndexesAreCounted(s: seq<Message>, tools: seq<nat>)
    requires AreToolIndexes(s, |s|, tools)
    ensures |tools| == Tools(s, |s|)
  {
  }

  lemma OldIndexes(s: seq<Message>, tools: seq<nat>, i: nat)
    requires AreToolIndexes(s, |s|, tools) && KEEP_RECENT <= |tools| && i < |s|
    ensures IsOld(s, i) <==> i in tools[..|tools| - KEEP_RECENT] && s[i].content != "" && s[i].content != ELISION
  {
    var elide := tools[..|tools| - KEEP_RECENT];
    if i in elide {
      var a :| 0 <= a < |elide| && elide[a] == i;
      assert tools[a] == i;
    }
    if s[i].role == Tool && Tools(s, i) < |elide| {
      assert elide[Tools(s, i)] == i;
    }
  }

  ghost predicate HasThreeLater(s: seq<Message>, i: nat)
  {
    exists a, b, c :: i < a < b < c < |s| && s[a].role == s[b].role == s[c].role == Tool
  }

  lemma {:induction false} ToolsGrow(s: seq<Message>, i: nat, n: nat)
    requires i <= n <= |s|
    ensures Tools(s, i) <= Tools(s, n)
    ensures Tools(s, i) < Tools(s, n) <==> exists a :: i <= a < n && s[a].role == Tool
    decreases n - i
  {
    if i < n { ToolsGrow(s, i, n - 1); }
  }

  /** The next tool result at or after a position. */
  lemma {:induction false} NextTool(s: seq<Message>, i: nat) returns (a: nat)
    requires i <= |s| && Tools(s, i) < Tools(s, |s|)
    ensures i <= a < |s| && s[a].role == Tool && Tools(s, a) == Tools(s, i)
    decreases |s| - i
  {
    if s[i].role == Tool { a := i; } else { a := NextTool(s, i + 1); }
  }

  lemma ThreeLaterFound(s: seq<Message>, i: nat)
    requires i < |s| && s[i].role == Tool && Tools(s, i) + 3 < Tools(s, |s|)
    ensures HasThreeLater(s, i)
  {
    assert Tools(s, i + 1) == Tools(s, i) + 1;
    var a := NextTool(s, i + 1);
    assert Tools(s, a + 1) == Tools(s, a) + 1;
    var b := NextTool(s, a + 1);
    assert Tools(s, b + 1) == Tools(s, b) + 1;
    var c := NextTool(s, b + 1);
    hide Tools;
  }

  lemma ThreeLaterCount(s: seq<Message>, i: nat, a: nat, b: nat, c: nat)
    requires i < a < b < c < |s| && s[i].role == Tool && s[a].role == s[b].role == s[c].role == Tool
    ensures Tools(s, i) + 3 < Tools(s, |s|)
  {
    assert Tools(s, i + 1) == Tools(s, i) + 1 && Tools(s, a + 1) == Tools(s, a) + 1;
    assert Tools(s, b + 1) == Tools(s, b) + 1 && Tools(s, c + 1) == Tools(s, c) + 1;
    hide Tools;
    ToolsGrow(s, i + 1, a);
    ToolsGrow(s, a + 1, b);
    ToolsGrow(s, b + 1, c);
    ToolsGrow(s, c + 1, |s|);
  }

  /** Old is what has three later tool results. */
  lemma OldHasThreeLater(s: seq<Message>, i: nat)
    requires i < |s|
    ensures IsOld(s, i)
            <==> s[i].role == Tool && s[i].content != "" && HasThreeLater(s, i)
                 && s[i].content != "[earlier tool output elided to fit the context window]"
  {
    hide Tools;
    if s[i].role == Tool {
      if Tools(s, i) + 3 < Tools(s, |s|) {
        ThreeLaterFound(s, i);
      }
      if HasThreeLater(s, i) {
        var a, b, c :| i < a < b < c < |s| && s[a].role == s[b].role == s[c].role == Tool;
        ThreeLaterCount(s, i, a, b, c);
      }
    }
  }

  /** Shrinking elides exactly the results with text and with three later results. */
  lemma EmergencyMeans(s: seq<Message>, r: seq<Message>, i: nat)
    requires IsEmergency(s, r) && i < |s|
    ensures |r| == |s|
    ensures s[i].role == Tool && s[i].content != "" && HasThreeLater(s, i) ==>
              r[i] == s[i].(content := "[earlier tool output elided to fit the context window]")
    ensures !(s[i].role == Tool && s[i].content != "" && HasThreeLater(s, i)) ==> r[i] == s[i]
  {
    OldHasThreeLater(s, i);
    hide HasThreeLater;
  }

  /** The number of results elided among the first `n` messages. */
  function Olds(s: seq<Message>, n: nat): nat
    requires n <= |s|
  {
    if n == 0 then 0 else Olds(s, n - 1) + (if IsOld(s, n - 1) then 1 else 0)
  }

  /** A result with text that is not elided yet, and with three later results. */
  ghost predicate ToBeElided(s: seq<Message>, i: nat)
    requires i < |s|
  {
    s[i].role == Tool && s[i].content !in {"", "[earlier tool output elided to fit the context window]"} && HasThreeLater(s, i)
  }

  /** The number of elided results is that of the results with text and three later ones. */
  lemma {:induction false} OldsAre(s: seq<Message>, n: nat)
    requires n <= |s|
    ensures Olds(s, n) == Count(n, (i: nat) => i < |s| && ToBeElided(s, i))
  {
    hide HasThreeLater, IsOld, ToBeElided, Count;
    if n > 0 {
      OldsAre(s, n - 1);
      OldIsElidable(s, n - 1);
      CountStep(n - 1, (i: nat) => i < |s| && ToBeElided(s, i));
    } else {
      CountStep(0, (i: nat) => i < |s| && ToBeElided(s, i));
    }
  }

  lemma OldIsElidable(s: seq<Message>, i: nat)
    requires i < |s|
    ensures IsOld(s, i) <==> ToBeElided(s, i)
  {
    OldHasThreeLater(s, i);
    hide HasThreeLater, IsOld;
  }

  lemma {:induction false} FewAreNotOld(s: seq<Message>, n: nat)
    requires n <= |s| && Tools(s, |s|) <= KEEP_RECENT
    ensures Olds(s, n) == 0 && forall i :: 0 <= i < n ==> !IsOld(s, i)
  {
    if n > 0 { FewAreNotOld(s, n - 1); }
  }

  method EmergencyShrink(messages: seq<Message>) returns (shrunk: seq<Message>, elided: nat)
    ensures IsEmergency(messages, shrunk)
    ensures elided == Olds(messages, |messages|)
    ensures elided == 0 <==> shrunk == messages
  {
    hide IsOld, AreToolIndexes, Tools;
    var tools := ToolIndexes(messages);
    IndexesAreCounted(messages, tools);
    if |tools| <= KEEP_RECENT {
      FewAreNotOld(messages, |messages|);
      return messages, 0;
    }
    var elide := tools[..|tools| - KEEP_RECENT];
    shrunk, elided := [], 0;
    ghost var changed := 0;
    for i := 0 to |messages|
      invariant |shrunk| == i
      invariant elided == Olds(messages, i)
      invariant elided == 0 ==> forall j :: 0 <= j < i ==> shrunk[j] == messages[j]
      invariant elided > 0 ==> 0 <= changed < i && shrunk[changed] != messages[changed]
      invariant forall j :: 0 <= j < i ==> shrunk[j] == EmergencyAt(messages, j)
    {
      OldIndexes(messages, tools, i);
      var next := messages[i];
      if i in elide && next.content != "" && next.content != ELISION {
        next, elided, changed := Elided(next), elided + 1, i;
      }
      assert next == EmergencyAt(messages, i);
      shrunk := shrunk + [next];
    }
  }

  lemma {:induction false} SameRolesSameCount(a: seq<Message>, b: seq<Message>, n: nat)
    requires |a| == |b| && n <= |a| && forall i :: 0 <= i < |a| ==> a[i].role == b[i].role
    ensures Tools(a, n) == Tools(b, n)
  {
    if n != 0 { SameRolesSameCount(a, b, n - 1); }
  }

  /** Shrinking again changes nothing; every call and every fixed message is kept as it was. */
  lemma EmergencyIsIdempotent(s: seq<Message>, r: seq<Message>)
    requires IsEmergency(s, r)
    ensures IsEmergency(r, r) && SameShape(s, r)
    ensures Paired(s) ==> Paired(r)
  {
    SameRolesSameCount(s, r, |s|);
    forall i | 0 <= i < |r|
      ensures !IsOld(r, i) && Similar(s[i], r[i])
    {
      SameRolesSameCount(s, r, i);
    }
    if Paired(s) { SameShapePaired({}, s, r); }
  }

  // ---------------------------------------------------------------------------
  // First: assistant messages that only think
  // ---------------------------------------------------------------------------

  predicate ThinkingOnly(m: Message)
  {
    m.role == Assistant && m.thinking != [] && m.content == "" && m.calls == []
  }

  function WithoutThinkingOnly(s: seq<Message>): (r: seq<Message>)
    ensures |r| <= |s|
  {
    if s == [] then []
    else if ThinkingOnly(s[0]) then WithoutThinkingOnly(s[1..])
    else [s[0]] + WithoutThinkingOnly(s[1..])
  }

  /** Exactly those assistant messages go that think and neither say nor call anything. */
  lemma {:induction false} ThinkingOnlyGo(s: seq<Message>)
    ensures WithoutThinkingOnly(s)
         == Filter(s, (m: Message) => !(m.role == Assistant && m.thinking != [] && m.content == "" && m.calls == []))
    decreases |s|
  {
    if s != [] {
      ThinkingOnlyGo(s[1..]);
    }
  }

  // ---------------------------------------------------------------------------
  // Second: old tool outputs, the largest first
  // ---------------------------------------------------------------------------

  predicate MakesCalls(m: Message) { m.role == Assistant && m.calls != [] }

  function LatestCalls(s: seq<Message>): set<string>
  {
    if s == [] then {}
    else if MakesCalls(s[|s| - 1]) then CallIds(s[|s| - 1])
    else LatestCalls(s[..|s| - 1])
  }

  function Savings(counter: Counter, m: Message): int { counter([m]) - counter([Elided(m)]) }

  predicate MayElide(counter: Counter, s: seq<Message>, i: nat)
    requires i < |s|
  {
    s[i].role == Tool && s[i].callId !in LatestCalls(s) && Savings(counter, s[i]) > 0
  }

  predicate SavesMore(counter: Counter, s: seq<Message>, i: nat, j: nat)
  {
    && i < |s| && j < |s|
    && (Savings(counter, s[i]) > Savings(counter, s[j]) || (Savings(counter, s[i]) == Savings(counter, s[j]) && i <= j))
  }

  ghost predicate IsElisionOrder(counter: Counter, s: seq<Message>, order: seq<nat>)
  {
    && Distinct(order)
    && (forall i :: i in order ==> i < |s| && MayElide(counter, s, i))
    && (forall i :: 0 <= i < |s| && MayElide(counter, s, i) ==> i in order)
    && (forall a, b :: 0 <= a < b < |order| ==> SavesMore(counter, s, order[a], order[b]))
  }

  function WithElided(s: seq<Message>, picks: seq<nat>): (r: seq<Message>)
    ensures |r| == |s| && forall i :: 0 <= i < |s| ==> r[i] == if i in picks then Elided(s[i]) else s[i]
  {
    seq(|s|, i requires 0 <= i < |s| => if i in picks then Elided(s[i]) else s[i])
  }

  method ElisionOrder(messages: seq<Message>, counter: Counter) returns (order: seq<nat>)
    ensures IsElisionOrder(counter, messages, order)
  {
    var latest := LatestCalls(messages);
    var candidates: seq<nat> := [];
    for i := 0 to |messages|
      invariant Distinct(candidates) && (forall a :: 0 <= a < |candidates| ==> candidates[a] < i)
      invariant forall k :: k in candidates ==> k < i && MayElide(counter, messages, k)
      invariant forall k :: 0 <= k < i && MayElide(counter, messages, k) ==> k in candidates
    {
      if messages[i].role == Tool && messages[i].callId !in latest && Savings(counter, messages[i]) > 0 {
        candidates := candidates + [i];
      }
    }
    var before := (i: nat, j: nat) => SavesMore(counter, messages, i, j);
    order := Sort(candidates, before);
    forall a, b | 0 <= a < b < |order| ensures SavesMore(counter, messages, order[a], order[b]) {
      assert before(order[a], order[b]);
    }
  }

  // What elision does, said of the messages alone.

  ghost predicate IsLastCaller(s: seq<Message>, p: nat)
  {
    && p < |s| && s[p].role == Assistant && s[p].calls != []
    && forall q :: p < q < |s| ==> s[q].role != Assistant || s[q].calls == []
  }

  /** The last message that makes any calls makes one with this id. */
  ghost predicate CalledLast(s: seq<Message>, id: string)
  {
    exists p: nat :: IsLastCaller(s, p) && exists k :: 0 <= k < |s[p].calls| && s[p].calls[k].id == id
  }

  ghost function Gain(counter: Counter, m: Message): int
  {
    counter([m]) - counter([m.(content := "[earlier tool output elided to fit the context window]")])
  }

  /** An output that may go: a result that answers an older call, and whose elision gains something. */
  ghost predicate IsSpare(counter: Counter, s: seq<Message>, i: nat)
    requires i < |s|
  {
    s[i].role == Tool && !CalledLast(s, s[i].callId) && Gain(counter, s[i]) > 0
  }

  /** Only spare outputs are elided, those that gain more before those that gain less, and all of
      them before the list is given up as too long. */
  ghost predicate ElidesSpares(counter: Counter, budget: nat, s: seq<Message>, r: seq<Message>)
  {
    && |r| == |s|
    && (forall i :: 0 <= i < |s| ==>
          r[i] == s[i]
          || (IsSpare(counter, s, i)
              && r[i] == s[i].(content := "[earlier tool output elided to fit the context window]")))
    && (counter(r) > budget ==> forall i :: 0 <= i < |s| && IsSpare(counter, s, i) ==> r[i] != s[i])
    && (forall i, j :: 0 <= i < |s| && 0 <= j < |s| && r[i] != s[i] && IsSpare(counter, s, j) && r[j] == s[j] ==>
          Gain(counter, s[i]) > Gain(counter, s[j]) || (Gain(counter, s[i]) == Gain(counter, s[j]) && i < j))
  }

  lemma {:induction false} LatestAreCalledLast(s: seq<Message>, n: nat, id: string)
    requires n <= |s| && forall q :: n <= q < |s| ==> s[q].role != Assistant || s[q].calls == []
    ensures id in LatestCalls(s[..n]) <==> CalledLast(s, id)
    decreases n
  {
    if n > 0 {
      assert s[..n][..n - 1] == s[..n - 1];
      if MakesCalls(s[n - 1]) {
        IdsAre(s[n - 1].calls, id);
        assert IsLastCaller(s, n - 1);
      } else {
        LatestAreCalledLast(s, n - 1, id);
      }
    }
  }

  lemma MayElideIsSpare(counter: Counter, s: seq<Message>, i: nat)
    requires i < |s|
    ensures MayElide(counter, s, i) <==> IsSpare(counter, s, i)
    ensures IsSpare(counter, s, i) ==> Elided(s[i]) != s[i]
    ensures Savings(counter, s[i]) == Gain(counter, s[i])
  {
    LatestAreCalledLast(s, |s|, s[i].callId);
    assert s[..|s|] == s;
    assert Elided(s[i]) == s[i] ==> Gain(counter, s[i]) == 0;
  }

  lemma ElisionElidesSpares(counter: Counter, budget: nat, s: seq<Message>, order: seq<nat>, n: nat, r: seq<Message>)
    requires IsElisionOrder(counter, s, order) && IsElided(counter, budget, s, order, n, r)
    requires n == |order| || counter(r) <= budget
    ensures ElidesSpares(counter, budget, s, r)
  {
    forall i | 0 <= i < |s|
      ensures MayElide(counter, s, i) <==> IsSpare(counter, s, i)
      ensures IsSpare(counter, s, i) ==> Elided(s[i]) != s[i]
      ensures Savings(counter, s[i]) == Gain(counter, s[i])
    {
      MayElideIsSpare(counter, s, i);
    }
    hide MayElide, IsSpare, Savings, Gain;
    assert order[..|order|] == order;
    forall i | 0 <= i < |s|
      ensures r[i] != s[i] <==> i in order[..n]
    {
      if i in order[..n] { assert i in order; }
    }
    forall i, j | 0 <= i < |s| && 0 <= j < |s| && r[i] != s[i] && IsSpare(counter, s, j) && r[j] == s[j]
      ensures Gain(counter, s[i]) > Gain(counter, s[j]) || (Gain(counter, s[i]) == Gain(counter, s[j]) && i < j)
    {
      ElidedFirst(counter, s, order, n, i, j);
    }
  }

  lemma InPrefix(order: seq<nat>, n: nat, b: nat)
    requires n <= |order| && b < |order|
    ensures b < n ==> order[b] in order[..n]
  {
    if b < n { assert order[..n][b] == order[b]; }
  }

  lemma ElidedFirst(counter: Counter, s: seq<Message>, order: seq<nat>, n: nat, i: nat, j: nat)
    requires IsElisionOrder(counter, s, order) && n <= |order| && i < |s| && j < |s|
    requires i in order[..n] && MayElide(counter, s, j) && j !in order[..n]
    ensures SavesMore(counter, s, i, j) && i != j
  {
    var a :| 0 <= a < n && order[a] == i;
    assert j in order;
    var b :| 0 <= b < |order| && order[b] == j;
    InPrefix(order, n, b);
  }

  lemma NothingElided(s: seq<Message>, order: seq<nat>)
    ensures WithElided(s, order[..0]) == s
  {
  }

  lemma ElideNext(s: seq<Message>, order: seq<nat>, n: nat)
    requires n < |order| && Distinct(order) && forall i :: i in order ==> i < |s|
    ensures order[n] < |s| && WithElided(s, order[..n])[order[n]] == s[order[n]]
    ensures WithElided(s, order[..n + 1]) == WithElided(s, order[..n])[order[n] := Elided(s[order[n]])]
  {
    assert order[n] in order && order[n] !in order[..n];
    assert order[..n + 1] == order[..n] + [order[n]];
    var r := WithElided(s, order[..n + 1]);
    forall i | 0 <= i < |s|
      ensures r[i] == WithElided(s, order[..n])[order[n] := Elided(s[order[n]])][i]
    {
      assert i in order[..n + 1] <==> i in order[..n] || i == order[n];
    }
  }

  /** The first `n` in order are elided, and the list was too long before each. */
  ghost predicate IsElided(counter: Counter, budget: nat, s: seq<Message>, order: seq<nat>, n: nat, r: seq<Message>)
  {
    && n <= |order| && r == WithElided(s, order[..n])
    && forall k :: 0 <= k < n ==> counter(WithElided(s, order[..k])) > budget
  }

  lemma ElideStarts(counter: Counter, budget: nat, s: seq<Message>, order: seq<nat>)
    ensures IsElided(counter, budget, s, order, 0, s)
  {
    NothingElided(s, order);
  }

  lemma ElideStep(counter: Counter, budget: nat, s: seq<Message>, order: seq<nat>, n: nat, r: seq<Message>)
    requires IsElisionOrder(counter, s, order) && IsElided(counter, budget, s, order, n, r)
    requires n < |order| && counter(r) > budget
    ensures order[n] < |s| == |r| && IsElided(counter, budget, s, order, n + 1, r[order[n] := Elided(r[order[n]])])
  {
    ElideNext(s, order, n);
  }

  /** Outputs are elided in order until the rest fits; the calls made last are left alone. */
  method ElideOldOutputs(messages: seq<Message>, counter: Counter, budget: nat)
    returns (working: seq<Message>, elided: nat, ghost order: seq<nat>)
    ensures IsElisionOrder(counter, messages, order) && IsElided(counter, budget, messages, order, elided, working)
    ensures elided == |order| || counter(working) <= budget
    ensures ElidesSpares(counter, budget, messages, working)
  {
    hide ElidesSpares, IsElisionOrder, IsElided, WithElided;
    working, elided := messages, 0;
    var picks := ElisionOrder(messages, counter);
    order := picks;
    ElideStarts(counter, budget, messages, picks);
    while elided < |picks| && counter(working) > budget
      invariant 0 <= elided <= |picks|
      invariant IsElided(counter, budget, messages, picks, elided, working)
    {
      ElideStep(counter, budget, messages, picks, elided, working);
      working := working[picks[elided] := Elided(working[picks[elided]])];
      elided := elided + 1;
    }
    ElisionElidesSpares(counter, budget, messages, picks, elided, working);
  }

  lemma ElisionKeepsShape(counter: Counter, s: seq<Message>, order: seq<nat>, n: nat)
    requires IsElisionOrder(counter, s, order) && n <= |order|
    ensures SameShape(s, WithElided(s, order[..n]))
  {
    forall i | 0 <= i < |s| && i in order[..n] ensures Similar(s[i], Elided(s[i])) {
      assert i in order;
    }
  }

  // ---------------------------------------------------------------------------
  // Third: old exchanges, complete ones only
  // ---------------------------------------------------------------------------

  predicate Answers(m: Message, ids: set<string>) { m.role == Tool && m.callId in ids }

  function ResultCount(s: seq<Message>, ids: set<string>): nat
  {
    if s == [] then 0 else (if Answers(s[0], ids) then 1 else 0) + ResultCount(s[1..], ids)
  }

  /** Every call of the message has its result in the list. */
  predicate IsComplete(s: seq<Message>, m: Message)
  {
    MakesCalls(m) && ResultCount(s, CallIds(m)) == |CallIds(m)|
  }

  function NonAnswers(s: seq<Message>, ids: set<string>): (r: seq<Message>)
    ensures |r| <= |s|
  {
    if s == [] then []
    else if Answers(s[0], ids) then NonAnswers(s[1..], ids)
    else [s[0]] + NonAnswers(s[1..], ids)
  }

  function WithoutExchange(s: seq<Message>, a: nat): (r: seq<Message>)
    requires a < |s|
    ensures |r| < |s|
  {
    NonAnswers(s[..a], CallIds(s[a])) + NonAnswers(s[a + 1..], CallIds(s[a]))
  }

  predicate IsResultFor(m: Message, caller: Message)
  {
    m.role == Tool && exists k :: 0 <= k < |caller.calls| && caller.calls[k].id == m.callId
  }

  lemma {:induction false} AnswersGo(s: seq<Message>, caller: Message)
    requires caller.role == Assistant
    ensures NonAnswers(s, CallIds(caller)) == Filter(s, (m: Message) => !IsResultFor(m, caller))
    ensures ResultCount(s, CallIds(caller)) == |Filter(s, (m: Message) => IsResultFor(m, caller))|
    decreases |s|
  {
    if s != [] {
      AnswersGo(s[1..], caller);
      IdsAre(caller.calls, s[0].callId);
    }
  }

  /** Dropping the exchange of a calling message removes it and its results, and nothing else; the
      exchange is complete when there are as many results as there are different call ids. */
  lemma ExchangeGoes(s: seq<Message>, a: nat)
    requires a < |s| && s[a].role == Assistant
    ensures WithoutExchange(s, a) == Filter(s[..a], (m: Message) => !IsResultFor(m, s[a]))
                                     + Filter(s[a + 1..], (m: Message) => !IsResultFor(m, s[a]))
    ensures IsComplete(s, s[a])
            <==> s[a].calls != [] && |Filter(s, (m: Message) => IsResultFor(m, s[a]))| == |set c | c in s[a].calls :: c.id|
  {
    AnswersGo(s[..a], s[a]);
    AnswersGo(s[a + 1..], s[a]);
    AnswersGo(s, s[a]);
    assert CallIds(s[a]) == set c | c in s[a].calls :: c.id by {
      forall id: string
        ensures id in CallIds(s[a]) <==> id in set c | c in s[a].calls :: c.id
      {
        IdsAre(s[a].calls, id);
      }
    }
  }

  /** The complete exchanges among the first `n` messages. */
  ghost predicate AreExchanges(s: seq<Message>, n: nat, exchanges: seq<nat>)
    requires n <= |s|
  {
    && (forall x :: 0 <= x < |exchanges| ==> exchanges[x] < n && IsComplete(s, s[exchanges[x]]))
    && (forall x, y :: 0 <= x < y < |exchanges| ==> exchanges[x] < exchanges[y])
    && (forall i :: 0 <= i < n && IsComplete(s, s[i]) ==> i in exchanges)
  }

  method Exchanges(s: seq<Message>) returns (exchanges: seq<nat>)
    ensures AreExchanges(s, |s|, exchanges)
  {
    exchanges := [];
    for i := 0 to |s|
      invariant AreExchanges(s, i, exchanges)
    {
      if MakesCalls(s[i]) && ResultCount(s, CallIds(s[i])) == |CallIds(s[i])| {
        exchanges := exchanges + [i];
      }
    }
  }

  predicate IsFirstExchange(s: seq<Message>, a: nat)
  {
    a < |s| && IsComplete(s, s[a]) && forall i :: 0 <= i < a ==> !IsComplete(s, s[i])
  }

  /** One round: the first of several complete exchanges is dropped. */
  ghost predicate Drops(s: seq<Message>, r: seq<Message>)
  {
    exists a: nat, b: nat :: IsFirstExchange(s, a) && a < b < |s| && IsComplete(s, s[b]) && r == WithoutExchange(s, a)
  }

  /** The lists after each round; only a list that is too long goes through another. */
  ghost predicate AreRounds(counter: Counter, budget: nat, rounds: seq<seq<Message>>)
  {
    && rounds != []
    && forall k :: 0 <= k < |rounds| - 1 ==> counter(rounds[k]) > budget && Drops(rounds[k], rounds[k + 1])
  }

  lemma AnotherRound(counter: Counter, budget: nat, rounds: seq<seq<Message>>, r: seq<Message>)
    requires AreRounds(counter, budget, rounds)
    requires counter(rounds[|rounds| - 1]) > budget && Drops(rounds[|rounds| - 1], r)
    ensures AreRounds(counter, budget, rounds + [r])
  {
    var more := rounds + [r];
    forall k | 0 <= k < |more| - 1 ensures counter(more[k]) > budget && Drops(more[k], more[k + 1]) {
      if k < |rounds| - 1 { assert more[k] == rounds[k] && more[k + 1] == rounds[k + 1]; }
    }
  }

  predicate AtMostOneExchange(s: seq<Message>)
  {
    forall a, b :: 0 <= a < b < |s| && IsComplete(s, s[a]) ==> !IsComplete(s, s[b])
  }

  method DropOldExchanges(messages: seq<Message>, counter: Counter, budget: nat)
    returns (working: seq<Message>, dropped: nat, ghost rounds: seq<seq<Message>>)
    ensures AreRounds(counter, budget, rounds) && |rounds| == dropped + 1
    ensures rounds[0] == messages && rounds[dropped] == working
    ensures counter(working) <= budget || AtMostOneExchange(working)
  {
    working, dropped, rounds := messages, 0, [messages];
    while counter(working) > budget
      invariant AreRounds(counter, budget, rounds) && |rounds| == dropped + 1
      invariant rounds[0] == messages && rounds[dropped] == working
      decreases |working|
    {
      var exchanges := Exchanges(working);
      if |exchanges| <= 1 {
        ManyExchanges(working, exchanges);
        return;
      }
      TwoExchanges(working, exchanges);
      AnotherRound(counter, budget, rounds, WithoutExchange(working, exchanges[0]));
      working, dropped := WithoutExchange(working, exchanges[0]), dropped + 1;
      rounds := rounds + [working];
    }
  }

  lemma ManyExchanges(s: seq<Message>, exchanges: seq<nat>)
    requires AreExchanges(s, |s|, exchanges) && |exchanges| <= 1
    ensures AtMostOneExchange(s)
  {
  }

  lemma TwoExchanges(s: seq<Message>, exchanges: seq<nat>)
    requires AreExchanges(s, |s|, exchanges) && |exchanges| > 1
    ensures exchanges[0] < |s| && Drops(s, WithoutExchange(s, exchanges[0]))
  {
    assert IsFirstExchange(s, exchanges[0]);
    assert IsComplete(s, s[exchanges[1]]);
  }

  // ---------------------------------------------------------------------------
  // What the reductions keep
  // ---------------------------------------------------------------------------

  /** A message of the exchange with these call ids. */
  predicate Belongs(m: Message, ids: set<string>) { Answers(m, ids) || CallIds(m) * ids != {} }

  /** The exchange, up to its texts. */
  function Exchange(s: seq<Message>, ids: set<string>): seq<Message>
  {
    if s == [] then []
    else if Belongs(s[0], ids) then [Skeleton(s[0])] + Exchange(s[1..], ids)
    else Exchange(s[1..], ids)
  }

  predicate NoneComplete(part: seq<Message>, s: seq<Message>)
  {
    forall n :: n in part ==> !IsComplete(s, n)
  }

  /** The message at `p` begins the latest complete exchange. */
  predicate IsLatest(s: seq<Message>, p: nat)
  {
    p < |s| && IsComplete(s, s[p]) && NoneComplete(s[p + 1..], s)
  }

  /** The latest complete exchange of `s` is still there, whole, and still the latest. */
  predicate KeepsLatest(s: seq<Message>, p: nat, r: seq<Message>, q: nat)
    requires IsLatest(s, p)
  {
    IsLatest(r, q) && CallIds(r[q]) == CallIds(s[p]) && Exchange(r, CallIds(s[p])) == Exchange(s, CallIds(s[p]))
  }

  lemma FirstAndRest(m: Message, s: seq<Message>)
    ensures ([m] + s)[0] == m && ([m] + s)[1..] == s
  {
  }

  lemma {:induction false} ResultCountConcat(a: seq<Message>, b: seq<Message>, ids: set<string>)
    ensures ResultCount(a + b, ids) == ResultCount(a, ids) + ResultCount(b, ids)
    decreases |a|
  {
    if a == [] {
      assert a + b == b;
    } else {
      assert (a + b)[1..] == a[1..] + b;
      ResultCountConcat(a[1..], b, ids);
    }
  }

  lemma {:induction false} ExchangeConcat(a: seq<Message>, b: seq<Message>, ids: set<string>)
    ensures Exchange(a + b, ids) == Exchange(a, ids) + Exchange(b, ids)
    decreases |a|
  {
    if a == [] {
      assert a + b == b;
    } else {
      assert (a + b)[1..] == a[1..] + b;
      ExchangeConcat(a[1..], b, ids);
    }
  }

  // Leaving out the results of some calls.

  lemma {:induction false} NonAnswersShrink(s: seq<Message>, ids: set<string>)
    ensures Shrinks(s, NonAnswers(s, ids))
    decreases |s|
  {
    if s != [] {
      NonAnswersShrink(s[1..], ids);
      FirstAndRest(s[0], NonAnswers(s[1..], ids));
    }
  }

  lemma {:induction false} NonAnswersOfOthers(s: seq<Message>, ids: set<string>, others: set<string>)
    requires ids !! others
    ensures ResultCount(NonAnswers(s, ids), others) == ResultCount(s, others)
    ensures Exchange(NonAnswers(s, ids), others) == Exchange(s, others)
    decreases |s|
  {
    if s != [] {
      NonAnswersOfOthers(s[1..], ids, others);
      FirstAndRest(s[0], NonAnswers(s[1..], ids));
    }
  }

  lemma {:induction false} NonAnswersConcat(a: seq<Message>, b: seq<Message>, ids: set<string>)
    ensures NonAnswers(a + b, ids) == NonAnswers(a, ids) + NonAnswers(b, ids)
    decreases |a|
  {
    if a == [] {
      assert a + b == b;
    } else {
      assert (a + b)[1..] == a[1..] + b;
      NonAnswersConcat(a[1..], b, ids);
    }
  }

  lemma {:induction false} NonAnswersPaired(seen: set<string>, fewer: set<string>, s: seq<Message>, ids: set<string>)
    requires PairedFrom(seen, s) && seen <= fewer + ids
    ensures PairedFrom(fewer, NonAnswers(s, ids))
    decreases |s|
  {
    if s != [] {
      NonAnswersPaired(seen + CallIds(s[0]), fewer + CallIds(s[0]), s[1..], ids);
      FirstAndRest(s[0], NonAnswers(s[1..], ids));
      assert Answers(s[0], ids) ==> fewer + CallIds(s[0]) == fewer;
    }
  }

  lemma {:induction false} NonAnswersCalls(s: seq<Message>, ids: set<string>)
    ensures AllCalls(NonAnswers(s, ids)) == AllCalls(s)
    decreases |s|
  {
    if s != [] {
      NonAnswersCalls(s[1..], ids);
      FirstAndRest(s[0], NonAnswers(s[1..], ids));
    }
  }

  // Dropping an exchange.

  lemma SplitAt(s: seq<Message>, a: nat)
    requires a < |s|
    ensures s == s[..a] + [s[a]] + s[a + 1..] && s == s[..a] + ([s[a]] + s[a + 1..])
  {
  }

  lemma DropShrinks(s: seq<Message>, a: nat)
    requires a < |s| && MakesCalls(s[a])
    ensures Shrinks(s, WithoutExchange(s, a))
  {
    var ids := CallIds(s[a]);
    NonAnswersShrink(s[..a], ids);
    NonAnswersShrink(s[a + 1..], ids);
    assert ([s[a]] + s[a + 1..])[1..] == s[a + 1..];
    assert Shrinks([s[a]] + s[a + 1..], NonAnswers(s[a + 1..], ids));
    ShrinksConcat(s[..a], NonAnswers(s[..a], ids), [s[a]] + s[a + 1..], NonAnswers(s[a + 1..], ids));
    SplitAt(s, a);
  }

  lemma DropPaired(s: seq<Message>, a: nat)
    requires a < |s| && Paired(s)
    ensures Paired(WithoutExchange(s, a))
  {
    var ids, x, y := CallIds(s[a]), s[..a], s[a + 1..];
    SplitAt(s, a);
    PairedConcat({}, x, [s[a]] + y);
    assert ([s[a]] + y)[1..] == y;
    NonAnswersPaired({}, {}, x, ids);
    NonAnswersCalls(x, ids);
    NonAnswersPaired({} + AllCalls(x) + ids, {} + AllCalls(x), y, ids);
    PairedConcat({}, NonAnswers(x, ids), NonAnswers(y, ids));
  }

  lemma {:induction false} NonAnswersFrom(s: seq<Message>, ids: set<string>, n: Message)
    requires n in NonAnswers(s, ids)
    ensures n in s
    decreases |s|
  {
    if s != [] && !(n == s[0] && !Answers(s[0], ids)) { NonAnswersFrom(s[1..], ids, n); }
  }

  /** The other exchanges do not notice. */
  lemma DropLeavesOthers(s: seq<Message>, a: nat, others: set<string>)
    requires a < |s| && MakesCalls(s[a]) && CallIds(s[a]) !! others
    ensures ResultCount(WithoutExchange(s, a), others) == ResultCount(s, others)
    ensures Exchange(WithoutExchange(s, a), others) == Exchange(s, others)
  {
    var ids, x, y := CallIds(s[a]), s[..a], s[a + 1..];
    SplitAt(s, a);
    FirstAndRest(s[a], y);
    NonAnswersOfOthers(x, ids, others);
    NonAnswersOfOthers(y, ids, others);
    ResultCountConcat(x, [s[a]] + y, others);
    ResultCountConcat(NonAnswers(x, ids), NonAnswers(y, ids), others);
    ExchangeConcat(x, [s[a]] + y, others);
    ExchangeConcat(NonAnswers(x, ids), NonAnswers(y, ids), others);
  }

  lemma AfterMiddle(a: seq<Message>, m: Message, b: seq<Message>)
    ensures (a + ([m] + b))[|a|] == m && (a + ([m] + b))[|a| + 1..] == b
  {
  }

  lemma NonAnswersAround(a: seq<Message>, m: Message, b: seq<Message>, ids: set<string>)
    requires m.role == Assistant
    ensures NonAnswers(a + ([m] + b), ids) == NonAnswers(a, ids) + ([m] + NonAnswers(b, ids))
  {
    NonAnswersConcat(a, [m] + b, ids);
    FirstAndRest(m, b);
  }

  /** Where a message after the dropped exchange ends up. */
  lemma DropMoves(s: seq<Message>, a: nat, p: nat) returns (q: nat)
    requires a < p < |s| && s[p].role == Assistant
    ensures q < |WithoutExchange(s, a)| && WithoutExchange(s, a)[q] == s[p]
    ensures WithoutExchange(s, a)[q + 1..] == NonAnswers(s[p + 1..], CallIds(s[a]))
  {
    var ids, x, z, y := CallIds(s[a]), s[..a], s[a + 1..p], s[p + 1..];
    assert s[a + 1..] == z + ([s[p]] + y);
    NonAnswersAround(z, s[p], y, ids);
    var before, after := NonAnswers(x, ids) + NonAnswers(z, ids), NonAnswers(y, ids);
    assert NonAnswers(x, ids) + (NonAnswers(z, ids) + ([s[p]] + after)) == before + ([s[p]] + after);
    AfterMiddle(before, s[p], after);
    q := |before|;
  }

  lemma DropKeepsLatest(s: seq<Message>, a: nat, p: nat) returns (q: nat)
    requires IsLatest(s, p) && UniqueCalls(s) && a < p && IsFirstExchange(s, a)
    ensures KeepsLatest(s, p, WithoutExchange(s, a), q)
  {
    var x, y := s[..a], s[a + 1..];
    SplitAt(s, a);
    assert s[p] == y[p - a - 1];
    UniqueCallsApart(x, s[a], y, s[p]);
    DropLeavesOthers(s, a, CallIds(s[p]));
    q := DropMoves(s, a, p);
    forall n | n in WithoutExchange(s, a)[q + 1..] ensures !IsComplete(WithoutExchange(s, a), n) {
      NonAnswersFrom(s[p + 1..], CallIds(s[a]), n);
      var i :| 0 <= i < |s[p + 1..]| && s[p + 1..][i] == n;
      assert n == y[p - a + i];
      UniqueCallsApart(x, s[a], y, n);
      DropLeavesOthers(s, a, CallIds(n));
    }
  }

  lemma NothingAfterLatest(s: seq<Message>, p: nat)
    requires IsLatest(s, p)
    ensures forall i :: p < i < |s| ==> !IsComplete(s, s[i])
  {
    forall i | p < i < |s| ensures !IsComplete(s, s[i]) {
      assert s[i] == s[p + 1..][i - p - 1];
    }
  }

  lemma RoundKeepsLatest(s: seq<Message>, p: nat, r: seq<Message>) returns (q: nat)
    requires IsLatest(s, p) && UniqueCalls(s) && Drops(s, r)
    ensures KeepsLatest(s, p, r, q) && UniqueCalls(r)
  {
    var a: nat, b: nat :| IsFirstExchange(s, a) && a < b < |s| && IsComplete(s, s[b]) && r == WithoutExchange(s, a);
    NothingAfterLatest(s, p);
    q := DropKeepsLatest(s, a, p);
    DropShrinks(s, a);
    ShrinksKeepsUnique(s, r);
  }

  lemma RoundAt(counter: Counter, budget: nat, rounds: seq<seq<Message>>, n: nat)
    requires AreRounds(counter, budget, rounds) && 0 < n < |rounds|
    ensures Drops(rounds[n - 1], rounds[n])
  {
    hide Drops;
    assert Drops(rounds[n - 1], rounds[n - 1 + 1]);
  }

  lemma {:induction false} RoundsKeepLatest(
    counter: Counter, budget: nat, rounds: seq<seq<Message>>, p: nat, n: nat) returns (q: nat)
    requires AreRounds(counter, budget, rounds) && n < |rounds|
    requires IsLatest(rounds[0], p) && UniqueCalls(rounds[0])
    ensures KeepsLatest(rounds[0], p, rounds[n], q) && UniqueCalls(rounds[n])
    decreases n
  {
    hide AreRounds, Drops, UniqueCalls, IsLatest, Exchange, CallIds;
    if n == 0 {
      q := p;
    } else {
      var o := RoundsKeepLatest(counter, budget, rounds, p, n - 1);
      RoundAt(counter, budget, rounds, n);
      q := RoundKeepsLatest(rounds[n - 1], o, rounds[n]);
    }
  }

  lemma {:induction false} RoundsShrink(counter: Counter, budget: nat, rounds: seq<seq<Message>>, n: nat)
    requires AreRounds(counter, budget, rounds) && n < |rounds|
    ensures Shrinks(rounds[0], rounds[n])
    ensures Paired(rounds[0]) ==> Paired(rounds[n])
    decreases n
  {
    if n == 0 {
      SameShapeShrinks(rounds[0], rounds[0]);
    } else {
      RoundsShrink(counter, budget, rounds, n - 1);
      var s := rounds[n - 1];
      RoundAt(counter, budget, rounds, n);
      var a: nat, b: nat :| IsFirstExchange(s, a) && a < b < |s| && IsComplete(s, s[b]) && rounds[n] == WithoutExchange(s, a);
      DropShrinks(s, a);
      ShrinksComposes(rounds[0], s, rounds[n]);
      if Paired(s) { DropPaired(s, a); }
    }
  }

  // Changing texts only.

  lemma {:induction false} SameShapeCounts(a: seq<Message>, b: seq<Message>, ids: set<string>)
    requires SameShape(a, b)
    ensures ResultCount(a, ids) == ResultCount(b, ids) && Exchange(a, ids) == Exchange(b, ids)
    decreases |a|
  {
    if a != [] {
      SimilarIds(a[0], b[0]);
      SameShapeCounts(a[1..], b[1..], ids);
    }
  }

  lemma SameShapeKeepsLatest(s: seq<Message>, r: seq<Message>, p: nat)
    requires IsLatest(s, p) && SameShape(s, r)
    ensures KeepsLatest(s, p, r, p)
  {
    SimilarIds(s[p], r[p]);
    SameShapeCounts(s, r, CallIds(s[p]));
    forall n | n in r[p + 1..] ensures !IsComplete(r, n) {
      var i :| 0 <= i < |r[p + 1..]| && r[p + 1..][i] == n;
      SimilarIds(s[p + 1 + i], r[p + 1 + i]);
      SameShapeCounts(s, r, CallIds(n));
      assert s[p + 1 + i] in s[p + 1..];
    }
  }

  // Leaving out messages that only think.

  lemma {:induction false} ThinkingOnlyGone(s: seq<Message>, seen: set<string>, ids: set<string>)
    ensures Shrinks(s, WithoutThinkingOnly(s))
    ensures PairedFrom(seen, s) ==> PairedFrom(seen, WithoutThinkingOnly(s))
    ensures ResultCount(WithoutThinkingOnly(s), ids) == ResultCount(s, ids)
    ensures Exchange(WithoutThinkingOnly(s), ids) == Exchange(s, ids)
    ensures forall n :: n in WithoutThinkingOnly(s) ==> n in s
    decreases |s|
  {
    if s != [] {
      ThinkingOnlyGone(s[1..], seen + CallIds(s[0]), ids);
      FirstAndRest(s[0], WithoutThinkingOnly(s[1..]));
      assert ThinkingOnly(s[0]) ==> seen + CallIds(s[0]) == seen;
    }
  }

  lemma {:induction false} ThinkingOnlyConcat(a: seq<Message>, b: seq<Message>)
    ensures WithoutThinkingOnly(a + b) == WithoutThinkingOnly(a) + WithoutThinkingOnly(b)
    decreases |a|
  {
    if a == [] {
      assert a + b == b;
    } else {
      assert (a + b)[1..] == a[1..] + b;
      ThinkingOnlyConcat(a[1..], b);
    }
  }

  lemma ThinkingOnlyKeepsLatest(s: seq<Message>, p: nat) returns (q: nat)
    requires IsLatest(s, p)
    ensures KeepsLatest(s, p, WithoutThinkingOnly(s), q)
  {
    var r, x, y := WithoutThinkingOnly(s), s[..p], s[p + 1..];
    SplitAt(s, p);
    ThinkingOnlyConcat(x, [s[p]] + y);
    FirstAndRest(s[p], y);
    q := |WithoutThinkingOnly(x)|;
    assert r == WithoutThinkingOnly(x) + ([s[p]] + WithoutThinkingOnly(y));
    assert r[q + 1..] == WithoutThinkingOnly(y);
    ThinkingOnlyGone(s, {}, CallIds(s[p]));
    ThinkingOnlyGone(y, {}, {});
    forall n | n in r[q + 1..] ensures !IsComplete(r, n) {
      ThinkingOnlyGone(s, {}, CallIds(n));
    }
  }

  /** The reduction loses nothing that must stay: fixed messages, the pairing of results with earlier
      calls and, when no id is used by two messages, the latest complete exchange. */
  ghost predicate Faithful(s: seq<Message>, r: seq<Message>)
  {
    && Shrinks(s, r)
    && (Paired(s) ==> Paired(r))
    && (UniqueCalls(s) ==> forall p :: IsLatest(s, p) ==> exists q :: KeepsLatest(s, p, r, q))
  }

  lemma FaithfulComposes(s: seq<Message>, r: seq<Message>, t: seq<Message>)
    requires Faithful(s, r) && Faithful(r, t)
    ensures Faithful(s, t)
  {
    ShrinksComposes(s, r, t);
    if UniqueCalls(s) {
      ShrinksKeepsUnique(s, r);
      forall p | IsLatest(s, p) ensures exists q :: KeepsLatest(s, p, t, q) {
        var o :| KeepsLatest(s, p, r, o);
        var q :| KeepsLatest(r, o, t, q);
        assert KeepsLatest(s, p, t, q);
      }
    }
  }

  lemma SameShapeIsFaithful(s: seq<Message>, r: seq<Message>)
    requires SameShape(s, r)
    ensures Faithful(s, r)
  {
    SameShapeShrinks(s, r);
    if Paired(s) { SameShapePaired({}, s, r); }
    forall p | IsLatest(s, p) ensures exists q :: KeepsLatest(s, p, r, q) {
      SameShapeKeepsLatest(s, r, p);
    }
  }

  lemma ThinkingOnlyIsFaithful(s: seq<Message>)
    ensures Faithful(s, WithoutThinkingOnly(s))
  {
    ThinkingOnlyGone(s, {}, {});
    forall p | IsLatest(s, p) ensures exists q :: KeepsLatest(s, p, WithoutThinkingOnly(s), q) {
      var q := ThinkingOnlyKeepsLatest(s, p);
    }
  }

  lemma RoundsAreFaithful(counter: Counter, budget: nat, rounds: seq<seq<Message>>)
    requires AreRounds(counter, budget, rounds)
    ensures Faithful(rounds[0], rounds[|rounds| - 1])
  {
    var n := |rounds| - 1;
    RoundsShrink(counter, budget, rounds, n);
    if UniqueCalls(rounds[0]) {
      forall p | IsLatest(rounds[0], p) ensures exists q :: KeepsLatest(rounds[0], p, rounds[n], q) {
        var q := RoundsKeepLatest(counter, budget, rounds, p, n);
      }
    }
  }

  // ---------------------------------------------------------------------------
  // Last: clipping as little as possible
  // ---------------------------------------------------------------------------

  function ClipText(text: string, limit: nat): string
  {
    if limit == 0 then PAYLOAD_ELISION
    else (if limit < |text| then text[..limit] else text) + "..."
  }

  predicate IsLong(m: Message, limit: nat)
  {
    !Fixed(m) && (|m.content| > limit || |m.reasoning| > limit)
  }

  function Clip(m: Message, limit: nat): Message
  {
    if !IsLong(m, limit) then m
    else m.(content := if |m.content| <= limit then m.content
                       else if m.role == Tool then ELISION else ClipText(m.content, limit),
            reasoning := if |m.reasoning| <= limit then m.reasoning else ClipText(m.reasoning, limit))
  }

  function ClipAll(s: seq<Message>, limit: nat): seq<Message>
  {
    seq(|s|, i requires 0 <= i < |s| => Clip(s[i], limit))
  }

  lemma ClipKeepsShape(s: seq<Message>, limit: nat)
    ensures SameShape(s, ClipAll(s, limit))
  {
  }

  function LongCount(s: seq<Message>, n: nat, limit: nat): nat
    requires n <= |s|
  {
    if n == 0 then 0 else LongCount(s, n - 1, limit) + (if IsLong(s[n - 1], limit) then 1 else 0)
  }

  /** Cutting texts at a limit leaves fixed messages and texts within the limit alone; a longer tool
      result becomes the elision, a longer text its beginning or, at 0, a note; nothing else changes. */
  lemma ClipMeans(s: seq<Message>, limit: nat, i: nat)
    requires i < |s|
    ensures var m, c := s[i], ClipAll(s, limit)[i];
            && c.(content := m.content, reasoning := m.reasoning) == m
            && (m.role == System || m.role == User || |m.content| <= limit ==> c.content == m.content)
            && (m.role == System || m.role == User || |m.reasoning| <= limit ==> c.reasoning == m.reasoning)
            && (m.role == Tool && |m.content| > limit ==>
                  c.content == "[earlier tool output elided to fit the context window]")
            && (m.role == Assistant && |m.content| > limit > 0 ==> c.content == m.content[..limit] + "...")
            && (m.role == Assistant && |m.content| > limit == 0 ==> c.content == "[content elided to fit input budget]")
            && ((m.role == Assistant || m.role == Tool) && |m.reasoning| > limit > 0 ==>
                  c.reasoning == m.reasoning[..limit] + "...")
            && ((m.role == Assistant || m.role == Tool) && |m.reasoning| > limit == 0 ==>
                  c.reasoning == "[content elided to fit input budget]")
  {
  }

  ghost predicate HasLongText(m: Message, limit: nat)
  {
    (m.role == Assistant || m.role == Tool) && (limit < |m.content| || limit < |m.reasoning|)
  }

  /** The number of clipped messages is that of the assistant's and tools' long ones. */
  lemma {:induction false} LongCountIs(s: seq<Message>, n: nat, limit: nat)
    requires n <= |s|
    ensures LongCount(s, n, limit) == Count(n, (i: nat) => i < |s| && HasLongText(s[i], limit))
  {
    hide IsLong, HasLongText, Count;
    if n > 0 {
      LongCountIs(s, n - 1, limit);
      LongMeans(s[n - 1], limit);
      CountStep(n - 1, (i: nat) => i < |s| && HasLongText(s[i], limit));
    } else {
      CountStep(0, (i: nat) => i < |s| && HasLongText(s[i], limit));
    }
  }

  lemma LongMeans(m: Message, limit: nat)
    ensures IsLong(m, limit) <==> HasLongText(m, limit)
  {
  }

  method Clipped(s: seq<Message>, limit: nat) returns (output: seq<Message>, changed: nat)
    ensures output == ClipAll(s, limit) && changed == LongCount(s, |s|, limit)
  {
    hide Clip, IsLong;
    output, changed := [], 0;
    for i := 0 to |s|
      invariant |output| == i && forall j :: 0 <= j < i ==> output[j] == Clip(s[j], limit)
      invariant changed == LongCount(s, i, limit)
    {
      output := output + [Clip(s[i], limit)];
      if IsLong(s[i], limit) { changed := changed + 1; }
    }
  }

  method Longest(s: seq<Message>) returns (longest: nat)
    ensures forall i :: 0 <= i < |s| ==> !IsLong(s[i], longest)
    ensures longest == 0 || exists i :: 0 <= i < |s| && IsLong(s[i], longest - 1)
  {
    longest := 0;
    for i := 0 to |s|
      invariant forall j :: 0 <= j < i ==> !IsLong(s[j], longest)
      invariant longest == 0 || exists j :: 0 <= j < i && IsLong(s[j], longest - 1)
    {
      if IsLong(s[i], longest) {
        longest := if |s[i].content| > |s[i].reasoning| then |s[i].content| else |s[i].reasoning|;
        assert IsLong(s[i], longest - 1);
      }
    }
  }

  /** The texts are cut at a limit that fits while one more character does not, unless nothing is
      left to cut. The counter need not be monotone. */
  ghost predicate ClippedTight(counter: Counter, budget: nat, s: seq<Message>, r: seq<Message>)
  {
    exists limit: nat :: r == ClipAll(s, limit) && counter(r) <= budget && IsTight(counter, budget, s, limit)
  }

  ghost predicate IsTight(counter: Counter, budget: nat, s: seq<Message>, limit: nat)
  {
    ClipAll(s, limit) == s || counter(ClipAll(s, limit + 1)) > budget
  }

  method ClipToBudget(s: seq<Message>, counter: Counter, budget: nat)
    returns (best: seq<Message>, changed: nat, fitted: bool)
    ensures fitted <==> counter(ClipAll(s, 0)) <= budget
    ensures fitted ==> ClippedTight(counter, budget, s, best)
  {
    var longest := Longest(s);
    best, changed := Clipped(s, 0);
    if counter(best) > budget { return best, changed, false; }
    var low, high := 0, longest;
    ghost var kept := 0;
    while low <= high
      invariant 0 <= low <= high + 1 <= longest + 1
      invariant kept == if low == 0 then 0 else low - 1
      invariant best == ClipAll(s, kept) && counter(best) <= budget
      invariant high == longest || counter(ClipAll(s, high + 1)) > budget
    {
      var middle := (low + high) / 2;
      var candidate, count := Clipped(s, middle);
      if counter(candidate) <= budget {
        best, changed, low := candidate, count, middle + 1;
        kept := middle;
      } else {
        high := middle - 1;
      }
    }
    LowestIsTight(counter, budget, s, longest, kept, high);
    fitted := true;
  }

  lemma NothingLong(s: seq<Message>, limit: nat)
    requires forall i :: 0 <= i < |s| ==> !IsLong(s[i], limit)
    ensures ClipAll(s, limit) == s
  {
  }

  lemma LowestIsTight(counter: Counter, budget: nat, s: seq<Message>, longest: nat, kept: nat, high: int)
    requires forall i :: 0 <= i < |s| ==> !IsLong(s[i], longest)
    requires -1 <= high <= longest && kept == (if high == -1 then 0 else high)
    requires counter(ClipAll(s, kept)) <= budget && (high == longest || counter(ClipAll(s, high + 1)) > budget)
    ensures ClippedTight(counter, budget, s, ClipAll(s, kept))
  {
    NothingLong(s, longest);
    hide ClipAll, IsLong;
    assert high != -1;
    assert IsTight(counter, budget, s, kept);
  }

  // ---------------------------------------------------------------------------
  // Fitting
  // ---------------------------------------------------------------------------

  datatype Report = Report(
    before: nat, after: nat, elided: nat, clipped: nat, droppedThinking: nat, droppedExchanges: nat, fitted: bool)

  datatype Fitted = Fitted(messages: seq<Message>, report: Report)

  datatype Error = BudgetNotPositive

  /** The list after the first three reductions. */
  ghost predicate IsReduced(
    counter: Counter, budget: nat, s: seq<Message>, elided: nat, order: seq<nat>, rounds: seq<seq<Message>>)
  {
    var talking := WithoutThinkingOnly(s);
    && AreRounds(counter, budget, rounds)
    && IsElisionOrder(counter, talking, order) && IsElided(counter, budget, talking, order, elided, rounds[0])
    && (elided == |order| || counter(rounds[0]) <= budget)
    && (counter(rounds[|rounds| - 1]) <= budget || AtMostOneExchange(rounds[|rounds| - 1]))
  }

  lemma ReducedIsFaithful(
    counter: Counter, budget: nat, s: seq<Message>, elided: nat, order: seq<nat>, rounds: seq<seq<Message>>)
    requires IsReduced(counter, budget, s, elided, order, rounds)
    ensures Faithful(s, rounds[|rounds| - 1])
  {
    var talking := WithoutThinkingOnly(s);
    ThinkingOnlyIsFaithful(s);
    ElisionKeepsShape(counter, talking, order, elided);
    SameShapeIsFaithful(talking, rounds[0]);
    FaithfulComposes(s, talking, rounds[0]);
    RoundsAreFaithful(counter, budget, rounds);
    FaithfulComposes(s, rounds[0], rounds[|rounds| - 1]);
  }

  /** The message at `a` calls, and there are as many results for its calls as different ids. */
  ghost predicate IsExchange(s: seq<Message>, a: nat)
  {
    a < |s| && s[a].role == Assistant && s[a].calls != []
    && |Filter(s, (m: Message) => IsResultFor(m, s[a]))| == |set c | c in s[a].calls :: c.id|
  }

  lemma ExchangesAre(s: seq<Message>)
    ensures forall a: nat :: a < |s| ==> (IsExchange(s, a) <==> IsComplete(s, s[a]))
  {
    forall a: nat | a < |s| ensures IsExchange(s, a) <==> IsComplete(s, s[a]) {
      if s[a].role == Assistant { ExchangeGoes(s, a); }
    }
  }

  /** A round removes the first of at least two complete exchanges, and nothing else. */
  lemma DropMeans(s: seq<Message>, r: seq<Message>) returns (a: nat, b: nat)
    requires Drops(s, r)
    ensures a < b && IsExchange(s, a) && IsExchange(s, b) && forall i: nat :: i < a ==> !IsExchange(s, i)
    ensures r == Filter(s[..a], (m: Message) => !IsResultFor(m, s[a]))
                 + Filter(s[a + 1..], (m: Message) => !IsResultFor(m, s[a]))
  {
    ExchangesAre(s);
    hide IsExchange, IsComplete, WithoutExchange;
    a, b :| IsFirstExchange(s, a) && a < b < |s| && IsComplete(s, s[b]) && r == WithoutExchange(s, a);
    assert IsExchange(s, a);
    ExchangeIsCalled(s, a);
    ExchangeGoes(s, a);
  }

  lemma ExchangeIsCalled(s: seq<Message>, a: nat)
    requires IsExchange(s, a)
    ensures a < |s| && s[a].role == Assistant
  {
  }

  /** The three reductions, said of the messages alone: thinking-only messages go, then spare outputs
      are elided, then the first of several complete exchanges goes as long as the list is too long. */
  lemma ReducedMeans(
    counter: Counter, budget: nat, s: seq<Message>, elided: nat, order: seq<nat>, rounds: seq<seq<Message>>)
    requires IsReduced(counter, budget, s, elided, order, rounds)
    ensures ElidesSpares(
      counter, budget,
      Filter(s, (m: Message) => !(m.role == Assistant && m.thinking != [] && m.content == "" && m.calls == [])), rounds[0])
    ensures forall k :: 0 <= k < |rounds| - 1 ==> counter(rounds[k]) > budget && Drops(rounds[k], rounds[k + 1])
    ensures var last := rounds[|rounds| - 1];
            counter(last) > budget ==> forall a: nat, b: nat :: a < b && IsExchange(last, a) ==> !IsExchange(last, b)
  {
    ThinkingOnlyGo(s);
    ElisionElidesSpares(counter, budget, WithoutThinkingOnly(s), order, elided, rounds[0]);
    ExchangesAre(rounds[|rounds| - 1]);
    hide ElidesSpares, Drops, IsComplete;
  }

  method Reduce(messages: seq<Message>, counter: Counter, budget: nat)
    returns (reduced: seq<Message>, elided: nat, dropped: nat, ghost order: seq<nat>, ghost rounds: seq<seq<Message>>)
    ensures IsReduced(counter, budget, messages, elided, order, rounds)
    ensures reduced == rounds[|rounds| - 1] && dropped == |rounds| - 1
  {
    reduced, elided, order := ElideOldOutputs(WithoutThinkingOnly(messages), counter, budget);
    reduced, dropped, rounds := DropOldExchanges(reduced, counter, budget);
  }

  method FitMessages(messages: seq<Message>, counter: Counter, budget: int)
    returns (r: Result<Fitted, Error>, ghost reduced: seq<Message>)
    ensures r.Err? <==> budget < 1
    ensures r.Ok? ==> r.value.report.before == counter(messages)
    ensures r.Ok? ==> r.value.report.after == counter(r.value.messages)
    ensures r.Ok? && counter(messages) <= budget ==> r.value.messages == messages && r.value.report.fitted
    ensures r.Ok? ==> (r.value.report.fitted <==> counter(r.value.messages) <= budget)
    ensures r.Ok? && !r.value.report.fitted ==>
              r.value.messages == messages && counter(reduced) > budget && counter(ClipAll(reduced, 0)) > budget
    ensures r.Ok? && counter(messages) > budget && r.value.report.fitted ==>
              (if counter(reduced) <= budget then r.value.messages == reduced
               else ClippedTight(counter, budget, reduced, r.value.messages))
    ensures r.Ok? && counter(messages) > budget ==>
              exists elided, order, rounds ::
                && IsReduced(counter, budget, messages, elided, order, rounds) && reduced == rounds[|rounds| - 1]
                && (r.value.report.fitted ==>
                      r.value.report.elided == elided && r.value.report.droppedExchanges == |rounds| - 1
                      && r.value.report.droppedThinking == |messages| - |WithoutThinkingOnly(messages)|)
    ensures r.Ok? ==> Faithful(messages, r.value.messages)
  {
    reduced := messages;
    if budget < 1 { return Err(BudgetNotPositive), reduced; }
    var before := counter(messages);
    SameShapeIsFaithful(messages, messages);
    if before <= budget {
      return Ok(Fitted(messages, Report(before, before, 0, 0, 0, 0, true))), reduced;
    }
    var shrunk, elided, dropped;
    ghost var order;
    ghost var rounds;
    shrunk, elided, dropped, order, rounds := Reduce(messages, counter, budget);
    reduced := shrunk;
    ReducedIsFaithful(counter, budget, messages, elided, order, rounds);
    var thinking := |messages| - |WithoutThinkingOnly(messages)|;
    if counter(shrunk) <= budget {
      return Ok(Fitted(shrunk, Report(before, counter(shrunk), elided, elided, thinking, dropped, true))), reduced;
    }
    var best, changed, fitted := ClipToBudget(shrunk, counter, budget);
    if !fitted {
      return Ok(Fitted(messages, Report(before, before, 0, 0, 0, 0, false))), reduced;
    }
    ClippedIsFaithful(counter, budget, messages, shrunk, best);
    return Ok(Fitted(best, Report(before, counter(best), elided, changed, thinking, dropped, true))), reduced;
  }

  lemma ClippedIsFaithful(counter: Counter, budget: nat, s: seq<Message>, reduced: seq<Message>, r: seq<Message>)
    requires Faithful(s, reduced) && ClippedTight(counter, budget, reduced, r)
    ensures Faithful(s, r)
  {
    var limit: nat :| r == ClipAll(reduced, limit);
    ClipKeepsShape(reduced, limit);
    SameShapeIsFaithful(reduced, r);
    FaithfulComposes(s, reduced, r);
  }

  /** What being faithful means for the messages that must not be touched. */
  lemma FaithfulKeeps(s: seq<Message>, r: seq<Message>, n: Message) returns (m: Message)
    requires Faithful(s, r) && n in r
    ensures FixedOnes(s) == FixedOnes(r)
    ensures m in s && m.role == n.role && m.thinking == n.thinking && m.calls == n.calls && m.callId == n.callId
  {
    ShrinksKeepsFixed(s, r);
    m := ShrinksFrom(s, r, n);
    SimilarIds(m, n);
  }
}
