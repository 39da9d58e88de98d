/** Rebuilding the messages of a conversation from its stored history, newest turns first, within a
    token budget. */
module Conversation {

  import opened Messages
  import opened Sequences
  import opened Strings
  import opened Wrappers

  // ---------------------------------------------------------------------------
  // Stored entries
  // ---------------------------------------------------------------------------

  datatype EntryRole = UserEntry | AssistantEntry | ToolEntry | OtherEntry

  /** A stored call; `arguments` is missing when they are not an object. */
  datatype StoredCall = StoredCall(id: string, name: string, functionName: string, arguments: Option<string>)

  datatype Entry = Entry(
    role: EntryRole, content: string, calls: seq<StoredCall>, callId: string, name: string, args: string,
    reasoning: string, thinking: seq<string>)

  function CallOf(value: StoredCall): Option<Call>
  {
    var id := Strip(value.id);
    var name := Strip(if value.name != "" then value.name else value.functionName);
    if id == "" || name == "" || value.arguments.None? then None else Some(Call(id, name, value.arguments.value))
  }

  function CallsOf(values: seq<StoredCall>): seq<Call>
  {
    if values == [] then []
    else if CallOf(values[0]).Some? then [CallOf(values[0]).value] + CallsOf(values[1..])
    else CallsOf(values[1..])
  }

  // ---------------------------------------------------------------------------
  // Messages from the entries of one turn
  // ---------------------------------------------------------------------------

  predicate IsPlain(c: char)
  {
    'a' <= c <= 'z' || 'A' <= c <= 'Z' || '0' <= c <= '9' || c == '_' || c == '.' || c == '-'
  }

  /** Runs of other characters become one underscore. */
  function Plain(s: string): string
  {
    if s == "" then ""
    else if IsPlain(s[0]) then [s[0]] + Plain(s[1..])
    else if |s| > 1 && !IsPlain(s[1]) then Plain(s[1..])
    else "_" + Plain(s[1..])
  }

  /** A tool result between markers that carry a random nonce. */
  function Wrapped(name: string, nonce: string, content: string): string
  {
    var plain := if |Plain(name)| > 80 then Plain(name)[..80] else Plain(name);
    var tag := (if plain == "" then "tool" else plain) + " #" + nonce + "]";
    "[BEGIN UNTRUSTED TOOL RESULT " + tag + "\n" + content + "\n[END UNTRUSTED TOOL RESULT " + tag
  }

  function UserMessage(content: string): Message { Message(User, content, [], "", "", "", []) }

  function AssistantMessage(e: Entry): Message
  {
    Message(Assistant, e.content, CallsOf(e.calls), "", "", e.reasoning, e.thinking)
  }

  function ToolName(e: Entry): string { Strip(if e.name != "" then e.name else "invalid_tool") }

  function ToolMessage(e: Entry, nonce: string): Message
  {
    Message(Tool, Wrapped(ToolName(e), nonce, e.content), [], Strip(e.callId), ToolName(e), "", [])
  }

  /** The call made up for a result that answers none of the calls still open. */
  function MadeUpCall(e: Entry): Message
  {
    Message(Assistant, "", [Call(Strip(e.callId), ToolName(e), e.args)], "", "", "", [])
  }

  predicate IsBlank(e: Entry)
  {
    e.content == "" && CallsOf(e.calls) == [] && e.reasoning == "" && e.thinking == []
  }

  /** The messages of one entry, given the calls still open. */
  function Emitted(e: Entry, unanswered: set<string>, nonce: string): seq<Message>
  {
    match e.role
    case UserEntry => [UserMessage(e.content)]
    case AssistantEntry => if IsBlank(e) then [] else [AssistantMessage(e)]
    case ToolEntry =>
      if Strip(e.callId) == "" then []
      else if Strip(e.callId) in unanswered then [ToolMessage(e, nonce)]
      else [MadeUpCall(e), ToolMessage(e, nonce)]
    case OtherEntry => []
  }

  function OpenAfter(e: Entry, unanswered: set<string>): set<string>
  {
    match e.role
    case UserEntry => {}
    case AssistantEntry => CallIds(AssistantMessage(e))
    case ToolEntry =>
      if Strip(e.callId) == "" then unanswered
      else if Strip(e.callId) in unanswered then unanswered - {Strip(e.callId)}
      else {}
    case OtherEntry => unanswered
  }

  /** The messages of the first `n` entries; `nonces` are the random ones, by entry. */
  function Rendered(group: seq<Entry>, nonces: seq<string>, n: nat): seq<Message>
    requires n <= |group|
  {
    if n == 0 then []
    else Rendered(group, nonces, n - 1) + Emitted(group[n - 1], Open(group, n - 1), Nonce(nonces, n - 1))
  }

  function Nonce(nonces: seq<string>, i: nat): string { if i < |nonces| then nonces[i] else "" }

  /** The calls without a result after the first `n` entries. */
  function Open(group: seq<Entry>, n: nat): set<string>
    requires n <= |group|
  {
    if n == 0 then {} else OpenAfter(group[n - 1], Open(group, n - 1))
  }

  method Emit(e: Entry, pending: set<string>, nonce: string) returns (messages: seq<Message>, after: set<string>)
    ensures messages == Emitted(e, pending, nonce) && after == OpenAfter(e, pending)
  {
    messages, after := [], pending;
    match e.role {
      case UserEntry =>
        messages, after := [UserMessage(e.content)], {};
      case AssistantEntry =>
        after := CallIds(AssistantMessage(e));
        if !IsBlank(e) { messages := [AssistantMessage(e)]; }
      case ToolEntry =>
        var id := Strip(e.callId);
        if id != "" {
          if id !in pending {
            messages, after := [MadeUpCall(e)], {id};
          }
          messages := messages + [ToolMessage(e, nonce)];
          after := after - {id};
        }
      case OtherEntry =>
    }
  }

  method MessagesFromGroup(group: seq<Entry>) returns (messages: seq<Message>, nonces: seq<string>)
    ensures |nonces| == |group| && messages == Rendered(group, nonces, |group|)
  {
    assert |seq(|group|, i => "")| == |group|;
    nonces :| |nonces| == |group|;
    messages := [];
    var pending: set<string> := {};
    for i := 0 to |group|
      invariant pending == Open(group, i) && messages == Rendered(group, nonces, i)
    {
      var emitted: seq<Message>;
      emitted, pending := Emit(group[i], pending, nonces[i]);
      messages := messages + emitted;
    }
  }

  // ---------------------------------------------------------------------------
  // Every result follows its call
  // ---------------------------------------------------------------------------

  /** Every result answers one of the calls of the nearest message before it that is not a result, and
      no call is answered twice; `unanswered` are the calls made just before. */
  predicate PairedOnce(unanswered: set<string>, s: seq<Message>)
    decreases |s|
  {
    s == [] || (if s[0].role == Tool then s[0].callId in unanswered && PairedOnce(unanswered - {s[0].callId}, s[1..])
                else PairedOnce(CallIds(s[0]), s[1..]))
  }

  function OpenEnd(unanswered: set<string>, s: seq<Message>): set<string>
    decreases |s|
  {
    if s == [] then unanswered
    else OpenEnd(if s[0].role == Tool then unanswered - {s[0].callId} else CallIds(s[0]), s[1..])
  }

  /** What the predicate means, message by message. */
  lemma {:induction false} ResultFollowsCall(unanswered: set<string>, s: seq<Message>, i: nat) returns (j: int)
    requires PairedOnce(unanswered, s) && i < |s| && s[i].role == Tool
    ensures -1 <= j < i && s[i].callId in (if j == -1 then unanswered else CallIds(s[j]))
    ensures j >= 0 ==> s[j].role == Assistant
    ensures forall k :: j < k < i ==> s[k].role == Tool && s[k].callId != s[i].callId
    decreases |s|
  {
    if i == 0 {
      j := -1;
    } else if s[0].role == Tool {
      var k := ResultFollowsCall(unanswered - {s[0].callId}, s[1..], i - 1);
      j := if k == -1 then -1 else k + 1;
      assert forall l :: 0 < l < |s| ==> s[l] == s[1..][l - 1];
    } else {
      var k := ResultFollowsCall(CallIds(s[0]), s[1..], i - 1);
      j := k + 1;
      assert forall l :: 0 < l < |s| ==> s[l] == s[1..][l - 1];
    }
  }

  lemma {:induction false} PairedOnceConcat(unanswered: set<string>, a: seq<Message>, b: seq<Message>)
    ensures PairedOnce(unanswered, a + b) <==> PairedOnce(unanswered, a) && PairedOnce(OpenEnd(unanswered, a), b)
    ensures OpenEnd(unanswered, a + b) == OpenEnd(OpenEnd(unanswered, a), b)
    decreases |a|
  {
    if a == [] {
      assert a + b == b;
    } else {
      assert (a + b)[1..] == a[1..] + b;
      PairedOnceConcat(if a[0].role == Tool then unanswered - {a[0].callId} else CallIds(a[0]), a[1..], b);
    }
  }

  lemma EmittedIsPaired(e: Entry, unanswered: set<string>, nonce: string, before: set<string>)
    requires unanswered <= before
    ensures PairedOnce(before, Emitted(e, unanswered, nonce))
    ensures OpenAfter(e, unanswered) <= OpenEnd(before, Emitted(e, unanswered, nonce))
  {
    var s := Emitted(e, unanswered, nonce);
    if |s| == 2 {
      assert s[1..] == [ToolMessage(e, nonce)];
      assert MadeUpCall(e).calls[0].id in CallIds(s[0]);
    }
  }

  lemma MoreIsPaired(before: set<string>, s: seq<Message>, e: Entry, unanswered: set<string>, nonce: string)
    requires PairedOnce(before, s) && unanswered <= OpenEnd(before, s)
    ensures PairedOnce(before, s + Emitted(e, unanswered, nonce))
    ensures OpenAfter(e, unanswered) <= OpenEnd(before, s + Emitted(e, unanswered, nonce))
  {
    EmittedIsPaired(e, unanswered, nonce, OpenEnd(before, s));
    PairedOnceConcat(before, s, Emitted(e, unanswered, nonce));
  }

  lemma NothingIsPaired(group: seq<Entry>, nonces: seq<string>, before: set<string>)
    ensures PairedOnce(before, Rendered(group, nonces, 0)) && Open(group, 0) <= OpenEnd(before, Rendered(group, nonces, 0))
  {
  }

  lemma {:induction false} RenderedIsPaired(group: seq<Entry>, nonces: seq<string>, n: nat, before: set<string>)
    requires n <= |group|
    ensures PairedOnce(before, Rendered(group, nonces, n))
    ensures Open(group, n) <= OpenEnd(before, Rendered(group, nonces, n))
    decreases n
  {
    if n == 0 {
      NothingIsPaired(group, nonces, before);
    }
    hide Emitted, OpenAfter, PairedOnce, OpenEnd, Nonce;
    if n != 0 {
      RenderedIsPaired(group, nonces, n - 1, before);
      var s, unanswered := Rendered(group, nonces, n - 1), Open(group, n - 1);
      MoreIsPaired(before, s, group[n - 1], unanswered, Nonce(nonces, n - 1));
      assert Rendered(group, nonces, n) == s + Emitted(group[n - 1], unanswered, Nonce(nonces, n - 1));
      assert Open(group, n) == OpenAfter(group[n - 1], unanswered);
    }
  }

  // ---------------------------------------------------------------------------
  // Turns
  // ---------------------------------------------------------------------------

  predicate IsTurn(group: seq<Entry>)
  {
    group != [] && group[0].role == UserEntry && forall i :: 0 < i < |group| ==> group[i].role != UserEntry
  }

  predicate NoUser(s: seq<Entry>) { forall i :: 0 <= i < |s| ==> s[i].role != UserEntry }

  /** The turns are the history from its first user entry on, cut before each user entry. */
  ghost predicate IsGrouping(history: seq<Entry>, groups: seq<seq<Entry>>)
  {
    && (forall g :: 0 <= g < |groups| ==> IsTurn(groups[g]))
    && exists lead :: NoUser(lead) && history == lead + Flatten(groups)
  }

  lemma Appended<T>(a: seq<T>, b: seq<T>, c: seq<T>, x: T)
    ensures (a + (b + c)) + [x] == a + (b + (c + [x])) == a + ((b + c) + [x])
    ensures b + c == [] ==> (a + (b + c)) + [x] == (a + [x]) + (b + c)
  {
  }

  lemma TurnGrows(group: seq<Entry>, item: Entry)
    requires IsTurn(group) && item.role != UserEntry
    ensures IsTurn(group + [item])
  {
  }

  lemma LeadGrows(lead: seq<Entry>, item: Entry)
    requires NoUser(lead) && item.role != UserEntry
    ensures NoUser(lead + [item])
  {
  }

  method UserTurnGroups(history: seq<Entry>) returns (groups: seq<seq<Entry>>)
    ensures IsGrouping(history, groups)
  {
    groups := [];
    var current: seq<Entry> := [];
    ghost var lead: seq<Entry> := [];
    assert NoUser(lead) && Flatten(groups) == [];
    hide NoUser, Flatten;
    for i := 0 to |history|
      invariant forall g :: 0 <= g < |groups| ==> IsTurn(groups[g])
      invariant current == [] || IsTurn(current)
      invariant current == [] ==> groups == []
      invariant NoUser(lead) && history[..i] == lead + (Flatten(groups) + current)
    {
      var item := history[i];
      assert history[..i + 1] == history[..i] + [item];
      Appended(lead, Flatten(groups), current, item);
      if item.role == UserEntry {
        if current != [] {
          FlattenOne(groups, current);
          groups := groups + [current];
        }
        current := [item];
      } else if current != [] {
        TurnGrows(current, item);
        current := current + [item];
      } else {
        LeadGrows(lead, item);
        lead := lead + [item];
      }
    }
    assert history[..|history|] == history;
    if current != [] {
      FlattenOne(groups, current);
      groups := groups + [current];
    }
    assert history == lead + Flatten(groups);
  }

  // ---------------------------------------------------------------------------
  // Clipping the newest turn
  // ---------------------------------------------------------------------------

  function ClipEntry(e: Entry, limit: nat): Entry
  {
    if |e.content| <= limit then e else e.(content := if limit == 0 then "(elided)" else e.content[..limit] + "...")
  }

  function ClipEntries(group: seq<Entry>, limit: nat): seq<Entry>
  {
    seq(|group|, i requires 0 <= i < |group| => ClipEntry(group[i], limit))
  }

  function LongCount(group: seq<Entry>, n: nat, limit: nat): nat
    requires n <= |group|
  {
    if n == 0 then 0 else LongCount(group, n - 1, limit) + (if |group[n - 1].content| > limit then 1 else 0)
  }

  /** How a turn was turned into messages: contents longer than the limit cut, or none. */
  datatype Rendition = Whole(nonces: seq<string>) | Cut(limit: nat, nonces: seq<string>)

  function Render(group: seq<Entry>, how: Rendition): seq<Message>
  {
    Rendered(if how.Cut? then ClipEntries(group, how.limit) else group, how.nonces, |group|)
  }

  function Changed(group: seq<Entry>, how: Rendition): nat
  {
    if how.Cut? then LongCount(group, |group|, how.limit) else 0
  }

  method Clipped(group: seq<Entry>, limit: nat) returns (messages: seq<Message>, changed: nat, how: Rendition)
    ensures how.Cut? && how.limit == limit
    ensures messages == Render(group, how) && changed == Changed(group, how)
  {
    var candidate: seq<Entry> := [];
    changed := 0;
    for i := 0 to |group|
      invariant |candidate| == i && forall j :: 0 <= j < i ==> candidate[j] == ClipEntry(group[j], limit)
      invariant changed == LongCount(group, i, limit)
    {
      candidate := candidate + [ClipEntry(group[i], limit)];
      if |group[i].content| > limit { changed := changed + 1; }
    }
    assert candidate == ClipEntries(group, limit);
    var nonces;
    messages, nonces := MessagesFromGroup(candidate);
    how := Cut(limit, nonces);
  }

  method Longest(group: seq<Entry>) returns (longest: nat)
    ensures forall i :: 0 <= i < |group| ==> |group[i].content| <= longest
  {
    longest := 0;
    for i := 0 to |group|
      invariant forall j :: 0 <= j < i ==> |group[j].content| <= longest
    {
      if |group[i].content| > longest { longest := |group[i].content|; }
    }
  }

  lemma {:induction false} RenderedGrows(group: seq<Entry>, nonces: seq<string>, n: nat)
    requires n <= |group| && n > 0 && group[0].role == UserEntry
    ensures Rendered(group, nonces, n) != []
  {
    if n > 1 { RenderedGrows(group, nonces, n - 1); }
  }

  lemma TurnHasMessages(group: seq<Entry>, how: Rendition)
    requires IsTurn(group)
    ensures Render(group, how) != []
  {
    RenderedGrows(if how.Cut? then ClipEntries(group, how.limit) else group, how.nonces, |group|);
  }

  predicate TooLong(counter: Counter, group: seq<Entry>, how: Rendition, budget: nat)
  {
    counter(Render(group, how)) > budget
  }

  /** Even with every content elided the turn is too long. */
  ghost predicate CannotFit(counter: Counter, group: seq<Entry>, budget: nat)
  {
    budget == 0 || HasLongCut(counter, group, 0, budget)
  }

  /** The cut is as long as was found to fit: nothing is left to cut, or a cut at this limit or the
      next was too long. Each rendering draws its own nonces, and the counter need not be monotone. */
  ghost predicate IsTight(counter: Counter, group: seq<Entry>, how: Rendition, budget: nat)
  {
    && how.Cut?
    && ((forall i :: 0 <= i < |group| ==> |group[i].content| <= how.limit)
        || HasLongCut(counter, group, how.limit, budget) || HasLongCut(counter, group, how.limit + 1, budget))
  }

  ghost predicate HasLongCut(counter: Counter, group: seq<Entry>, limit: nat, budget: nat)
  {
    exists nonces :: TooLong(counter, group, Cut(limit, nonces), budget)
  }

  method FitGroup(group: seq<Entry>, counter: Counter, budget: nat)
    returns (best: seq<Message>, changed: nat, how: Rendition)
    requires IsTurn(group)
    ensures best == [] ==> changed == 0 && CannotFit(counter, group, budget)
    ensures best != [] ==>
              best == Render(group, how) && changed == Changed(group, how) && counter(best) <= budget
              && IsTight(counter, group, how, budget)
  {
    hide Render, LongCount;
    if budget == 0 { return [], 0, Whole([]); }
    best, changed, how := Clipped(group, 0);
    TurnHasMessages(group, how);
    if counter(best) > budget {
      LongCutFound(counter, group, how, budget);
      return [], 0, how;
    }
    var longest := Longest(group);
    var low, high: int := 0, longest;
    while low <= high
      invariant 0 <= low <= high + 1 <= longest + 1
      invariant how.Cut? && how.limit == if low == 0 then 0 else low - 1
      invariant high == longest || HasLongCut(counter, group, high + 1, budget)
      invariant best == Render(group, how) && changed == Changed(group, how)
      invariant counter(best) <= budget && best != []
    {
      var middle := (low + high) / 2;
      var candidate, count, cut := Clipped(group, middle);
      if counter(candidate) <= budget {
        TurnHasMessages(group, cut);
        best, changed, how, low := candidate, count, cut, middle + 1;
      } else {
        LongCutFound(counter, group, cut, budget);
        high := middle - 1;
      }
    }
    BisectionIsTight(counter, group, how, budget, longest, high);
  }

  lemma LongCutFound(counter: Counter, group: seq<Entry>, how: Rendition, budget: nat)
    requires how.Cut? && counter(Render(group, how)) > budget
    ensures HasLongCut(counter, group, how.limit, budget)
  {
    assert TooLong(counter, group, Cut(how.limit, how.nonces), budget);
  }

  lemma BisectionIsTight(counter: Counter, group: seq<Entry>, how: Rendition, budget: nat, longest: nat, high: int)
    requires forall i :: 0 <= i < |group| ==> |group[i].content| <= longest
    requires -1 <= high <= longest && how.Cut? && how.limit == if high == -1 then 0 else high
    requires high == longest || HasLongCut(counter, group, high + 1, budget)
    ensures IsTight(counter, group, how, budget)
  {
    hide Render;
  }

  // ---------------------------------------------------------------------------
  // The history that fits
  // ---------------------------------------------------------------------------

  datatype History = History(
    messages: seq<Message>, tokens: nat, sourceEntries: nat, includedEntries: nat, droppedEntries: nat,
    droppedTurns: nat, clippedMessages: nat)

  /** The tokens of the turns, each counted by itself. */
  function Total(counter: Counter, turns: seq<seq<Message>>): nat
  {
    if turns == [] then 0 else counter(turns[0]) + Total(counter, turns[1..])
  }

  /** The turns are the last of the groups, in order; only the newest may be cut. */
  ghost predicate AreTurns(groups: seq<seq<Entry>>, turns: seq<seq<Message>>, how: seq<Rendition>)
  {
    AreRendered(Render, groups, turns, how) && forall k :: 0 <= k < |how| - 1 ==> how[k].Whole?
  }

  ghost predicate AreRendered<G, H, M>(
    render: (G, H) -> seq<M>, groups: seq<G>, turns: seq<seq<M>>, how: seq<H>)
  {
    && |how| == |turns| <= |groups|
    && forall k :: 0 <= k < |turns| ==> turns[k] == render(groups[|groups| - |turns| + k], how[k])
  }

  ghost predicate NewestIsTight(counter: Counter, groups: seq<seq<Entry>>, how: seq<Rendition>, budget: nat)
    requires |how| <= |groups|
  {
    how != [] && how[|how| - 1].Cut? ==> IsTight(counter, groups[|groups| - 1], how[|how| - 1], budget)
  }

  function ChangedIn(groups: seq<seq<Entry>>, how: seq<Rendition>): nat
    requires |how| <= |groups|
  {
    if how == [] then 0 else Changed(groups[|groups| - 1], how[|how| - 1])
  }

  /** The turn did not fit, not even cut if it is the newest. */
  ghost predicate DidNotFit(counter: Counter, group: seq<Entry>, newest: bool, remaining: nat)
  {
    && (exists nonces :: TooLong(counter, group, Whole(nonces), remaining))
    && (newest ==> CannotFit(counter, group, remaining))
  }

  method TakeTurn(group: seq<Entry>, counter: Counter, newest: bool, remaining: nat)
    returns (messages: seq<Message>, clipped: nat, how: Rendition, taken: bool)
    requires IsTurn(group)
    ensures taken ==> messages == Render(group, how) && clipped == Changed(group, how)
    ensures taken ==> counter(messages) <= remaining && messages != [] && (!newest ==> how.Whole?)
    ensures taken && how.Cut? ==> IsTight(counter, group, how, remaining)
    ensures !taken ==> DidNotFit(counter, group, newest, remaining)
  {
    var nonces;
    messages, nonces := MessagesFromGroup(group);
    clipped, how := 0, Whole(nonces);
    TurnHasMessages(group, how);
    if counter(messages) > remaining {
      assert TooLong(counter, group, Whole(nonces), remaining);
      if newest {
        messages, clipped, how := FitGroup(group, counter, remaining);
      }
    }
    taken := messages != [] && counter(messages) <= remaining;
  }

  lemma OneMoreRendered<G, H, M>(
    render: (G, H) -> seq<M>, groups: seq<G>, turns: seq<seq<M>>, how: seq<H>, messages: seq<M>, next: H)
    requires AreRendered(render, groups, turns, how) && |turns| < |groups|
    requires messages == render(groups[|groups| - |turns| - 1], next)
    ensures AreRendered(render, groups, [messages] + turns, [next] + how)
  {
    var longer := [messages] + turns;
    forall k | 0 <= k < |longer| ensures longer[k] == render(groups[|groups| - |longer| + k], ([next] + how)[k]) {
      if k > 0 { assert longer[k] == turns[k - 1]; }
    }
  }

  lemma OneMoreTurn(
    groups: seq<seq<Entry>>, turns: seq<seq<Message>>, how: seq<Rendition>, messages: seq<Message>, next: Rendition,
    counter: Counter)
    requires AreTurns(groups, turns, how) && |turns| < |groups|
    requires messages == Render(groups[|groups| - |turns| - 1], next) && (turns != [] ==> next.Whole?)
    ensures AreTurns(groups, [messages] + turns, [next] + how)
    ensures Total(counter, [messages] + turns) == counter(messages) + Total(counter, turns)
  {
    OneMoreRendered(Render, groups, turns, how, messages, next);
    assert ([messages] + turns)[1..] == turns;
  }

  lemma OneMoreChanged(groups: seq<seq<Entry>>, how: seq<Rendition>, next: Rendition)
    requires |how| < |groups| && (how != [] ==> next.Whole?)
    ensures ChangedIn(groups, [next] + how) == ChangedIn(groups, how) + Changed(groups[|groups| - |how| - 1], next)
  {
  }

  lemma MoreEntries(groups: seq<seq<Entry>>, i: nat)
    requires 0 < i <= |groups|
    ensures |Flatten(groups[i - 1..])| == |groups[i - 1]| + |Flatten(groups[i..])|
  {
    assert groups[i - 1..] == [groups[i - 1]] + groups[i..];
    FlattenOne(groups[i..], groups[i - 1]);
  }

  /** Takes turns from the newest back, until one does not fit; those from `first` on were taken. */
  method SelectTurns(groups: seq<seq<Entry>>, counter: Counter, budget: nat)
    returns (selected: seq<seq<Message>>, first: nat, entries: nat, clipped: nat, ghost how: seq<Rendition>)
    requires forall g :: 0 <= g < |groups| ==> IsTurn(groups[g])
    ensures AreTurns(groups, selected, how) && first == |groups| - |selected|
    ensures NewestIsTight(counter, groups, how, budget)
    ensures clipped == ChangedIn(groups, how) && entries == |Flatten(groups[first..])|
    ensures Total(counter, selected) <= budget && (forall k :: 0 <= k < |selected| ==> selected[k] != [])
    ensures first > 0 ==> DidNotFit(counter, groups[first - 1], selected == [], budget - Total(counter, selected))
  {
    hide Render, Changed, IsTight, DidNotFit;
    selected, how := [], [];
    entries, clipped := 0, 0;
    var remaining := budget;
    first := |groups|;
    while first > 0
      invariant 0 <= first <= |groups| && |selected| == |groups| - first
      invariant AreTurns(groups, selected, how) && clipped == ChangedIn(groups, how)
      invariant NewestIsTight(counter, groups, how, budget)
      invariant remaining >= 0 && remaining == budget - Total(counter, selected)
      invariant entries == |Flatten(groups[first..])|
      invariant forall k :: 0 <= k < |selected| ==> selected[k] != []
    {
      var messages, changed, next, taken := TakeTurn(groups[first - 1], counter, selected == [], remaining);
      if !taken { return; }
      OneMoreTurn(groups, selected, how, messages, next, counter);
      OneMoreChanged(groups, how, next);
      MoreEntries(groups, first);
      selected, how := [messages] + selected, [next] + how;
      entries := entries + |groups[first - 1]|;
      clipped := clipped + changed;
      remaining := remaining - counter(messages);
      first := first - 1;
    }
  }

  method BuildHistory(history: seq<Entry>, counter: Counter, budget: nat)
    returns (built: History, ghost groups: seq<seq<Entry>>, ghost turns: seq<seq<Message>>, ghost how: seq<Rendition>)
    ensures IsGrouping(history, groups) && AreTurns(groups, turns, how) && NewestIsTight(counter, groups, how, budget)
    ensures built.messages == Flatten(turns) && built.clippedMessages == ChangedIn(groups, how)
    ensures built.tokens == if built.messages == [] then 0 else counter(built.messages)
    ensures PairedOnce({}, built.messages)
    ensures Total(counter, turns) <= budget && (forall k :: 0 <= k < |turns| ==> turns[k] != [])
    ensures built.sourceEntries == |history| && built.droppedTurns == |groups| - |turns|
    ensures built.droppedTurns > 0 ==>
              DidNotFit(counter, groups[built.droppedTurns - 1], turns == [], budget - Total(counter, turns))
    ensures built.includedEntries == |Flatten(groups[built.droppedTurns..])|
    ensures built.includedEntries + built.droppedEntries == |history|
  {
    hide AreTurns, NewestIsTight, DidNotFit, IsGrouping;
    var all := UserTurnGroups(history);
    GroupsAreTurns(history, all);
    var selected, first, entries, clipped;
    selected, first, entries, clipped, how := SelectTurns(all, counter, budget);
    groups, turns := all, selected;
    IncludedIsPart(history, all, first);
    TurnsArePaired(all, selected, how);
    built := History(Flatten(selected), if Flatten(selected) == [] then 0 else counter(Flatten(selected)),
                     |history|, entries, |history| - entries, first, clipped);
  }

  lemma GroupsAreTurns(history: seq<Entry>, groups: seq<seq<Entry>>)
    requires IsGrouping(history, groups)
    ensures forall g :: 0 <= g < |groups| ==> IsTurn(groups[g])
  {
  }

  lemma IncludedIsPart(history: seq<Entry>, groups: seq<seq<Entry>>, i: nat)
    requires IsGrouping(history, groups) && i <= |groups|
    ensures |Flatten(groups[i..])| <= |history|
  {
    FlattenConcat(groups[..i], groups[i..]);
    assert groups == groups[..i] + groups[i..];
  }

  lemma {:induction false} PairedParts(parts: seq<seq<Message>>, before: set<string>)
    requires forall k, b :: 0 <= k < |parts| ==> PairedOnce(b, parts[k])
    ensures PairedOnce(before, Flatten(parts))
    decreases |parts|
  {
    if parts != [] {
      assert forall k :: 0 <= k < |parts[1..]| ==> parts[1..][k] == parts[k + 1];
      PairedParts(parts[1..], OpenEnd(before, parts[0]));
      PairedOnceConcat(before, parts[0], Flatten(parts[1..]));
    }
  }

  /** Whatever was included, every result follows its call. */
  lemma TurnsArePaired(groups: seq<seq<Entry>>, turns: seq<seq<Message>>, how: seq<Rendition>)
    requires AreTurns(groups, turns, how)
    ensures PairedOnce({}, Flatten(turns))
  {
    forall k, b | 0 <= k < |turns| ensures PairedOnce(b, turns[k]) {
      RenderIsPaired(groups[|groups| - |turns| + k], how[k], b);
    }
    PairedParts(turns, {});
  }

  lemma RenderIsPaired(group: seq<Entry>, how: Rendition, before: set<string>)
    ensures PairedOnce(before, Render(group, how))
  {
    RenderedIsPaired(if how.Cut? then ClipEntries(group, how.limit) else group, how.nonces, |group|, before);
  }

  // ---------------------------------------------------------------------------
  // What was counted, cut and left out
  // ---------------------------------------------------------------------------

  /** The number of clipped messages is that of the entries with a content over the limit. */
  lemma {:induction false} LongCountIs(group: seq<Entry>, n: nat, limit: nat)
    requires n <= |group|
    ensures LongCount(group, n, limit) == Count(n, (i: nat) => i < |group| && limit < |group[i].content|)
  {
    hide Count;
    if n > 0 {
      LongCountIs(group, n - 1, limit);
      CountStep(n - 1, (i: nat) => i < |group| && limit < |group[i].content|);
    } else {
      CountStep(0, (i: nat) => i < |group| && limit < |group[i].content|);
    }
  }

  /** A turn that was left out counts more than what was left, in some rendering, and the newest one
      does so even with every content elided. */
  lemma LeftOutMeans(counter: Counter, group: seq<Entry>, newest: bool, remaining: nat)
    requires DidNotFit(counter, group, newest, remaining)
    ensures exists nonces :: counter(Rendered(group, nonces, |group|)) > remaining
    ensures newest && remaining > 0 ==> exists nonces :: counter(Rendered(ClipEntries(group, 0), nonces, |group|)) > remaining
  {
    var nonces :| TooLong(counter, group, Whole(nonces), remaining);
    assert counter(Rendered(group, nonces, |group|)) > remaining;
    if newest && remaining > 0 {
      var more :| TooLong(counter, group, Cut(0, more), remaining);
      assert counter(Rendered(ClipEntries(group, 0), more, |group|)) > remaining;
    }
  }

  /** A turn that was cut either has nothing longer than the limit, or was too long in some rendering
      cut at the limit or the next. */
  lemma TightMeans(counter: Counter, group: seq<Entry>, how: Rendition, budget: nat)
    returns (limit: nat, nonces: seq<string>)
    requires IsTight(counter, group, how, budget)
    ensures how.Cut?
    ensures (exists i :: 0 <= i < |group| && |group[i].content| > how.limit) ==>
              limit in {how.limit, how.limit + 1}
              && counter(Rendered(ClipEntries(group, limit), nonces, |group|)) > budget
  {
    hide Rendered, ClipEntries;
    limit, nonces := 0, [];
    if HasLongCut(counter, group, how.limit, budget) {
      limit := how.limit;
      nonces :| TooLong(counter, group, Cut(limit, nonces), budget);
    } else if HasLongCut(counter, group, how.limit + 1, budget) {
      limit := how.limit + 1;
      nonces :| TooLong(counter, group, Cut(limit, nonces), budget);
    }
  }

  lemma {:induction false} TotalOfConcat(counter: Counter, a: seq<seq<Message>>, b: seq<seq<Message>>)
    ensures Total(counter, []) == 0
    ensures forall messages :: Total(counter, [messages]) == counter(messages)
    ensures Total(counter, a + b) == Total(counter, a) + Total(counter, b)
    decreases |a|
  {
    forall messages ensures Total(counter, [messages]) == counter(messages) { assert [messages][1..] == []; }
    if a == [] {
      assert a + b == b;
    } else {
      assert (a + b)[1..] == a[1..] + b;
      TotalOfConcat(counter, a[1..], b);
    }
  }

  // ---------------------------------------------------------------------------
  // The estimated tokens of the whole list
  // ---------------------------------------------------------------------------

  /** The bytes of a JSON list: brackets, the elements, and commas between them. */
  function ListBytes(size: Message -> nat, messages: seq<Message>): nat
  {
    if messages == [] then 2
    else if |messages| == 1 then 2 + size(messages[0])
    else size(messages[0]) + 1 + ListBytes(size, messages[1..])
  }

  /** The least integer that is not below `x`. */
  function Ceiling(x: real): int { -((-x).Floor) }

  /** The UTF-8 estimate of the tokens of a message list. */
  function Estimate(size: Message -> nat, bytesPerToken: real): Counter
    requires bytesPerToken > 0.0
  {
    messages => var n := Ceiling(ListBytes(size, messages) as real / bytesPerToken); if n < 0 then 0 else n
  }

  lemma {:induction false} ConcatBytes(size: Message -> nat, a: seq<Message>, b: seq<Message>)
    requires a != [] && b != []
    ensures ListBytes(size, a + b) == ListBytes(size, a) + ListBytes(size, b) - 1
    decreases |a|
  {
    assert (a + b)[1..] == a[1..] + b;
    if |a| > 1 {
      ConcatBytes(size, a[1..], b);
    } else {
      assert a[1..] + b == b;
    }
  }

  /** So many tokens hold the bytes, and one less would not. */
  predicate IsLeast(tokens: int, bytes: real, bytesPerToken: real)
  {
    tokens >= 0 && bytes <= tokens as real * bytesPerToken && !(tokens > 0 && bytes <= (tokens - 1) as real * bytesPerToken)
  }

  /** The estimate is the least number of tokens that hold the bytes of the list. */
  lemma EstimateIs(size: Message -> nat, bytesPerToken: real, messages: seq<Message>)
    requires bytesPerToken > 0.0
    ensures IsLeast(Estimate(size, bytesPerToken)(messages), ListBytes(size, messages) as real, bytesPerToken)
    ensures |messages| == 1 ==> ListBytes(size, messages) == 2 + size(messages[0])
    ensures messages == [] ==> ListBytes(size, messages) == 2
  {
    LeastTokens(ListBytes(size, messages) as real, bytesPerToken);
    hide Ceiling, IsLeast;
  }

  lemma CeilingIs(x: real)
    ensures Ceiling(x) as real >= x && x > (Ceiling(x) - 1) as real
    ensures x >= 0.0 ==> Ceiling(x) >= 0
  {
  }

  lemma LeastTokens(bytes: real, d: real)
    requires bytes >= 0.0 && d > 0.0
    ensures Ceiling(bytes / d) >= 0 && IsLeast(Ceiling(bytes / d), bytes, d)
  {
    hide Ceiling, IsLeast;
    CeilingIs(bytes / d);
    QuotientIs(bytes, d);
    var n := Ceiling(bytes / d);
    TimesQuotient(n as real, bytes / d, bytes, d);
    TimesQuotient((n - 1) as real, bytes / d, bytes, d);
    LeastBetween(n, n as real * d, (n - 1) as real * d, bytes, d);
  }

  lemma LeastBetween(n: int, above: real, below: real, bytes: real, d: real)
    requires n >= 0 && above == n as real * d && below == (n - 1) as real * d && below < bytes <= above
    ensures IsLeast(n, bytes, d)
  {
  }

  lemma QuotientIs(bytes: real, d: real)
    requires bytes >= 0.0 && d > 0.0
    ensures (bytes / d) * d == bytes && bytes / d >= 0.0
  {
    var x := bytes / d;
    assert x * d == bytes;
    if x < 0.0 { Times(x, 0.0, d); }
  }

  lemma TimesQuotient(x: real, q: real, bytes: real, d: real)
    requires d > 0.0 && q * d == bytes
    ensures x >= q ==> bytes <= x * d
    ensures x < q ==> x * d < bytes
  {
    Times(x, q, d);
  }

  lemma Times(x: real, y: real, d: real)
    requires d > 0.0
    ensures x >= y ==> x * d >= y * d
    ensures x < y ==> x * d < y * d
  {
    Product(x - y, d);
    Minus(x, y, d);
  }

  lemma Product(x: real, d: real)
    requires d > 0.0
    ensures x >= 0.0 ==> x * d >= 0.0
    ensures x < 0.0 ==> x * d < 0.0
  {
  }

  lemma Minus(x: real, y: real, d: real)
    ensures (x - y) * d == x * d - y * d
  {
  }

  lemma CeilingIsSubadditive(x: real, y: real, z: real)
    requires z <= x + y
    ensures Ceiling(z) <= Ceiling(x) + Ceiling(y)
  {
  }

  lemma QuotientsAdd(x: real, y: real, z: real, d: real)
    requires d > 0.0 && z <= x + y
    ensures z / d <= x / d + y / d
  {
    var p, q, r := x / d, y / d, z / d;
    assert p * d == x && q * d == y && r * d == z;
    assert (p + q) * d == x + y;
    assert (r - (p + q)) * d <= 0.0;
  }

  lemma EstimateOfConcat(size: Message -> nat, bytesPerToken: real, a: seq<Message>, b: seq<Message>)
    requires bytesPerToken > 0.0 && a != [] && b != []
    ensures Estimate(size, bytesPerToken)(a + b) <= Estimate(size, bytesPerToken)(a) + Estimate(size, bytesPerToken)(b)
  {
    ConcatBytes(size, a, b);
    var x, y, z := ListBytes(size, a) as real, ListBytes(size, b) as real, ListBytes(size, a + b) as real;
    QuotientsAdd(x, y, z, bytesPerToken);
    CeilingIsSubadditive(x / bytesPerToken, y / bytesPerToken, z / bytesPerToken);
  }

  /** Counting turn by turn never underestimates: the flattened list is within the sum. */
  lemma {:induction false} EstimateOfTurns(size: Message -> nat, bytesPerToken: real, turns: seq<seq<Message>>)
    requires bytesPerToken > 0.0 && turns != [] && forall k :: 0 <= k < |turns| ==> turns[k] != []
    ensures Flatten(turns) != []
    ensures Estimate(size, bytesPerToken)(Flatten(turns)) <= Total(Estimate(size, bytesPerToken), turns)
    decreases |turns|
  {
    if |turns| == 1 {
      assert turns[1..] == [] && Flatten(turns) == turns[0];
    } else {
      EstimateOfTurns(size, bytesPerToken, turns[1..]);
      EstimateOfConcat(size, bytesPerToken, turns[0], Flatten(turns[1..]));
    }
  }

  /** With the UTF-8 estimate, the history that is built counts at most the budget as one list. */
  method BuildEstimatedHistory(history: seq<Entry>, size: Message -> nat, bytesPerToken: real, budget: nat)
    returns (built: History)
    requires bytesPerToken > 0.0
    ensures built.tokens <= budget
    ensures built.messages != [] ==> built.tokens == Estimate(size, bytesPerToken)(built.messages)
    ensures PairedOnce({}, built.messages)
  {
    hide AreTurns, NewestIsTight, IsGrouping, Estimate;
    ghost var groups, turns, how;
    built, groups, turns, how := BuildHistory(history, Estimate(size, bytesPerToken), budget);
    if turns != [] {
      EstimateOfTurns(size, bytesPerToken, turns);
    }
  }
}
