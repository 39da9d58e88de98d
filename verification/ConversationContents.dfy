/** What a rebuilt conversation says: every entry of a turn is accounted for by its own messages, in
    order, and nothing else is said. */
module ConversationContents {

  import opened Conversation
  import opened Messages
  import opened Sequences
  import opened Strings
  import opened Wrappers

  // ---------------------------------------------------------------------------
  // The pieces of a turn, entry by entry
  // ---------------------------------------------------------------------------

  ghost function NameOf(v: StoredCall): string { if v.name == "" then v.functionName else v.name }

  /** The stored call has an id, a name and arguments that are an object. */
  ghost predicate IsReadable(v: StoredCall)
  {
    Strip(v.id) != "" && Strip(NameOf(v)) != "" && v.arguments.Some?
  }

  ghost predicate Reads(call: Call, v: StoredCall)
  {
    IsReadable(v) && call.id == Strip(v.id) && call.name == Strip(NameOf(v)) && call.arguments == v.arguments.value
  }

  /** The calls are the readable ones of the stored calls, in order; `at` says where they stood. */
  ghost predicate AreReadable(calls: seq<Call>, values: seq<StoredCall>, at: seq<nat>)
  {
    && |at| == |calls|
    && (forall k :: 0 <= k < |at| ==> at[k] < |values| && Reads(calls[k], values[at[k]]))
    && (forall j, k :: 0 <= j < k < |at| ==> at[j] < at[k])
    && (forall i :: 0 <= i < |values| && IsReadable(values[i]) ==> i in at)
  }

  ghost predicate HasReadable(e: Entry) { exists i :: 0 <= i < |e.calls| && IsReadable(e.calls[i]) }

  ghost predicate SaysSomething(e: Entry)
  {
    e.content != "" || e.reasoning != "" || e.thinking != [] || HasReadable(e)
  }

  predicate IsBetween(c: char, first: int, last: int) { first <= c as int <= last }

  /** An ASCII letter or digit, or one of '-', '.' and '_'. */
  predicate IsNameChar(c: char)
  {
    IsBetween(c, 97, 122) || IsBetween(c, 65, 90) || IsBetween(c, 48, 57) || c in {'-', '.', '_'}
  }

  /** Other characters only. */
  predicate IsRun(s: string) { s != "" && forall i :: 0 <= i < |s| ==> !IsNameChar(s[i]) }

  predicate IsPart(part: string, c: char) { if IsNameChar(c) && !IsRun(part) then part == [c] else IsRun(part) && c == '_' }

  /** The plain text has one character for each part of the name: a name character for itself, and an
      underscore for a run of others, which is as long as it can be. */
  ghost predicate IsPlainFor(plain: string, name: string, parts: seq<string>)
  {
    && Flatten(parts) == name && |plain| == |parts|
    && (forall i :: 0 <= i < |parts| ==> IsPart(parts[i], plain[i]))
    && (forall i :: 0 < i < |parts| ==> !(IsRun(parts[i - 1]) && IsRun(parts[i])))
  }

  /** The first 80 characters of the plain name, or "tool" where there is none. */
  ghost predicate IsTag(tag: string, name: string)
  {
    exists plain, parts ::
      && IsPlainFor(plain, name, parts)
      && tag == if plain == "" then "tool" else if |plain| <= 80 then plain else plain[..80]
  }

  /** The text is the content between markers that name the tool and carry the same nonce. */
  ghost predicate IsWrapped(text: string, name: string, content: string)
  {
    exists tag: string, nonce: string ::
      && IsTag(tag, name)
      && text == "[BEGIN UNTRUSTED TOOL RESULT " + (tag + " #" + nonce + "]") + "\n" + content
                 + "\n[END UNTRUSTED TOOL RESULT " + (tag + " #" + nonce + "]")
  }

  ghost predicate IsUser(m: Message, e: Entry)
  {
    m.role == User && m.content == e.content && m.calls == [] && m.thinking == [] && m.reasoning == ""
  }

  ghost predicate IsAssistant(m: Message, e: Entry)
  {
    && m.role == Assistant && m.content == e.content && m.reasoning == e.reasoning && m.thinking == e.thinking
    && exists at :: AreReadable(m.calls, e.calls, at)
  }

  ghost predicate IsResult(m: Message, e: Entry)
  {
    m.role == Tool && m.callId == Strip(e.callId) && IsWrapped(m.content, m.name, e.content) && m.calls == []
    && m.name == Strip(if e.name == "" then "invalid_tool" else e.name)
  }

  /** A call made up for a result; it says nothing else. */
  ghost predicate IsMadeUp(m: Message, e: Entry)
  {
    && m.role == Assistant && m.content == "" && m.reasoning == "" && m.thinking == []
    && |m.calls| == 1 && m.calls[0].id == Strip(e.callId) && m.calls[0].arguments == e.args
    && m.calls[0].name == Strip(if e.name == "" then "invalid_tool" else e.name)
  }

  ghost predicate IsResultEntry(e: Entry) { e.role == ToolEntry && Strip(e.callId) != "" }

  /** The messages of one entry; `made` says whether a call is made up for it. */
  ghost predicate IsPiece(e: Entry, made: bool, piece: seq<Message>)
  {
    && (e.role == UserEntry ==> |piece| == 1 && IsUser(piece[0], e))
    && (e.role == AssistantEntry && SaysSomething(e) ==> |piece| == 1 && IsAssistant(piece[0], e))
    && (e.role == AssistantEntry && !SaysSomething(e) ==> piece == [])
    && (IsResultEntry(e) && !made ==> |piece| == 1 && IsResult(piece[0], e))
    && (IsResultEntry(e) && made ==> |piece| == 2 && IsMadeUp(piece[0], e) && IsResult(piece[1], e))
    && (e.role == ToolEntry && !IsResultEntry(e) ==> piece == [])
    && (e.role == OtherEntry ==> piece == [])
  }

  /** Some call of the entry has the id. */
  ghost predicate Calls(e: Entry, id: string)
  {
    e.role == AssistantEntry && exists i :: 0 <= i < |e.calls| && IsReadable(e.calls[i]) && Strip(e.calls[i].id) == id
  }

  /** The entry neither begins anew nor answers the id. */
  ghost predicate Passes(e: Entry, made: bool, id: string)
  {
    e.role == OtherEntry || (e.role == ToolEntry && (Strip(e.callId) == "" || (!made && Strip(e.callId) != id)))
  }

  /** Entry `j` made the call, and nothing behind it closed or answered it. */
  ghost predicate IsOpenFrom(group: seq<Entry>, made: seq<bool>, n: nat, id: string, j: nat)
    requires |made| == |group| && n <= |group|
  {
    j < n && Calls(group[j], id) && forall k :: j < k < n ==> Passes(group[k], made[k], id)
  }

  /** Some earlier entry made the call, and it is open since then. */
  ghost predicate IsOpen(group: seq<Entry>, made: seq<bool>, n: nat, id: string)
    requires |made| == |group| && n <= |group|
  {
    exists j: nat :: IsOpenFrom(group, made, n, id, j)
  }

  /** The pieces account for the entries one by one, and a call is made up exactly for a result whose
      own call is not open. */
  ghost predicate Accounts(group: seq<Entry>, made: seq<bool>, pieces: seq<seq<Message>>)
  {
    && |made| == |pieces| == |group|
    && (forall i :: 0 <= i < |group| ==> IsPiece(group[i], made[i], pieces[i]))
    && (forall i :: 0 <= i < |group| && IsResultEntry(group[i]) ==>
          (made[i] <==> !IsOpen(group, made, i, Strip(group[i].callId))))
  }

  // ---------------------------------------------------------------------------
  // A turn is what its entries say
  // ---------------------------------------------------------------------------

  lemma SkipFirst(v: StoredCall, values: seq<StoredCall>, calls: seq<Call>, later: seq<nat>) returns (at: seq<nat>)
    requires AreReadable(calls, values, later) && !IsReadable(v)
    ensures AreReadable(calls, [v] + values, at)
  {
    hide IsReadable, Reads;
    at := seq(|later|, k requires 0 <= k < |later| => later[k] + 1);
    forall i | 0 <= i < |values| + 1 && IsReadable(([v] + values)[i])
      ensures i in at
    {
      var k :| 0 <= k < |later| && later[k] == i - 1;
      assert at[k] == i;
    }
    assert forall k :: 0 <= k < |at| ==> ([v] + values)[at[k]] == values[later[k]];
  }

  lemma TakeFirst(v: StoredCall, values: seq<StoredCall>, call: Call, calls: seq<Call>, later: seq<nat>)
    returns (at: seq<nat>)
    requires AreReadable(calls, values, later) && Reads(call, v)
    ensures AreReadable([call] + calls, [v] + values, at)
  {
    hide IsReadable, Reads;
    at := seq(|later| + 1, k requires 0 <= k < |later| + 1 => if k == 0 then 0 else later[k - 1] + 1);
    forall i | 0 <= i < |values| + 1 && IsReadable(([v] + values)[i])
      ensures i in at
    {
      if i == 0 {
        assert at[0] == 0;
      } else {
        assert values[i - 1] == ([v] + values)[i];
        var k :| 0 <= k < |later| && later[k] == i - 1;
        assert at[k + 1] == i;
      }
    }
    assert forall k :: 0 < k < |at| ==> ([v] + values)[at[k]] == values[later[k - 1]];
  }

  lemma {:induction false} CallsAreReadable(values: seq<StoredCall>) returns (at: seq<nat>)
    ensures AreReadable(CallsOf(values), values, at)
    decreases |values|
  {
    if values == [] {
      at := [];
    } else {
      at := CallsAreReadable(values[1..]);
      assert [values[0]] + values[1..] == values;
      if IsReadable(values[0]) {
        at := TakeFirst(values[0], values[1..], CallOf(values[0]).value, CallsOf(values[1..]), at);
      } else {
        at := SkipFirst(values[0], values[1..], CallsOf(values[1..]), at);
      }
    }
  }

  lemma CallIdsAre(e: Entry, id: string)
    requires e.role == AssistantEntry
    ensures id in CallIds(AssistantMessage(e)) <==> Calls(e, id)
  {
    var calls := CallsOf(e.calls);
    var at := CallsAreReadable(e.calls);
    IdsAre(calls, id);
    if k :| 0 <= k < |calls| && calls[k].id == id {
      assert Reads(calls[k], e.calls[at[k]]);
    }
    if i :| 0 <= i < |e.calls| && IsReadable(e.calls[i]) && Strip(e.calls[i].id) == id {
      var k :| 0 <= k < |at| && at[k] == i;
      assert Reads(calls[k], e.calls[at[k]]);
    }
  }

  /** Whether a call is made up for the entry. */
  ghost function Made(group: seq<Entry>, i: nat): bool
    requires i < |group|
  {
    Strip(group[i].callId) !in Open(group, i)
  }

  ghost function AllMade(group: seq<Entry>): (made: seq<bool>)
    ensures |made| == |group| && forall i :: 0 <= i < |group| ==> made[i] == Made(group, i)
  {
    seq(|group|, i requires 0 <= i < |group| => Made(group, i))
  }

  lemma PassingCallsNothing(e: Entry, made: bool, id: string)
    requires Passes(e, made, id)
    ensures !Calls(e, id)
  {
  }

  lemma OpenFromOn(group: seq<Entry>, made: seq<bool>, n: nat, id: string, j: nat)
    requires |made| == |group| && n < |group|
    ensures j != n ==> (IsOpenFrom(group, made, n + 1, id, j)
                        <==> IsOpenFrom(group, made, n, id, j) && Passes(group[n], made[n], id))
    ensures IsOpenFrom(group, made, n + 1, id, n) <==> Calls(group[n], id)
  {
    hide Passes, Calls;
  }

  lemma StillOpen(group: seq<Entry>, made: seq<bool>, n: nat, id: string)
    requires |made| == |group| && n < |group| && Passes(group[n], made[n], id)
    ensures IsOpen(group, made, n + 1, id) <==> IsOpen(group, made, n, id)
  {
    PassingCallsNothing(group[n], made[n], id);
    hide Passes, Calls, IsOpenFrom;
    NotFromItself(group, made, n, id);
    if IsOpen(group, made, n, id) {
      var j: nat :| IsOpenFrom(group, made, n, id, j);
      OpenFromOn(group, made, n, id, j);
    }
    if IsOpen(group, made, n + 1, id) {
      var j: nat :| IsOpenFrom(group, made, n + 1, id, j);
      OpenFromOn(group, made, n, id, j);
      assert IsOpenFrom(group, made, n, id, j);
    }
  }

  lemma NotFromItself(group: seq<Entry>, made: seq<bool>, n: nat, id: string)
    requires |made| == |group| && n < |group|
    ensures !IsOpenFrom(group, made, n, id, n)
  {
  }

  lemma NewlyOpen(group: seq<Entry>, made: seq<bool>, n: nat, id: string)
    requires |made| == |group| && n < |group| && !Passes(group[n], made[n], id)
    ensures IsOpen(group, made, n + 1, id) <==> Calls(group[n], id)
  {
    hide Passes, Calls, IsOpenFrom;
    if IsOpen(group, made, n + 1, id) {
      var j: nat :| IsOpenFrom(group, made, n + 1, id, j);
      OpenFromOn(group, made, n, id, j);
    }
    OpenFromOn(group, made, n, id, n);
  }

  lemma NoneOpen(group: seq<Entry>, made: seq<bool>, id: string)
    requires |made| == |group|
    ensures !IsOpen(group, made, 0, id)
  {
  }

  lemma OnlyAssistantsCall(e: Entry, id: string)
    requires e.role != AssistantEntry
    ensures !Calls(e, id)
  {
  }

  /** The open calls that the loop keeps are those that some earlier entry left open. */
  lemma {:induction false} OpenIs(group: seq<Entry>, n: nat, id: string)
    requires n <= |group|
    ensures id in Open(group, n) <==> IsOpen(group, AllMade(group), n, id)
    decreases n
  {
    hide IsOpen, OpenAfter;
    if n == 0 {
      NoneOpen(group, AllMade(group), id);
    } else {
      OpenIs(group, n - 1, id);
      OpenIsStep(group, n - 1, Open(group, n - 1), id);
    }
  }

  lemma OpenIsStep(group: seq<Entry>, n: nat, unanswered: set<string>, id: string)
    requires n < |group| && (id in unanswered <==> IsOpen(group, AllMade(group), n, id))
    requires AllMade(group)[n] <==> Strip(group[n].callId) !in unanswered
    ensures id in OpenAfter(group[n], unanswered) <==> IsOpen(group, AllMade(group), n + 1, id)
  {
    hide IsOpen, Calls, AllMade, Strip;
    var e, made := group[n], AllMade(group);
    if e.role != AssistantEntry { OnlyAssistantsCall(e, id); }
    if e.role == AssistantEntry { CallIdsAre(e, id); }
    if Passes(e, made[n], id) {
      StillOpen(group, made, n, id);
    } else {
      NewlyOpen(group, made, n, id);
    }
  }

  lemma {:induction false} PlainIs(name: string) returns (parts: seq<string>)
    ensures IsPlainFor(Plain(name), name, parts)
    decreases |name|
  {
    if name == "" {
      parts := [];
    } else {
      var rest := PlainIs(name[1..]);
      assert name == [name[0]] + name[1..];
      PartsStart(Plain(name[1..]), name[1..], rest);
      if !IsPlain(name[0]) && |name| > 1 && !IsPlain(name[1]) {
        RunGrows(name[0], Plain(name[1..]), name[1..], rest);
        parts := [[name[0]] + rest[0]] + rest[1..];
      } else {
        var c := if IsPlain(name[0]) then name[0] else '_';
        PartComesFirst(name[0], c, Plain(name[1..]), name[1..], rest);
        parts := [[name[0]]] + rest;
      }
    }
  }

  lemma RunGrows(c: char, plain: string, name: string, parts: seq<string>)
    requires IsPlainFor(plain, name, parts) && parts != [] && IsRun(parts[0]) && !IsNameChar(c)
    ensures IsPlainFor(plain, [c] + name, [[c] + parts[0]] + parts[1..])
  {
    var more := [[c] + parts[0]] + parts[1..];
    assert more[1..] == parts[1..];
    assert [c] + (parts[0] + Flatten(parts[1..])) == ([c] + parts[0]) + Flatten(parts[1..]);
    assert IsPart(parts[0], plain[0]);
    assert IsRun(more[0]);
  }

  lemma PartComesFirst(c: char, d: char, plain: string, name: string, parts: seq<string>)
    requires IsPlainFor(plain, name, parts) && IsPart([c], d)
    requires parts != [] ==> IsNameChar(c) || !IsRun(parts[0])
    ensures IsPlainFor([d] + plain, [c] + name, [[c]] + parts)
  {
    var more := [[c]] + parts;
    assert more[1..] == parts;
    assert IsNameChar(c) ==> !IsRun([c]) by { if IsRun([c]) { assert !IsNameChar([c][0]); } }
    forall i | 0 <= i < |more| ensures IsPart(more[i], ([d] + plain)[i]) {
      if i > 0 { assert more[i] == parts[i - 1]; }
    }
  }

  lemma PartsStart(plain: string, name: string, parts: seq<string>)
    requires IsPlainFor(plain, name, parts)
    ensures parts == [] <==> name == ""
    ensures name != "" ==> parts[0] != "" && parts[0][0] == name[0] && (IsRun(parts[0]) <==> !IsNameChar(name[0]))
  {
    if parts != [] {
      assert IsPart(parts[0], plain[0]);
      assert name == parts[0] + Flatten(parts[1..]);
    }
  }

  lemma TagIs(name: string, tag: string)
    requires tag == if Plain(name) == "" then "tool" else if |Plain(name)| <= 80 then Plain(name) else Plain(name)[..80]
    ensures IsTag(tag, name)
  {
    var parts := PlainIs(name);
    assert IsPlainFor(Plain(name), name, parts);
  }

  lemma WrappedIs(name: string, nonce: string, content: string)
    ensures IsWrapped(Wrapped(name, nonce, content), name, content)
  {
    var tag := if Plain(name) == "" then "tool" else if |Plain(name)| <= 80 then Plain(name) else Plain(name)[..80];
    TagIs(name, tag);
    assert Wrapped(name, nonce, content)
        == "[BEGIN UNTRUSTED TOOL RESULT " + (tag + " #" + nonce + "]") + "\n" + content
           + "\n[END UNTRUSTED TOOL RESULT " + (tag + " #" + nonce + "]");
  }

  lemma ResultIs(e: Entry, nonce: string)
    requires IsResultEntry(e)
    ensures IsResult(ToolMessage(e, nonce), e) && IsMadeUp(MadeUpCall(e), e)
  {
    hide Wrapped, IsWrapped;
    WrappedIs(ToolName(e), nonce, e.content);
  }

  lemma EmittedIsPiece(e: Entry, unanswered: set<string>, nonce: string)
    ensures IsPiece(e, Strip(e.callId) !in unanswered, Emitted(e, unanswered, nonce))
  {
    if e.role == AssistantEntry {
      var at := CallsAreReadable(e.calls);
      assert HasReadable(e) <==> CallsOf(e.calls) != [] by {
        if CallsOf(e.calls) != [] { assert IsReadable(e.calls[at[0]]); }
      }
    }
    if IsResultEntry(e) {
      ResultIs(e, nonce);
    }
  }

  ghost function Pieces(group: seq<Entry>, nonces: seq<string>): (pieces: seq<seq<Message>>)
    ensures |pieces| == |group|
    ensures forall i :: 0 <= i < |group| ==> pieces[i] == Emitted(group[i], Open(group, i), Nonce(nonces, i))
  {
    seq(|group|, i requires 0 <= i < |group| => Emitted(group[i], Open(group, i), Nonce(nonces, i)))
  }

  lemma {:induction false} RenderedIsFlat(group: seq<Entry>, nonces: seq<string>, n: nat)
    requires n <= |group|
    ensures Rendered(group, nonces, n) == Flatten(Pieces(group, nonces)[..n])
    decreases n
  {
    hide Emitted, Open, Nonce;
    if n > 0 {
      var pieces := Pieces(group, nonces);
      RenderedIsFlat(group, nonces, n - 1);
      assert pieces[..n] == pieces[..n - 1] + [pieces[n - 1]];
      FlattenOne(pieces[..n - 1], pieces[n - 1]);
    }
  }

  /** What a turn renders to is, entry by entry, what its entries say: nothing is lost, added or
      moved but the calls made up for results that have none open. */
  lemma TurnIsAccountedFor(group: seq<Entry>, nonces: seq<string>) returns (made: seq<bool>, pieces: seq<seq<Message>>)
    ensures Accounts(group, made, pieces) && Rendered(group, nonces, |group|) == Flatten(pieces)
  {
    made, pieces := AllMade(group), Pieces(group, nonces);
    forall i | 0 <= i < |group|
      ensures IsPiece(group[i], made[i], pieces[i])
      ensures made[i] <==> !IsOpen(group, made, i, Strip(group[i].callId))
    {
      EmittedIsPiece(group[i], Open(group, i), Nonce(nonces, i));
      OpenIs(group, i, Strip(group[i].callId));
    }
    RenderedIsFlat(group, nonces, |group|);
    assert pieces[..|group|] == pieces;
  }

  // ---------------------------------------------------------------------------
  // The whole history
  // ---------------------------------------------------------------------------

  /** The entries with the contents longer than the limit cut, and nothing else changed. */
  ghost predicate AreCut(group: seq<Entry>, cut: seq<Entry>, limit: nat)
  {
    && |cut| == |group|
    && forall i :: 0 <= i < |group| ==>
         && cut[i].(content := group[i].content) == group[i]
         && (|group[i].content| <= limit ==> cut[i].content == group[i].content)
         && (|group[i].content| > limit && limit > 0 ==> cut[i].content == group[i].content[..limit] + "...")
         && (|group[i].content| > limit && limit == 0 ==> cut[i].content == "(elided)")
  }

  /** The messages of a turn are what its entries say, cut at the limit if there is one. */
  ghost predicate Tells(group: seq<Entry>, limit: Option<nat>, messages: seq<Message>)
  {
    exists entries: seq<Entry>, made: seq<bool>, pieces: seq<seq<Message>> ::
      && (if limit.None? then entries == group else AreCut(group, entries, limit.value))
      && Accounts(entries, made, pieces) && messages == Flatten(pieces)
  }

  lemma RenditionTells(group: seq<Entry>, how: Rendition)
    ensures Tells(group, if how.Cut? then Some(how.limit) else None, Render(group, how))
  {
    var entries := if how.Cut? then ClipEntries(group, how.limit) else group;
    var made, pieces := TurnIsAccountedFor(entries, how.nonces);
    if how.Cut? {
      assert AreCut(group, entries, how.limit);
    }
  }

  /** A built history tells of every turn it takes what its entries say; only the newest may be cut. */
  lemma HistoryTells(groups: seq<seq<Entry>>, turns: seq<seq<Message>>, how: seq<Rendition>)
    requires AreTurns(groups, turns, how)
    ensures forall k :: 0 <= k < |turns| ==>
              Tells(groups[|groups| - |turns| + k], if how[k].Cut? then Some(how[k].limit) else None, turns[k])
    ensures forall k :: 0 <= k < |turns| - 1 ==> how[k].Whole?
  {
    hide Tells, Render;
    forall k | 0 <= k < |turns|
      ensures Tells(groups[|groups| - |turns| + k], if how[k].Cut? then Some(how[k].limit) else None, turns[k])
    {
      RenditionTells(groups[|groups| - |turns| + k], how[k]);
    }
  }
}
