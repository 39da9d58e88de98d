/** The durable event log of one turn: an append-only file of JSON lines, its torn-tail repair,
    and the validator every appended and every loaded event goes through. */
module TurnLog {

  import opened Strings
  import opened Wrappers

  /** A JSON object with string members; nesting plays no role here. */
  type Doc = map<string, string>

  datatype Event = Event(
    version: int, eventId: string, kind: string,
    turnId: string, sessionId: string, requestId: string,
    sequence: int, request: Doc, payload: Doc)

  datatype StorageError =
    | TornTail | BadRecord | BadVersion | BadSequence | CorrelationMismatch
    | AfterTerminal | DuplicateEventId | NotAccepted | SnapshotMismatch | MissingIds

  const FORMAT_VERSION := 1
  const INTERRUPTED := "interrupted by process restart"

  /** The outcome of a turn that a restart cut short. */
  predicate WasInterrupted(payload: Doc) { "error" in payload && payload["error"] == INTERRUPTED }

  predicate IsTerminal(e: Event)
  {
    e.kind in {"turn.completed", "turn.failed", "turn.cancelled"}
  }

  // ---------------------------------------------------------------------------
  // The validator
  // ---------------------------------------------------------------------------

  predicate SameTurn(a: Event, b: Event)
  {
    a.turnId == b.turnId && a.sessionId == b.sessionId && a.requestId == b.requestId
  }

  predicate HasTerminal(records: seq<Event>) { exists i :: 0 <= i < |records| && IsTerminal(records[i]) }

  predicate HasId(records: seq<Event>, id: string) { exists i :: 0 <= i < |records| && records[i].eventId == id }

  /** Why `event` may not follow `records`, if it may not. */
  function Objection(records: seq<Event>, event: Event): Option<StorageError>
  {
    if event.version != FORMAT_VERSION then Some(BadVersion)
    else if event.sequence != |records| + 1 then Some(BadSequence)
    else if records != [] then
      if !SameTurn(event, records[0]) then Some(CorrelationMismatch)
      else if HasTerminal(records) then Some(AfterTerminal)
      else if HasId(records, event.eventId) then Some(DuplicateEventId)
      else None
    else if event.kind != "turn.accepted" then Some(NotAccepted)
    else None
  }

  /** The first objection met when the records are checked one after the other. */
  function HistoryObjection(records: seq<Event>): Option<StorageError>
  {
    if records == [] then None
    else
      var init := records[..|records| - 1];
      var earlier := HistoryObjection(init);
      if earlier.Some? then earlier else Objection(init, records[|records| - 1])
  }

  method ValidateHistory(records: seq<Event>) returns (objection: Option<StorageError>)
    ensures objection == HistoryObjection(records)
  {
    var accepted: seq<Event> := [];
    assert records[..|records|] == records;
    while |accepted| < |records|
      invariant |accepted| <= |records| && accepted == records[..|accepted|]
      invariant HistoryObjection(accepted).None?
      decreases |records| - |accepted|
    {
      var record := records[|accepted|];
      var next := accepted + [record];
      assert next[..|next| - 1] == accepted && next == records[..|next|];
      objection := Objection(accepted, record);
      if objection.Some? {
        FirstObjectionStays(records, |next|);
        return;
      }
      accepted := next;
    }
    return None;
  }

  lemma {:induction false} FirstObjectionStays(records: seq<Event>, n: nat)
    requires n <= |records| && HistoryObjection(records[..n]).Some?
    ensures HistoryObjection(records) == HistoryObjection(records[..n])
  {
    if n < |records| {
      var init := records[..|records| - 1];
      assert init[..n] == records[..n];
      FirstObjectionStays(init, n);
    } else {
      assert records[..n] == records;
    }
  }

  /** What an accepted log looks like, said as a whole: numbered from 1, starting with the
      acceptance, one turn, distinct event ids, and a terminal event only at the end. */
  ghost predicate WellFormedLog(records: seq<Event>)
  {
    && (forall i :: 0 <= i < |records| ==> records[i].version == 1 && records[i].sequence == i + 1)
    && (records != [] ==> records[0].kind == "turn.accepted")
    && (forall i :: 0 <= i < |records| ==>
          records[i].turnId == records[0].turnId && records[i].sessionId == records[0].sessionId
          && records[i].requestId == records[0].requestId)
    && (forall i, j :: 0 <= i < j < |records| ==> records[i].eventId != records[j].eventId)
    && (forall i :: 0 <= i < |records| - 1 ==> records[i].kind !in {"turn.completed", "turn.failed", "turn.cancelled"})
  }

  lemma {:induction false} AcceptedIsWellFormed(records: seq<Event>)
    ensures HistoryObjection(records).None? <==> WellFormedLog(records)
  {
    if records != [] {
      var init, last := records[..|records| - 1], records[|records| - 1];
      AcceptedIsWellFormed(init);
      assert records == init + [last];
      if WellFormedLog(records) {
        assert forall i :: 0 <= i < |init| ==> init[i] == records[i];
        assert WellFormedLog(init);
      }
      if WellFormedLog(init) {
        ExtendsWellFormed(init, last);
      }
    }
  }

  lemma ExtendsWellFormed(init: seq<Event>, last: Event)
    requires WellFormedLog(init)
    ensures Objection(init, last).None? <==> WellFormedLog(init + [last])
  {
    var records := init + [last];
    assert forall i :: 0 <= i < |init| ==> records[i] == init[i];
    assert records[|init|] == last;
  }

  /** What an objection says of the event and the log, or what there is none of. */
  lemma ObjectionMeans(records: seq<Event>, event: Event)
    ensures var first := if records == [] then event else records[0];
            match Objection(records, event)
            case Some(BadVersion) => event.version != 1
            case Some(BadSequence) => event.sequence != |records| + 1
            case Some(CorrelationMismatch) =>
              event.turnId != first.turnId || event.sessionId != first.sessionId || event.requestId != first.requestId
            case Some(AfterTerminal) =>
              exists i :: 0 <= i < |records| && records[i].kind in {"turn.completed", "turn.failed", "turn.cancelled"}
            case Some(DuplicateEventId) => exists i :: 0 <= i < |records| && records[i].eventId == event.eventId
            case Some(NotAccepted) => records == [] && event.kind != "turn.accepted"
            case Some(_) => false
            case None => true
  {
  }

  // ---------------------------------------------------------------------------
  // The file: one encoded record per line
  // ---------------------------------------------------------------------------

  /** The JSON encoding, of which only three facts are used: it is faithful, keeps to one line,
      and is never blank. */
  datatype Codec = Codec(encode: Event -> string, decode: string -> Option<Event>)

  ghost predicate Faithful(codec: Codec)
  {
    forall e: Event :: FaithfulOn(codec, e)
  }

  ghost predicate FaithfulOn(codec: Codec, e: Event)
  {
    codec.decode(codec.encode(e)) == Some(e) && '\n' !in codec.encode(e) && !IsBlank(codec.encode(e))
  }

  /** Only white space, as far as one encoded record per line is concerned. */
  predicate IsBlank(line: string) { forall i :: 0 <= i < |line| ==> line[i] in " \t\r" }

  function LineOf(codec: Codec, e: Event): string { codec.encode(e) + "\n" }

  function Encoded(codec: Codec, records: seq<Event>): string
  {
    if records == [] then ""
    else Encoded(codec, records[..|records| - 1]) + LineOf(codec, records[|records| - 1])
  }

  ghost predicate EndsAt(text: string, n: nat)
  {
    && n <= |text| && (n == 0 || text[n - 1] == '\n')
    && forall i :: n <= i < |text| ==> text[i] != '\n'
  }

  lemma {:induction false} EndExists(text: string)
    ensures exists n: nat :: EndsAt(text, n)
  {
    if text == "" || text[|text| - 1] == '\n' {
      assert EndsAt(text, |text|);
    } else {
      EndExists(text[..|text| - 1]);
      var n: nat :| EndsAt(text[..|text| - 1], n);
      assert EndsAt(text, n);
    }
  }

  ghost function End(text: string): (n: nat)
    ensures EndsAt(text, n)
  {
    EndExists(text);
    var n: nat :| EndsAt(text, n);
    n
  }

  /** Everything up to and including the last newline. */
  ghost function Complete(text: string): string
  {
    text[..End(text)]
  }

  lemma CompleteIs(text: string, n: nat)
    requires EndsAt(text, n)
    ensures Complete(text) == text[..n]
  {
    var m := End(text);
    assert n > 0 ==> text[n - 1] == '\n';
    assert m > 0 ==> text[m - 1] == '\n';
  }

  ghost predicate BreaksAt(text: string, n: nat)
  {
    && n <= |text| && (n == |text| || text[n] == '\n')
    && forall i :: 0 <= i < n ==> text[i] != '\n'
  }

  lemma {:induction false} BreakExists(text: string, from: nat)
    requires from <= |text| && forall i :: 0 <= i < from ==> text[i] != '\n'
    ensures exists n: nat :: BreaksAt(text, n)
    decreases |text| - from
  {
    if from == |text| || text[from] == '\n' {
      assert BreaksAt(text, from);
    } else {
      BreakExists(text, from + 1);
    }
  }

  /** The first newline of the text, or its length. */
  ghost function Break(text: string): (r: nat)
    ensures BreaksAt(text, r)
  {
    BreakExists(text, 0);
    var n: nat :| BreaksAt(text, n);
    n
  }

  lemma BreakIs(text: string, n: nat)
    requires BreaksAt(text, n)
    ensures Break(text) == n
  {
  }

  /** The text behind its first newline. */
  ghost function AfterBreak(text: string): (r: string)
    ensures text != "" ==> |r| < |text|
  {
    if Break(text) < |text| then text[Break(text) + 1..] else ""
  }

  /** The records of the lines of `text`, blank lines skipped, put behind `before`. */
  ghost function Parse(codec: Codec, before: seq<Event>, text: string): Result<seq<Event>, StorageError>
    decreases |text|
  {
    if text == "" then Ok(before)
    else
      var line := text[..Break(text)];
      if IsBlank(line) then Parse(codec, before, AfterBreak(text))
      else match codec.decode(line)
        case None => Err(BadRecord)
        case Some(e) => Parse(codec, before + [e], AfterBreak(text))
  }

  lemma BreakOfLine(line: string, rest: string)
    requires '\n' !in line
    ensures Break(line + "\n" + rest) == |line|
    ensures (line + "\n" + rest)[..|line|] == line
    ensures AfterBreak(line + "\n" + rest) == rest
  {
    var text := line + "\n" + rest;
    assert text[..|line|] == line;
    BreakIs(text, |line|);
  }

  /** A line is skipped if it has nothing but blanks, tabs and returns; any other must be a record. */
  lemma LineMeans(codec: Codec, before: seq<Event>, line: string, rest: string)
    requires '\n' !in line
    ensures (forall i :: 0 <= i < |line| ==> line[i] in {' ', '\t', '\r'}) ==>
              Parse(codec, before, line + "\n" + rest) == Parse(codec, before, rest)
    ensures (exists i :: 0 <= i < |line| && line[i] !in {' ', '\t', '\r'}) ==>
              Parse(codec, before, line + "\n" + rest)
              == match codec.decode(line) case None => Err(BadRecord) case Some(e) => Parse(codec, before + [e], rest)
  {
    BreakOfLine(line, rest);
    assert forall c :: c in " \t\r" <==> c in {' ', '\t', '\r'};
  }

  lemma ParseLine(codec: Codec, before: seq<Event>, e: Event, rest: string)
    requires Faithful(codec)
    ensures Parse(codec, before, LineOf(codec, e) + rest) == Parse(codec, before + [e], rest)
  {
    assert FaithfulOn(codec, e);
    BreakOfLine(codec.encode(e), rest);
  }

  lemma {:induction false} ParseContinues(codec: Codec, records: seq<Event>, rest: string)
    requires Faithful(codec)
    ensures Parse(codec, [], Encoded(codec, records) + rest) == Parse(codec, records, rest)
  {
    if records == [] {
      assert "" + rest == rest;
    } else {
      var init, last := records[..|records| - 1], records[|records| - 1];
      ParseContinues(codec, init, LineOf(codec, last) + rest);
      Associative(Encoded(codec, init), LineOf(codec, last), rest);
      ParseLine(codec, init, last, rest);
      assert init + [last] == records;
    }
  }

  /** Reading back what was written gives the records that were written. */
  lemma ReadingGivesWritten(codec: Codec, records: seq<Event>)
    requires Faithful(codec)
    ensures Parse(codec, [], Encoded(codec, records)) == Ok(records)
  {
    ParseContinues(codec, records, "");
    assert Encoded(codec, records) + "" == Encoded(codec, records);
  }

  lemma TornTailIsCut(codec: Codec, records: seq<Event>, tail: string)
    requires '\n' !in tail
    ensures Complete(Encoded(codec, records) + tail) == Encoded(codec, records)
  {
    var whole := Encoded(codec, records);
    var text := whole + tail;
    assert whole == "" || whole[|whole| - 1] == '\n';
    assert EndsAt(text, |whole|);
    CompleteIs(text, |whole|);
  }

  lemma EncodedAppend(codec: Codec, records: seq<Event>, e: Event)
    ensures Encoded(codec, records + [e]) == Encoded(codec, records) + LineOf(codec, e)
  {
    assert (records + [e])[..|records|] == records;
  }

  // ---------------------------------------------------------------------------
  // Reading and appending, as functions of the file contents
  // ---------------------------------------------------------------------------

  /** The file after an operation, and what the operation returned. */
  datatype Outcome<T> = Outcome(file: string, result: Result<T, StorageError>)

  ghost function Read(codec: Codec, file: string, repair: bool): Outcome<seq<Event>>
  {
    var complete := Complete(file);
    if complete == file then Outcome(file, Parse(codec, [], file))
    else if !repair then Outcome(file, Err(TornTail))
    else Outcome(complete, Parse(codec, [], complete))
  }

  ghost function Append(codec: Codec, file: string, event: Event): Outcome<()>
  {
    var read := Read(codec, file, true);
    match read.result
    case Err(error) => Outcome(read.file, Err(error))
    case Ok(records) =>
      match Objection(records, event)
      case Some(error) => Outcome(read.file, Err(error))
      case None => Outcome(read.file + LineOf(codec, event), Ok(()))
  }

  /** The records of a log file that holds whole lines and perhaps a torn one. */
  ghost predicate Holds(codec: Codec, file: string, records: seq<Event>)
  {
    exists tail :: '\n' !in tail && file == Encoded(codec, records) + tail
  }

  lemma ReadRepairs(codec: Codec, file: string, records: seq<Event>)
    requires Faithful(codec) && Holds(codec, file, records)
    ensures Read(codec, file, true) == Outcome(Encoded(codec, records), Ok(records))
  {
    var tail :| '\n' !in tail && file == Encoded(codec, records) + tail;
    TornTailIsCut(codec, records, tail);
    ReadingGivesWritten(codec, records);
  }

  lemma AppendWrites(codec: Codec, file: string, records: seq<Event>, event: Event)
    requires Faithful(codec) && Holds(codec, file, records)
    ensures Append(codec, file, event)
         == (match Objection(records, event)
             case Some(error) => Outcome(Encoded(codec, records), Err(error))
             case None => Outcome(Encoded(codec, records + [event]), Ok(())))
  {
    ReadRepairs(codec, file, records);
    EncodedAppend(codec, records, event);
  }

  /** A crash may cut the appended line at any character; the earlier records all survive, and
      the new one survives exactly when its newline was written. */
  lemma CrashCutsOneRecord(codec: Codec, records: seq<Event>, event: Event, cut: nat)
    requires Faithful(codec) && cut <= |LineOf(codec, event)|
    ensures Holds(codec, Encoded(codec, records) + LineOf(codec, event)[..cut],
                  if cut < |LineOf(codec, event)| then records else records + [event])
  {
    assert FaithfulOn(codec, event);
    var line := LineOf(codec, event);
    if cut < |line| {
      assert line[..cut] == codec.encode(event)[..cut];
    } else {
      EncodedAppend(codec, records, event);
      assert line[..cut] == line;
      assert Encoded(codec, records + [event]) + "" == Encoded(codec, records) + line;
    }
  }

  lemma WholeLinesHold(codec: Codec, records: seq<Event>)
    ensures Holds(codec, Encoded(codec, records), records)
  {
    assert Encoded(codec, records) + "" == Encoded(codec, records);
  }

  // ---------------------------------------------------------------------------
  // A faithful encoding exists
  // ---------------------------------------------------------------------------

  /** A string with its characters marked, line feeds spelled out, and an end mark. */
  function Quote(s: string): (r: string)
    ensures r != "" && r[0] in "cne" && '\n' !in r
  {
    if s == "" then "e" else (if s[0] == '\n' then "n" else ['c', s[0]]) + Quote(s[1..])
  }

  /** The first quoted string of a text, and what follows it. */
  function Unquote(text: string): (r: (string, string))
    ensures text != "" ==> |r.1| < |text|
    ensures text == "" ==> r.1 == ""
  {
    if text == "" || text[0] == 'e' then ("", if text == "" then "" else text[1..])
    else if text[0] == 'n' then var (s, rest) := Unquote(text[1..]); ("\n" + s, rest)
    else if |text| > 1 then var (s, rest) := Unquote(text[2..]); ([text[1]] + s, rest)
    else ("", "")
  }

  lemma UnquoteMarked(c: char, text: string)
    ensures Unquote((if c == '\n' then "n" else ['c', c]) + text) == ([c] + Unquote(text).0, Unquote(text).1)
  {
    assert ("n" + text)[1..] == text && (['c', c] + text)[2..] == text;
  }

  lemma {:induction false} QuoteBack(s: string, rest: string)
    ensures Unquote(Quote(s) + rest) == (s, rest)
    decreases |s|
  {
    if s == "" {
      assert (Quote(s) + rest)[1..] == rest;
    } else {
      var mark := if s[0] == '\n' then "n" else ['c', s[0]];
      QuoteBack(s[1..], rest);
      UnquoteMarked(s[0], Quote(s[1..]) + rest);
      assert Quote(s) + rest == mark + (Quote(s[1..]) + rest);
      assert s == [s[0]] + s[1..];
    }
  }

  /** An integer as a string of its size, with a sign. */
  function Tally(n: int): string
  {
    if n < 0 then seq(1 - n, i => if i == 0 then '-' else '1') else seq(n, _ => '1')
  }

  function Untally(s: string): int
  {
    if s != "" && s[0] == '-' then 1 - |s| else |s|
  }

  ghost function QuoteDoc(doc: Doc): (r: string)
    ensures '\n' !in r
    decreases |doc|
  {
    if |doc| == 0 then "z"
    else
      assert doc.Keys != {};
      var key :| key in doc;
      "p" + (Quote(key) + (Quote(doc[key]) + QuoteDoc(doc - {key})))
  }

  function UnquoteDoc(text: string): (Doc, string)
    decreases |text|
  {
    if text == "" || text[0] == 'z' then (map[], if text == "" then "" else text[1..])
    else
      var (key, behindKey) := Unquote(text[1..]);
      var (value, behind) := Unquote(behindKey);
      var (doc, rest) := UnquoteDoc(behind);
      (doc[key := value], rest)
  }

  lemma UnquotePair(key: string, value: string, text: string)
    ensures var (doc, rest) := UnquoteDoc(text);
            UnquoteDoc("p" + (Quote(key) + (Quote(value) + text))) == (doc[key := value], rest)
  {
    var whole := "p" + (Quote(key) + (Quote(value) + text));
    assert whole[1..] == Quote(key) + (Quote(value) + text);
    QuoteBack(key, Quote(value) + text);
    QuoteBack(value, text);
  }

  lemma QuotedPair(doc: Doc) returns (key: string)
    requires |doc| != 0
    ensures key in doc && QuoteDoc(doc) == "p" + (Quote(key) + (Quote(doc[key]) + QuoteDoc(doc - {key})))
  {
    assert doc.Keys != {};
    key :| key in doc && QuoteDoc(doc) == "p" + (Quote(key) + (Quote(doc[key]) + QuoteDoc(doc - {key})));
  }

  lemma NoPair(doc: Doc, rest: string)
    requires |doc| == 0
    ensures UnquoteDoc(QuoteDoc(doc) + rest) == (doc, rest)
  {
    assert (QuoteDoc(doc) + rest)[1..] == rest;
  }

  lemma {:induction false} QuoteDocBack(doc: Doc, rest: string)
    ensures UnquoteDoc(QuoteDoc(doc) + rest) == (doc, rest)
    decreases |doc|
  {
    hide QuoteDoc, UnquoteDoc, Quote;
    if |doc| == 0 {
      NoPair(doc, rest);
    } else {
      var key := QuotedPair(doc);
      var k, v, less := Quote(key), Quote(doc[key]), QuoteDoc(doc - {key});
      QuoteDocBack(doc - {key}, rest);
      UnquotePair(key, doc[key], less + rest);
      assert ("p" + (k + (v + less))) + rest == "p" + (k + (v + (less + rest)));
      assert (doc - {key})[key := doc[key]] == doc;
    }
  }

  ghost function QuoteEvent(e: Event): (r: string)
    ensures r != "" && r[0] in "cne" && '\n' !in r
  {
    Quote(Tally(e.version)) + (Quote(e.eventId) + (Quote(e.kind) + (Quote(e.turnId) + (Quote(e.sessionId)
    + (Quote(e.requestId) + (Quote(Tally(e.sequence)) + (QuoteDoc(e.request) + QuoteDoc(e.payload))))))))
  }

  function UnquoteEvent(text: string): Event
  {
    var (version, a) := Unquote(text);
    var (eventId, b) := Unquote(a);
    var (kind, c) := Unquote(b);
    var (turnId, d) := Unquote(c);
    var (sessionId, f) := Unquote(d);
    var (requestId, g) := Unquote(f);
    var (sequence, h) := Unquote(g);
    var (request, i) := UnquoteDoc(h);
    Event(Untally(version), eventId, kind, turnId, sessionId, requestId, Untally(sequence), request, UnquoteDoc(i).0)
  }

  lemma QuoteEventBack(e: Event)
    ensures UnquoteEvent(QuoteEvent(e)) == e
  {
    hide Quote, Unquote, QuoteDoc, UnquoteDoc;
    var i := QuoteDoc(e.payload);
    var h := QuoteDoc(e.request) + i;
    var g := Quote(Tally(e.sequence)) + h;
    var f := Quote(e.requestId) + g;
    var d := Quote(e.sessionId) + f;
    var c := Quote(e.turnId) + d;
    var b := Quote(e.kind) + c;
    var a := Quote(e.eventId) + b;
    QuoteBack(Tally(e.version), a);
    QuoteBack(e.eventId, b);
    QuoteBack(e.kind, c);
    QuoteBack(e.turnId, d);
    QuoteBack(e.sessionId, f);
    QuoteBack(e.requestId, g);
    QuoteBack(Tally(e.sequence), h);
    QuoteDocBack(e.request, i);
    QuoteDocBack(e.payload, "");
    assert i + "" == i;
  }

  /** So what is assumed of the encoding can be had. */
  lemma FaithfulCodecExists()
    ensures exists codec :: Faithful(codec)
  {
    ghost var codec := Codec(e => QuoteEvent(e), text => Some(UnquoteEvent(text)));
    hide QuoteEvent, UnquoteEvent;
    forall e: Event
      ensures FaithfulOn(codec, e)
    {
      QuoteEventBack(e);
    }
    assert Faithful(codec);
  }
}
