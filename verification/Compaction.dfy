/** Deterministic compaction of a transcript: recent entries keep their text, older tool outputs are
    summarised, repeated reads of a file collapse, and entries are packed from the newest back. */
module Compaction {

  import opened Clipping
  import opened Ordering
  import opened Sequences
  import opened Strings
  import opened Wrappers

  /** A history entry; `args` is the JSON text of a tool's arguments, of which `path` and `command`
      are two. */
  datatype Entry = Entry(role: string, name: string, args: string, path: string, command: string, content: string)

  datatype Operation =
    | RetainRecent
    | CollapseDuplicateRead(original: nat)
    | ReuseFileSummary
    | SummarizeToolOutput
    | TrimOldMessage

  datatype Candidate = Candidate(index: nat, operation: Operation, recent: bool, lines: seq<string>)

  datatype Budgeting = Full | Clipped | Dropped | Collapsed

  /** What became of one entry, with the lines that were written for it. */
  datatype Record = Record(index: nat, operation: Operation, action: Budgeting, included: bool, lines: seq<string>)

  /** The summary that memory holds for a file, if any. */
  type Summaries = string -> Option<string>

  datatype Settings = Settings(count: TextCounter, window: nat, budget: nat, summaries: Summaries)

  // ---------------------------------------------------------------------------
  // Rendering
  // ---------------------------------------------------------------------------

  function Rendered(lines: seq<string>): string { Join(["Transcript:"] + lines, "\n") }

  function RawItem(e: Entry): string
  {
    if e.role == "tool" then "[tool:" + e.name + "] " + e.args + "\n" + e.content
    else "[" + e.role + "] " + e.content
  }

  function RawLines(history: seq<Entry>): seq<string>
  {
    if history == [] then [] else Lines(RawItem(history[0])) + RawLines(history[1..])
  }

  function Raw(history: seq<Entry>): string
  {
    if history == [] then "Transcript:\n- empty" else Rendered(RawLines(history))
  }

  function RenderItem(count: TextCounter, e: Entry, limit: nat): seq<string>
  {
    if e.role == "tool" then ["[tool:" + e.name + "] " + e.args, Clip(count, e.content, limit)]
    else ["[" + e.role + "] " + Clip(count, e.content, limit)]
  }

  function NonBlank(lines: seq<string>): seq<string>
  {
    if lines == [] then []
    else if Strip(lines[0]) == "" then NonBlank(lines[1..])
    else [Strip(lines[0])] + NonBlank(lines[1..])
  }

  function Summary(count: TextCounter, e: Entry): string
  {
    if e.name == "run_shell" then
      var command := Strip(e.command);
      var lines := NonBlank(Lines(e.content));
      var shown := Join(if |lines| > 3 then lines[..3] else lines, " | ");
      (if command == "" then "shell" else command) + " -> " + (if shown == "" then "(empty)" else shown)
    else RenderItem(count, e, 60)[0]
  }

  // ---------------------------------------------------------------------------
  // What each entry asks for
  // ---------------------------------------------------------------------------

  function RecentStart(s: Settings, n: nat): nat { if n <= s.window then 0 else n - s.window }

  predicate IsRead(e: Entry) { e.role == "tool" && e.name == "read_file" }

  predicate ReadsSame(history: seq<Entry>, i: nat, j: nat)
    requires i < |history| && j < |history|
  {
    IsRead(history[i]) && IsRead(history[j]) && Strip(history[i].path) == Strip(history[j].path)
  }

  /** The first read of the file that entry `i` reads. */
  function FirstRead(history: seq<Entry>, i: nat, from: nat): (j: nat)
    requires from <= i < |history| && IsRead(history[i])
    ensures from <= j <= i && ReadsSame(history, j, i)
    ensures forall k :: from <= k < j ==> !ReadsSame(history, k, i)
    decreases i - from
  {
    if from == i || ReadsSame(history, from, i) then from else FirstRead(history, i, from + 1)
  }

  function CandidateOf(s: Settings, history: seq<Entry>, i: nat): (c: Candidate)
    requires i < |history|
    ensures c.index == i
  {
    var e := history[i];
    if i >= RecentStart(s, |history|) then Candidate(i, RetainRecent, true, RenderItem(s.count, e, 900))
    else if IsRead(e) then
      var path := Strip(e.path);
      var first := FirstRead(history, i, 0);
      if first < i then Candidate(i, CollapseDuplicateRead(first), false, [])
      else if s.summaries(path).Some? then Candidate(i, ReuseFileSummary, false, [path + " -> " + s.summaries(path).value])
      else Candidate(i, SummarizeToolOutput, false, [Summary(s.count, e)])
    else if e.role == "tool" then Candidate(i, SummarizeToolOutput, false, [Summary(s.count, e)])
    else Candidate(i, TrimOldMessage, false, RenderItem(s.count, e, 60))
  }

  // What an entry asks for, said outright.

  /** The line or lines of an entry whose content is clipped to a number of tokens. */
  ghost predicate AreItemLines(count: TextCounter, e: Entry, limit: nat, lines: seq<string>)
  {
    if e.role == "tool" then
      |lines| == 2 && lines[0] == "[tool:" + e.name + "] " + e.args && lines[1] == Clip(count, e.content, limit)
    else |lines| == 1 && lines[0] == "[" + e.role + "] " + Clip(count, e.content, limit)
  }

  lemma {:induction false} NonBlankLines(lines: seq<string>)
    ensures var kept := Filter(lines, (l: string) => Strip(l) != "");
            |NonBlank(lines)| == |kept| && forall i :: 0 <= i < |kept| ==> NonBlank(lines)[i] == Strip(kept[i])
    decreases |lines|
  {
    if lines != [] {
      NonBlankLines(lines[1..]);
    }
  }

  /** What is shown of a shell's output: its first lines that are not blank, stripped, at most three. */
  ghost predicate IsShown(shown: string, output: string)
  {
    var kept := Filter(Lines(output), (l: string) => Strip(l) != "");
    && (kept == [] ==> shown == "(empty)")
    && (|kept| == 1 ==> shown == Strip(kept[0]))
    && (|kept| == 2 ==> shown == Strip(kept[0]) + " | " + Strip(kept[1]))
    && (|kept| >= 3 ==> shown == Strip(kept[0]) + " | " + (Strip(kept[1]) + " | " + Strip(kept[2])))
  }

  /** The summary of a tool's output: for a shell its command and what it showed, else what was called. */
  ghost predicate IsSummary(summary: string, e: Entry)
  {
    if e.name == "run_shell" then
      exists shown :: IsShown(shown, e.content)
                      && summary == (if Strip(e.command) == "" then "shell" else Strip(e.command)) + " -> " + shown
    else summary == "[tool:" + e.name + "] " + e.args
  }

  lemma SummaryIs(count: TextCounter, e: Entry)
    requires e.role == "tool"
    ensures IsSummary(Summary(count, e), e)
  {
    if e.name == "run_shell" {
      var lines := NonBlank(Lines(e.content));
      NonBlankLines(Lines(e.content));
      NonBlankIsNotBlank(Lines(e.content));
      var shown := Join(if |lines| > 3 then lines[..3] else lines, " | ");
      ShownIs(lines, shown);
      assert IsShown(if shown == "" then "(empty)" else shown, e.content);
    }
  }

  lemma {:induction false} NonBlankIsNotBlank(lines: seq<string>)
    ensures forall i :: 0 <= i < |NonBlank(lines)| ==> NonBlank(lines)[i] != ""
    decreases |lines|
  {
    if lines != [] {
      NonBlankIsNotBlank(lines[1..]);
    }
  }

  lemma ShownIs(lines: seq<string>, shown: string)
    requires shown == Join(if |lines| > 3 then lines[..3] else lines, " | ")
    requires forall i :: 0 <= i < |lines| ==> lines[i] != ""
    ensures lines == [] ==> shown == ""
    ensures lines != [] ==> shown != ""
    ensures |lines| == 1 ==> shown == lines[0]
    ensures |lines| == 2 ==> shown == lines[0] + " | " + lines[1]
    ensures |lines| >= 3 ==> shown == lines[0] + " | " + (lines[1] + " | " + lines[2])
  {
    if |lines| >= 3 {
      var three := [lines[0], lines[1], lines[2]];
      assert (if |lines| > 3 then lines[..3] else lines) == three;
      assert three[1..] == [lines[1], lines[2]] && three[1..][1..] == [lines[2]];
      assert Join([lines[2]], " | ") == lines[2] && Join([lines[1], lines[2]], " | ") == lines[1] + " | " + lines[2];
    } else if |lines| == 2 {
      assert lines[1..] == [lines[1]];
    }
  }

  /** Exactly the last entries are recent and keep their text, up to 900 tokens. An older read of a file
      read before collapses; one that memory has a summary of gives that; other older tool outputs give
      their summary; other older entries keep 60 tokens. */
  lemma CandidateMeans(s: Settings, history: seq<Entry>, i: nat)
    requires i < |history|
    ensures var c, e := CandidateOf(s, history, i), history[i];
            var recent := |history| - i <= s.window;
            var isRead := e.role == "tool" && e.name == "read_file";
            var again := isRead && exists j :: 0 <= j < i && history[j].role == "tool" && history[j].name == "read_file"
                                              && Strip(history[j].path) == Strip(e.path);
            var known := isRead && s.summaries(Strip(e.path)).Some?;
            && c.index == i && c.recent == recent
            && (recent ==> c.operation == RetainRecent && AreItemLines(s.count, e, 900, c.lines))
            && (!recent && again ==> c.operation.CollapseDuplicateRead? && c.lines == [])
            && (!recent && !again && known ==>
                  c.operation == ReuseFileSummary && c.lines == [Strip(e.path) + " -> " + s.summaries(Strip(e.path)).value])
            && (!recent && !again && !known && e.role == "tool" ==>
                  c.operation == SummarizeToolOutput && |c.lines| == 1 && IsSummary(c.lines[0], e))
            && (!recent && e.role != "tool" ==>
                  c.operation == TrimOldMessage && AreItemLines(s.count, e, 60, c.lines))
  {
    var e := history[i];
    if e.role == "tool" {
      SummaryIs(s.count, e);
    }
    hide Summary, IsSummary;
    if IsRead(e) {
      var first := FirstRead(history, i, 0);
      hide FirstRead;
      assert first < i <==> exists j :: 0 <= j < i && ReadsSame(history, j, i);
      assert forall j :: 0 <= j < i ==>
               (ReadsSame(history, j, i) <==> history[j].role == "tool" && history[j].name == "read_file"
                                              && Strip(history[j].path) == Strip(e.path));
    }
  }

  // ---------------------------------------------------------------------------
  // Packing, from the newest entry back
  // ---------------------------------------------------------------------------

  function ClipLines(count: TextCounter, lines: seq<string>, limit: nat): seq<string>
  {
    if lines == [] then []
    else
      var first := Clip(count, lines[0], limit);
      if first == "" then ClipLines(count, lines[1..], limit) else [first] + ClipLines(count, lines[1..], limit)
  }

  /** The tokens each line may take when the entry does not fit as it is. */
  function PerLine(s: Settings, c: Candidate, packed: seq<string>): nat
  {
    if c.recent then
      var used := s.count(Rendered(packed));
      (if used < s.budget then s.budget - used else 0) / (if c.lines == [] then 1 else |c.lines|)
    else 20
  }

  predicate Fits(s: Settings, lines: seq<string>) { s.count(Rendered(lines)) <= s.budget }

  /** What becomes of an entry when the lines of the newer ones are packed. */
  function Decide(s: Settings, c: Candidate, packed: seq<string>): Record
  {
    if c.operation.CollapseDuplicateRead? then Record(c.index, c.operation, Collapsed, false, [])
    else
      var full := Fits(s, c.lines + packed);
      var lines := if full then c.lines else ClipLines(s.count, c.lines, PerLine(s, c, packed));
      if lines != [] && Fits(s, lines + packed) then
        Record(c.index, c.operation, if full then Full else Clipped, true, lines)
      else Record(c.index, c.operation, Dropped, false, [])
  }

  /** The lines packed for the entries from `i` on. */
  function Packed(s: Settings, history: seq<Entry>, i: nat): seq<string>
    requires i <= |history|
    decreases |history| - i, 1
  {
    if i == |history| then [] else RecordOf(s, history, i).lines + Packed(s, history, i + 1)
  }

  function RecordOf(s: Settings, history: seq<Entry>, i: nat): (r: Record)
    requires i < |history|
    ensures r.index == i
    decreases |history| - i, 0
  {
    Decide(s, CandidateOf(s, history, i), Packed(s, history, i + 1))
  }

  function ClipEach(count: TextCounter, lines: seq<string>, limit: nat): seq<string>
  {
    seq(|lines|, i requires 0 <= i < |lines| => Clip(count, lines[i], limit))
  }

  /** Too long lines are clipped and empty ones left out. */
  lemma {:induction false} ClipLinesMeans(count: TextCounter, lines: seq<string>, limit: nat)
    ensures ClipLines(count, lines, limit) == Filter(ClipEach(count, lines, limit), (l: string) => l != "")
    decreases |lines|
  {
    if lines != [] {
      ClipLinesMeans(count, lines[1..], limit);
      assert ClipEach(count, lines, limit)[1..] == ClipEach(count, lines[1..], limit);
    }
  }

  /** When an entry does not fit, a line of an older one gets 20 tokens, and the lines of a recent one
      share equally what the packed lines leave of the budget. */
  lemma PerLineMeans(s: Settings, c: Candidate, packed: seq<string>)
    ensures !c.recent ==> PerLine(s, c, packed) == 20
    ensures c.recent && c.lines != [] && s.count(Join(["Transcript:"] + packed, "\n")) <= s.budget ==>
              PerLine(s, c, packed) == (s.budget - s.count(Join(["Transcript:"] + packed, "\n"))) / |c.lines|
    ensures c.recent && s.count(Join(["Transcript:"] + packed, "\n")) >= s.budget ==> PerLine(s, c, packed) == 0
  {
    var lines := if c.lines == [] then 1 else |c.lines|;
    assert 0 / lines == 0;
  }

  /** An entry that does not collapse is packed as it is if the transcript is within the budget then, and
      otherwise with its lines clipped if some are left and it is within the budget then. */
  lemma DecideMeans(s: Settings, c: Candidate, packed: seq<string>)
    requires !c.operation.CollapseDuplicateRead?
    ensures var clipped := Filter(ClipEach(s.count, c.lines, PerLine(s, c, packed)), (l: string) => l != "");
            var whole := !(s.count(Join(["Transcript:"] + (c.lines + packed), "\n")) > s.budget);
            var cut := !(s.count(Join(["Transcript:"] + (clipped + packed), "\n")) > s.budget);
            Decide(s, c, packed)
            == if whole && c.lines != [] then Record(c.index, c.operation, Full, true, c.lines)
               else if !whole && cut && clipped != [] then Record(c.index, c.operation, Clipped, true, clipped)
               else Record(c.index, c.operation, Dropped, false, [])
  {
    ClipLinesMeans(s.count, c.lines, PerLine(s, c, packed));
    assert c.lines == [] ==> ClipLines(s.count, c.lines, PerLine(s, c, packed)) == [];
  }

  /** The raw transcript has the lines of all entries under its header, each tool output behind a line
      that says what was called. */
  lemma {:induction false} RawMeans(history: seq<Entry>, texts: seq<string>)
    requires |texts| == |history|
    requires forall i :: 0 <= i < |history| ==>
               texts[i] == if history[i].role == "tool"
                           then "[tool:" + history[i].name + "] " + history[i].args + "\n" + history[i].content
                           else "[" + history[i].role + "] " + history[i].content
    ensures RawLines(history) == Flatten(seq(|texts|, i requires 0 <= i < |texts| => Lines(texts[i])))
    decreases |history|
  {
    hide Lines;
    var all := seq(|texts|, i requires 0 <= i < |texts| => Lines(texts[i]));
    if history != [] {
      RawMeans(history[1..], texts[1..]);
      assert all[1..] == seq(|texts| - 1, i requires 0 <= i < |texts| - 1 => Lines(texts[1..][i]));
    }
  }

  lemma RawIsJoined(history: seq<Entry>)
    ensures Raw(history) == if history == [] then "Transcript:\n- empty" else Join(["Transcript:"] + RawLines(history), "\n")
  {
  }

  datatype Compacted = Compacted(raw: string, rendered: string, records: seq<Record>, recentStart: nat)

  function Transcript(s: Settings, history: seq<Entry>): string
  {
    var packed := Packed(s, history, 0);
    if history == [] || !Fits(s, packed) then Clip(s.count, Raw(history), s.budget) else Rendered(packed)
  }

  datatype Error = NegativeBudget

  // ---------------------------------------------------------------------------
  // The compactor
  // ---------------------------------------------------------------------------

  /** The first read of each file among the first `n` entries. */
  ghost predicate SeenReads(history: seq<Entry>, n: nat, seen: map<string, nat>)
    requires n <= |history|
  {
    && (forall i :: 0 <= i < n && IsRead(history[i]) ==>
          Strip(history[i].path) in seen && seen[Strip(history[i].path)] == FirstRead(history, i, 0))
    && (forall path :: path in seen ==>
          seen[path] < n && IsRead(history[seen[path]]) && Strip(history[seen[path]].path) == path)
  }

  lemma FirstReadIsShared(history: seq<Entry>, i: nat, j: nat, from: nat)
    requires from <= i && from <= j && i < |history| && j < |history| && ReadsSame(history, i, j)
    ensures FirstRead(history, i, from) == FirstRead(history, j, from)
  {
    var a, b := FirstRead(history, i, from), FirstRead(history, j, from);
    assert ReadsSame(history, a, j) && ReadsSame(history, b, i);
  }

  method CandidateFor(s: Settings, history: seq<Entry>, i: nat, seen: map<string, nat>)
    returns (c: Candidate, after: map<string, nat>)
    requires i < |history|
    requires i < RecentStart(s, |history|) ==> SeenReads(history, i, seen)
    ensures c == CandidateOf(s, history, i)
    ensures i < RecentStart(s, |history|) ==> SeenReads(history, i + 1, after)
  {
    var e := history[i];
    after := seen;
    if i >= RecentStart(s, |history|) {
      return Candidate(i, RetainRecent, true, RenderItem(s.count, e, 900)), after;
    }
    if e.role == "tool" && e.name == "read_file" {
      var path := Strip(e.path);
      if path in seen {
        FirstReadIsShared(history, seen[path], i, 0);
        return Candidate(i, CollapseDuplicateRead(seen[path]), false, []), after;
      }
      FirstReadIsNew(history, i, seen);
      after := seen[path := i];
      var summary := s.summaries(path);
      if summary.Some? {
        return Candidate(i, ReuseFileSummary, false, [path + " -> " + summary.value]), after;
      }
    }
    if e.role == "tool" {
      c := Candidate(i, SummarizeToolOutput, false, [Summary(s.count, e)]);
    } else {
      c := Candidate(i, TrimOldMessage, false, RenderItem(s.count, e, 60));
    }
  }

  lemma FirstReadIsNew(history: seq<Entry>, i: nat, seen: map<string, nat>)
    requires i < |history| && IsRead(history[i]) && SeenReads(history, i, seen) && Strip(history[i].path) !in seen
    ensures FirstRead(history, i, 0) == i
  {
    var j := FirstRead(history, i, 0);
    assert ReadsSame(history, j, i);
  }

  method Candidates(s: Settings, history: seq<Entry>) returns (candidates: seq<Candidate>)
    ensures |candidates| == |history| && forall i :: 0 <= i < |history| ==> candidates[i] == CandidateOf(s, history, i)
  {
    candidates := [];
    var seen: map<string, nat> := map[];
    for i := 0 to |history|
      invariant |candidates| == i && forall j :: 0 <= j < i ==> candidates[j] == CandidateOf(s, history, j)
      invariant i <= RecentStart(s, |history|) ==> SeenReads(history, i, seen)
    {
      var c;
      c, seen := CandidateFor(s, history, i, seen);
      candidates := candidates + [c];
    }
  }

  method Place(s: Settings, c: Candidate, packed: seq<string>) returns (record: Record, after: seq<string>)
    requires !c.operation.CollapseDuplicateRead?
    ensures record == Decide(s, c, packed) && after == record.lines + packed
  {
    var lines, action := c.lines, Full;
    var rendered := Rendered(lines + packed);
    if s.count(rendered) > s.budget {
      var limit := 20;
      if c.recent {
        var existing := s.count(Rendered(packed));
        var available := if existing < s.budget then s.budget - existing else 0;
        limit := available / (if lines == [] then 1 else |lines|);
      }
      lines := ClipLines(s.count, lines, limit);
      action := Clipped;
      rendered := Rendered(lines + packed);
    }
    if lines != [] && s.count(rendered) <= s.budget {
      record, after := Record(c.index, c.operation, action, true, lines), lines + packed;
    } else {
      record, after := Record(c.index, c.operation, Dropped, false, []), packed;
      assert [] + packed == packed;
    }
  }

  predicate Collapses(s: Settings, history: seq<Entry>, i: nat)
  {
    i < |history| && CandidateOf(s, history, i).operation.CollapseDuplicateRead?
  }

  ghost predicate HasRecord(records: seq<Record>, j: nat)
  {
    exists a :: 0 <= a < |records| && records[a].index == j
  }

  /** The records of certain entries, each once, in any order. */
  ghost predicate AreRecords(spec: nat -> Record, records: seq<Record>, entries: set<nat>)
  {
    && (forall a :: 0 <= a < |records| ==> records[a].index in entries && records[a] == spec(records[a].index))
    && (forall a, b :: 0 <= a < b < |records| ==> records[a].index != records[b].index)
    && (forall j :: j in entries ==> HasRecord(records, j))
  }

  lemma OneMoreRecord(spec: nat -> Record, records: seq<Record>, entries: set<nat>, record: Record)
    requires AreRecords(spec, records, entries) && record.index !in entries && record == spec(record.index)
    ensures AreRecords(spec, records + [record], entries + {record.index})
  {
    var more := records + [record];
    forall j | j in entries + {record.index} ensures HasRecord(more, j) {
      if j == record.index {
        assert more[|records|].index == j;
      } else {
        assert HasRecord(records, j);
        var a :| 0 <= a < |records| && records[a].index == j;
        assert more[a].index == j;
      }
    }
  }

  ghost function RecordsOf(s: Settings, history: seq<Entry>): nat -> Record
  {
    (i: nat) => if i < |history| then RecordOf(s, history, i) else Record(i, RetainRecent, Dropped, false, [])
  }

  /** The entries below `n` that collapse. */
  ghost function CollapsedBelow(s: Settings, history: seq<Entry>, n: nat): set<nat>
  {
    set j: nat | j < n && Collapses(s, history, j)
  }

  /** The entries that collapse, and all from `i` on. */
  ghost function Settled(s: Settings, history: seq<Entry>, i: nat): set<nat>
  {
    set j: nat | j < |history| && (Collapses(s, history, j) || j >= i)
  }

  lemma CollapsedRecordIs(s: Settings, history: seq<Entry>, i: nat)
    requires Collapses(s, history, i)
    ensures RecordsOf(s, history)(i) == Record(i, CandidateOf(s, history, i).operation, Collapsed, false, [])
  {
    hide CandidateOf, Packed;
  }

  method CollapsedRecords(s: Settings, history: seq<Entry>, candidates: seq<Candidate>) returns (records: seq<Record>)
    requires |candidates| == |history| && forall i :: 0 <= i < |history| ==> candidates[i] == CandidateOf(s, history, i)
    ensures AreRecords(RecordsOf(s, history), records, Settled(s, history, |history|))
  {
    hide AreRecords, CandidateOf, RecordsOf, RecordOf;
    records := [];
    NoRecords(RecordsOf(s, history));
    assert CollapsedBelow(s, history, 0) == {};
    for i := 0 to |history|
      invariant AreRecords(RecordsOf(s, history), records, CollapsedBelow(s, history, i))
    {
      if candidates[i].operation.CollapseDuplicateRead? {
        var record := Record(i, candidates[i].operation, Collapsed, false, []);
        CollapsedRecordIs(s, history, i);
        assert CollapsedBelow(s, history, i + 1) == CollapsedBelow(s, history, i) + {i};
        OneMoreRecord(RecordsOf(s, history), records, CollapsedBelow(s, history, i), record);
        records := records + [record];
      } else {
        assert CollapsedBelow(s, history, i + 1) == CollapsedBelow(s, history, i);
      }
    }
    assert CollapsedBelow(s, history, |history|) == Settled(s, history, |history|);
  }

  lemma NoRecords(spec: nat -> Record)
    ensures AreRecords(spec, [], {})
  {
  }

  method Pack(s: Settings, history: seq<Entry>, candidates: seq<Candidate>, collapsed: seq<Record>)
    returns (packed: seq<string>, records: seq<Record>)
    requires |candidates| == |history| && forall i :: 0 <= i < |history| ==> candidates[i] == CandidateOf(s, history, i)
    requires AreRecords(RecordsOf(s, history), collapsed, Settled(s, history, |history|))
    ensures packed == Packed(s, history, 0) && AreRecords(RecordsOf(s, history), records, Settled(s, history, 0))
  {
    hide AreRecords, CandidateOf, Decide;
    packed, records := [], collapsed;
    var i := |history|;
    while i > 0
      invariant 0 <= i <= |history| && packed == Packed(s, history, i)
      invariant AreRecords(RecordsOf(s, history), records, Settled(s, history, i))
    {
      i := i - 1;
      assert Settled(s, history, i) == Settled(s, history, i + 1) + {i};
      if candidates[i].operation.CollapseDuplicateRead? {
        CollapsedRecordIs(s, history, i);
        assert Settled(s, history, i) == Settled(s, history, i + 1);
        assert [] + packed == packed;
      } else {
        var record;
        record, packed := Place(s, candidates[i], packed);
        assert record == RecordOf(s, history, i) && i !in Settled(s, history, i + 1);
        OneMoreRecord(RecordsOf(s, history), records, Settled(s, history, i + 1), record);
        records := records + [record];
      }
    }
  }

  lemma FirstIsNatural(indexes: seq<nat>)
    ensures indexes != [] ==> indexes[0] >= 0
  {
  }

  lemma {:induction false} IncreasingIsIdentity(indexes: seq<nat>, n: nat)
    requires forall a, b :: 0 <= a < b < |indexes| ==> indexes[a] < indexes[b]
    requires forall a :: 0 <= a < |indexes| ==> indexes[a] < n
    requires forall i :: 0 <= i < n ==> i in indexes
    ensures |indexes| == n && forall i :: 0 <= i < n ==> indexes[i] == i
    decreases n
  {
    if n > 0 {
      assert n - 1 in indexes;
      var last := |indexes| - 1;
      assert indexes[last] == n - 1;
      forall i | 0 <= i < n - 1 ensures i in indexes[..last] {
        assert i in indexes;
        var a :| 0 <= a < |indexes| && indexes[a] == i;
        assert indexes[..last][a] == i;
      }
      IncreasingIsIdentity(indexes[..last], n - 1);
    } else {
      FirstIsNatural(indexes);
    }
  }

  method InIndexOrder(records: seq<Record>) returns (sorted: seq<Record>)
    requires forall a, b :: 0 <= a < b < |records| ==> records[a].index != records[b].index
    ensures forall a, b :: 0 <= a < b < |sorted| ==> sorted[a].index < sorted[b].index
    ensures forall r :: r in sorted <==> r in records
  {
    var positions: seq<nat> := seq(|records|, a => a);
    var order := Sort(positions, (a: nat, b: nat) =>
      a < |records| && b < |records| && records[a].index <= records[b].index);
    forall k | 0 <= k < |order| ensures order[k] < |records| { assert order[k] in positions; }
    sorted := seq(|order|, k requires 0 <= k < |order| => records[order[k]]);
    forall r | r in records ensures r in sorted {
      var a :| 0 <= a < |records| && records[a] == r;
      assert positions[a] == a && a in order;
      var k :| 0 <= k < |order| && order[k] == a;
      assert sorted[k] == r;
    }
  }

  lemma RecordsInOrder(s: Settings, history: seq<Entry>, records: seq<Record>, sorted: seq<Record>)
    requires AreRecords(RecordsOf(s, history), records, Settled(s, history, 0))
    requires forall a, b :: 0 <= a < b < |sorted| ==> sorted[a].index < sorted[b].index
    requires forall r :: r in sorted <==> r in records
    ensures |sorted| == |history| && forall i :: 0 <= i < |history| ==> sorted[i] == RecordOf(s, history, i)
  {
    hide CandidateOf, Decide;
    var indexes := seq(|sorted|, a requires 0 <= a < |sorted| => sorted[a].index);
    forall a | 0 <= a < |sorted| ensures sorted[a].index < |history| && sorted[a] == RecordOf(s, history, sorted[a].index) {
      assert sorted[a] in records;
    }
    forall j | 0 <= j < |history| ensures j in indexes {
      assert j in Settled(s, history, 0);
      assert HasRecord(records, j);
      var a :| 0 <= a < |records| && records[a].index == j;
      assert records[a] in sorted;
      var b :| 0 <= b < |sorted| && sorted[b] == records[a];
      assert indexes[b] == j;
    }
    IncreasingIsIdentity(indexes, |history|);
    forall i | 0 <= i < |history| ensures sorted[i] == RecordOf(s, history, i) {
      assert indexes[i] == i;
    }
  }

  method Compact(s: Settings, history: seq<Entry>) returns (r: Compacted)
    ensures r.raw == Raw(history) && r.rendered == Transcript(s, history)
    ensures r.recentStart == RecentStart(s, |history|)
    ensures |r.records| == |history| && forall i :: 0 <= i < |history| ==> r.records[i] == RecordOf(s, history, i)
  {
    if history == [] {
      return Compacted(Raw(history), Clip(s.count, Raw(history), s.budget), [], RecentStart(s, 0));
    }
    var candidates := Candidates(s, history);
    var collapsed := CollapsedRecords(s, history, candidates);
    var packed, records := Pack(s, history, candidates, collapsed);
    assert forall a, b :: 0 <= a < b < |records| ==> records[a].index != records[b].index;
    var sorted := InIndexOrder(records);
    RecordsInOrder(s, history, records, sorted);
    var rendered := Rendered(packed);
    if s.count(rendered) > s.budget { rendered := Clip(s.count, Raw(history), s.budget); }
    r := Compacted(Raw(history), rendered, sorted, RecentStart(s, |history|));
  }

  // ---------------------------------------------------------------------------
  // What the compaction promises
  // ---------------------------------------------------------------------------

  lemma DecidedFits(s: Settings, c: Candidate, packed: seq<string>)
    requires packed == [] || Fits(s, packed)
    ensures var lines := Decide(s, c, packed).lines + packed; lines == [] || Fits(s, lines)
  {
    assert [] + packed == packed;
  }

  lemma {:induction false} PackedFits(s: Settings, history: seq<Entry>, i: nat)
    requires i <= |history|
    ensures Packed(s, history, i) == [] || Fits(s, Packed(s, history, i))
    decreases |history| - i
  {
    hide Decide, CandidateOf, Fits;
    if i < |history| {
      PackedFits(s, history, i + 1);
      DecidedFits(s, CandidateOf(s, history, i), Packed(s, history, i + 1));
    }
  }

  /** The rendering is within the budget, for any counter that counts nothing as nothing. */
  lemma TranscriptFits(s: Settings, history: seq<Entry>)
    requires s.count("") == 0
    ensures s.count(Transcript(s, history)) <= s.budget
  {
    ClipFits(s.count, Raw(history), s.budget);
  }

  /** The lines of each record from `i` on. */
  function LinesOf(s: Settings, history: seq<Entry>, i: nat): seq<seq<string>>
    requires i <= |history|
    decreases |history| - i
  {
    if i == |history| then [] else [RecordOf(s, history, i).lines] + LinesOf(s, history, i + 1)
  }

  ghost predicate AnyIncluded(s: Settings, history: seq<Entry>, i: nat)
  {
    exists j :: i <= j < |history| && RecordOf(s, history, j).included
  }

  lemma IncludedHasLines(s: Settings, history: seq<Entry>, i: nat)
    requires i < |history|
    ensures RecordOf(s, history, i).included <==> RecordOf(s, history, i).lines != []
  {
    hide CandidateOf;
  }

  lemma {:induction false} PackedIsIncluded(s: Settings, history: seq<Entry>, i: nat)
    requires i <= |history|
    ensures Packed(s, history, i) == Flatten(LinesOf(s, history, i))
    ensures Packed(s, history, i) != [] <==> AnyIncluded(s, history, i)
    decreases |history| - i
  {
    if i < |history| {
      hide Decide, CandidateOf;
      PackedIsIncluded(s, history, i + 1);
      IncludedHasLines(s, history, i);
      assert LinesOf(s, history, i)[1..] == LinesOf(s, history, i + 1);
      assert AnyIncluded(s, history, i) <==> RecordOf(s, history, i).included || AnyIncluded(s, history, i + 1);
    }
  }

  /** When anything is included, the rendering is the header followed by the included lines, entry by
      entry in source order; otherwise it is the header alone, or the raw transcript clipped. */
  lemma RenderingIsIncluded(s: Settings, history: seq<Entry>)
    ensures AnyIncluded(s, history, 0) ==> Transcript(s, history) == Rendered(Flatten(LinesOf(s, history, 0)))
    ensures !AnyIncluded(s, history, 0) ==>
              Transcript(s, history) == (if history != [] && Fits(s, []) then Rendered([])
                                         else Clip(s.count, Raw(history), s.budget))
  {
    hide Decide, CandidateOf, Clip, Rendered, RecordOf, Raw;
    PackedIsIncluded(s, history, 0);
    PackedFits(s, history, 0);
  }

  predicate IsIncluded(r: Record) { r.included }

  predicate IsLeftOut(r: Record) { r.action == Dropped || r.action == Collapsed }

  /** Every entry is either included or dropped or collapsed. */
  lemma {:induction false} NothingIsLost(s: Settings, history: seq<Entry>, records: seq<Record>)
    requires forall r :: r in records ==> r.index < |history| && r == RecordOf(s, history, r.index)
    ensures |Filter(records, IsIncluded)| + |Filter(records, IsLeftOut)| == |records|
    decreases |records|
  {
    if records != [] {
      assert records[0] in records;
      NothingIsLost(s, history, records[1..]);
    }
  }

  /** Exactly the older reads of a file that was read before collapse, each to the first read of the
      file, which does not collapse; so each file has one older read that keeps its place. */
  lemma ReadsCollapseToFirst(s: Settings, history: seq<Entry>, i: nat)
    requires i < |history|
    ensures Collapses(s, history, i)
            <==> i < RecentStart(s, |history|) && exists j :: 0 <= j < i && ReadsSame(history, j, i)
    ensures Collapses(s, history, i) ==>
              var first := CandidateOf(s, history, i).operation.original;
              first < i && ReadsSame(history, first, i) && !Collapses(s, history, first)
  {
    if IsRead(history[i]) {
      FirstReadIsShared(history, FirstRead(history, i, 0), i, 0);
    }
  }
}
