/** Controlled text edits: exact search that tolerates CRLF, a whole-line fallback that ignores
    surrounding white space, rejection of ambiguous or overlapping matches, and a splice that
    leaves everything outside the matches untouched. */
module TextPatch {

  import opened Strings
  import opened Wrappers

  datatype Span = Span(start: nat, end: nat)

  datatype Mode = Exact | LineWhitespace

  datatype Patch = Patch(content: string, replacements: nat, mode: Mode)

  datatype PatchError = EmptyOldText | NotUnique(found: nat) | Overlap

  // ---------------------------------------------------------------------------
  // String primitives of the source language
  // ---------------------------------------------------------------------------

  /** Every CRLF becomes LF, left to right. */
  function Normalize(s: string): string
  {
    if s == "" then ""
    else if |s| > 1 && s[0] == '\r' && s[1] == '\n' then "\n" + Normalize(s[2..])
    else [s[0]] + Normalize(s[1..])
  }

  function ReplaceNewlines(s: string, ending: string): string
  {
    if s == "" then ""
    else (if s[0] == '\n' then ending else [s[0]]) + ReplaceNewlines(s[1..], ending)
  }

  /** The first newline at or after `from`, or the length of the text. */
  function LineEnd(text: string, from: nat): (r: nat)
    requires from <= |text|
    ensures from <= r <= |text|
    ensures r < |text| ==> text[r] == '\n'
    ensures forall i :: from <= i < r ==> text[i] != '\n'
    decreases |text| - from
  {
    if from == |text| || text[from] == '\n' then from else LineEnd(text, from + 1)
  }

  /** The pieces between newlines; there is always at least one. */
  function SplitFrom(text: string, from: nat): (r: seq<string>)
    requires from <= |text|
    ensures |r| > 0 && forall i :: 0 <= i < |r| ==> '\n' !in r[i]
    decreases |text| - from
  {
    var end := LineEnd(text, from);
    if end == |text| then [text[from..]] else [text[from..end]] + SplitFrom(text, end + 1)
  }

  function Split(text: string): (r: seq<string>)
    ensures |r| > 0 && forall i :: 0 <= i < |r| ==> '\n' !in r[i]
  {
    SplitFrom(text, 0)
  }

  // ---------------------------------------------------------------------------
  // Exact search: the requested lines joined by LF or CRLF
  // ---------------------------------------------------------------------------

  predicate LiteralAt(text: string, at: nat, literal: string)
  {
    at + |literal| <= |text| && text[at..at + |literal|] == literal
  }

  /** The width of the line terminator at `at`, or 0. */
  function Terminator(text: string, at: nat): (r: nat)
    ensures at + r <= |text| || r == 0
  {
    if at < |text| && text[at] == '\n' then 1
    else if at + 1 < |text| && text[at] == '\r' && text[at + 1] == '\n' then 2
    else 0
  }

  /** Where a match of `lines` that starts at `at` ends. */
  function MatchEnd(text: string, at: nat, lines: seq<string>): (r: Option<nat>)
    requires |lines| > 0
    ensures r.Some? ==> at <= r.value <= |text| && (|lines| > 1 ==> at < r.value)
    decreases |lines|
  {
    if !LiteralAt(text, at, lines[0]) then None
    else
      var next := at + |lines[0]|;
      if |lines| == 1 then Some(next)
      else
        var width := Terminator(text, next);
        if width == 0 then None else MatchEnd(text, next + width, lines[1..])
  }

  /** What a match is, said without a search: the lines with a terminator after each but the last. */
  ghost function JoinWith(lines: seq<string>, terminators: seq<string>): string
    requires |lines| == |terminators| + 1
  {
    if terminators == [] then lines[0]
    else lines[0] + (terminators[0] + JoinWith(lines[1..], terminators[1..]))
  }

  ghost predicate Terminators(ts: seq<string>)
  {
    forall i :: 0 <= i < |ts| ==> ts[i] == "\n" || ts[i] == "\r\n"
  }

  ghost predicate IsJoined(segment: string, lines: seq<string>)
    requires |lines| > 0
  {
    exists ts: seq<string> :: |ts| == |lines| - 1 && Terminators(ts) && segment == JoinWith(lines, ts)
  }

  lemma SliceSplits(text: string, from: nat, mid: nat, to: nat)
    requires from <= mid <= to <= |text|
    ensures text[from..to] == text[from..mid] + text[mid..to]
  {
  }

  lemma LiteralSplits(text: string, at: nat, a: string, b: string)
    requires LiteralAt(text, at, a + b)
    ensures LiteralAt(text, at, a) && LiteralAt(text, at + |a|, b)
  {
    assert text[at..at + |a|] == text[at..at + |a + b|][..|a|] == (a + b)[..|a|] == a;
    assert text[at + |a|..at + |a + b|] == text[at..at + |a + b|][|a|..] == (a + b)[|a|..] == b;
  }

  lemma TerminatorIs(text: string, at: nat, terminator: string)
    requires terminator == "\n" || terminator == "\r\n"
    requires LiteralAt(text, at, terminator)
    ensures Terminator(text, at) == |terminator|
  {
    var segment := text[at..at + |terminator|];
    assert segment[0] == text[at];
    if |terminator| == 2 {
      assert segment[1] == text[at + 1];
    }
  }

  /** A found match is the requested lines with LF or CRLF between them. */
  lemma {:induction false} MatchIsJoined(text: string, at: nat, lines: seq<string>) returns (ts: seq<string>)
    requires |lines| > 0 && MatchEnd(text, at, lines).Some?
    ensures |ts| == |lines| - 1 && Terminators(ts)
    ensures text[at..MatchEnd(text, at, lines).value] == JoinWith(lines, ts)
    decreases |lines|
  {
    if |lines| == 1 {
      ts := [];
    } else {
      var next := at + |lines[0]|;
      var mid := next + Terminator(text, next);
      var end := MatchEnd(text, at, lines).value;
      MatchUnfolds(text, at, lines);
      var rest := MatchIsJoined(text, mid, lines[1..]);
      ts := [text[next..mid]] + rest;
      assert ts[1..] == rest;
      SliceSplits(text, at, next, end);
      SliceSplits(text, next, mid, end);
    }
  }

  lemma MatchUnfolds(text: string, at: nat, lines: seq<string>)
    requires |lines| > 1 && MatchEnd(text, at, lines).Some?
    ensures var next := at + |lines[0]|;
            var mid := next + Terminator(text, next);
            && mid <= |text|
            && text[at..next] == lines[0]
            && (text[next..mid] == "\n" || text[next..mid] == "\r\n")
            && MatchEnd(text, mid, lines[1..]) == MatchEnd(text, at, lines)
  {
    var next := at + |lines[0]|;
    var mid := next + Terminator(text, next);
    assert mid == next + 1 ==> text[next..mid] == [text[next]];
    assert mid == next + 2 ==> text[next..mid] == [text[next], text[next + 1]];
  }

  /** The lines and terminators stand one after the other in the text, from `at` to `end`. */
  ghost predicate LaidOut(text: string, at: nat, end: nat, lines: seq<string>, ts: seq<string>)
    requires |lines| == |ts| + 1
    decreases |ts|
  {
    && LiteralAt(text, at, lines[0])
    && (if ts == [] then end == at + |lines[0]|
        else
          && LiteralAt(text, at + |lines[0]|, ts[0])
          && LaidOut(text, at + |lines[0]| + |ts[0]|, end, lines[1..], ts[1..]))
  }

  lemma {:induction false} LayOut(text: string, at: nat, lines: seq<string>, ts: seq<string>, whole: string)
    requires |lines| == |ts| + 1 && whole == JoinWith(lines, ts) && LiteralAt(text, at, whole)
    ensures LaidOut(text, at, at + |whole|, lines, ts)
    decreases |ts|
  {
    if ts != [] {
      var rest := JoinWith(lines[1..], ts[1..]);
      LiteralSplits(text, at, lines[0], ts[0] + rest);
      LiteralSplits(text, at + |lines[0]|, ts[0], rest);
      LayOut(text, at + |lines[0]| + |ts[0]|, lines[1..], ts[1..], rest);
    }
  }

  lemma {:induction false} LaidOutIsMatch(text: string, at: nat, end: nat, lines: seq<string>, ts: seq<string>)
    requires |lines| == |ts| + 1 && Terminators(ts) && LaidOut(text, at, end, lines, ts)
    ensures MatchEnd(text, at, lines) == Some(end)
    decreases |ts|
  {
    if ts != [] {
      TerminatorIs(text, at + |lines[0]|, ts[0]);
      LaidOutIsMatch(text, at + |lines[0]| + |ts[0]|, end, lines[1..], ts[1..]);
      MatchContinues(text, at, lines);
    }
  }

  /** Wherever the text holds the requested lines with LF or CRLF between them, the search sees it. */
  lemma JoinedIsMatch(text: string, at: nat, lines: seq<string>, ts: seq<string>)
    requires |lines| == |ts| + 1 && Terminators(ts)
    requires at + |JoinWith(lines, ts)| <= |text| && text[at..at + |JoinWith(lines, ts)|] == JoinWith(lines, ts)
    ensures MatchEnd(text, at, lines) == Some(at + |JoinWith(lines, ts)|)
  {
    LayOut(text, at, lines, ts, JoinWith(lines, ts));
    LaidOutIsMatch(text, at, at + |JoinWith(lines, ts)|, lines, ts);
  }

  lemma MatchContinues(text: string, at: nat, lines: seq<string>)
    requires |lines| > 1 && LiteralAt(text, at, lines[0]) && Terminator(text, at + |lines[0]|) != 0
    ensures var next := at + |lines[0]|;
            MatchEnd(text, at, lines) == MatchEnd(text, next + Terminator(text, next), lines[1..])
  {
  }

  /** All leftmost, non-overlapping matches from `from` on. */
  function FindAll(text: string, lines: seq<string>, from: nat): (r: seq<Span>)
    requires |lines| > 0 && lines != [""]
    decreases |text| + 1 - from
  {
    if from > |text| then []
    else match MatchEnd(text, from, lines)
      case Some(end) => [Span(from, end)] + FindAll(text, lines, end)
      case None => FindAll(text, lines, from + 1)
  }

  ghost predicate InOrder(spans: seq<Span>, from: nat, limit: nat)
  {
    && (forall i :: 0 <= i < |spans| ==> from <= spans[i].start <= spans[i].end <= limit)
    && (forall i, j :: 0 <= i < j < |spans| ==> spans[i].end <= spans[j].start)
  }

  ghost predicate Inside(position: nat, spans: seq<Span>)
  {
    exists i :: 0 <= i < |spans| && spans[i].start <= position < spans[i].end
  }

  ghost predicate Found(text: string, lines: seq<string>, span: Span)
    requires |lines| > 0
  {
    MatchEnd(text, span.start, lines) == Some(span.end)
  }

  lemma InOrderCons(span: Span, rest: seq<Span>, from: nat, limit: nat)
    requires from <= span.start <= span.end <= limit && InOrder(rest, span.end, limit)
    ensures InOrder([span] + rest, from, limit)
  {
  }

  lemma {:induction false} FindAllInOrder(text: string, lines: seq<string>, from: nat)
    requires |lines| > 0 && lines != [""]
    ensures InOrder(FindAll(text, lines, from), from, |text|)
    decreases |text| + 1 - from
  {
    if from <= |text| {
      match MatchEnd(text, from, lines)
      case Some(end) =>
        FindAllInOrder(text, lines, end);
        InOrderCons(Span(from, end), FindAll(text, lines, end), from, |text|);
      case None =>
        FindAllInOrder(text, lines, from + 1);
    }
  }

  lemma {:induction false} FindAllFinds(text: string, lines: seq<string>, from: nat)
    requires |lines| > 0 && lines != [""]
    ensures forall span :: span in FindAll(text, lines, from) ==> Found(text, lines, span)
    decreases |text| + 1 - from
  {
    if from <= |text| {
      match MatchEnd(text, from, lines)
      case Some(end) => FindAllFinds(text, lines, end);
      case None => FindAllFinds(text, lines, from + 1);
    }
  }

  /** No match starts outside the ones that are returned. */
  lemma {:induction false} FindAllMissesNone(text: string, lines: seq<string>, from: nat, p: nat)
    requires |lines| > 0 && lines != [""]
    requires from <= p && MatchEnd(text, p, lines).Some?
    ensures Inside(p, FindAll(text, lines, from))
    decreases |text| + 1 - from
  {
    var spans := FindAll(text, lines, from);
    match MatchEnd(text, from, lines)
    case Some(end) =>
      if p < end {
        assert spans[0].start <= p < spans[0].end;
      } else {
        FindAllMissesNone(text, lines, end, p);
        var i :| 0 <= i < |spans[1..]| && spans[1..][i].start <= p < spans[1..][i].end;
        assert spans[i + 1].start <= p < spans[i + 1].end;
      }
    case None =>
      FindAllMissesNone(text, lines, from + 1, p);
  }

  // ---------------------------------------------------------------------------
  // Fallback search: whole lines, compared without surrounding white space
  // ---------------------------------------------------------------------------

  /** A line of the text: `start..content` without its terminator, `start..end` with it. */
  datatype Line = Line(start: nat, content: nat, end: nat)

  function LinesFrom(text: string, from: nat): (r: seq<Line>)
    requires from <= |text|
    decreases |text| - from
  {
    if from == |text| then []
    else
      var newline := LineEnd(text, from);
      var content := if newline > from && text[newline - 1] == '\r' then newline - 1 else newline;
      var end := if newline < |text| then newline + 1 else newline;
      [Line(from, content, end)] + LinesFrom(text, end)
  }

  ghost predicate WithinText(text: string, line: Line)
  {
    line.start <= line.content <= line.end <= |text| && line.start < line.end
  }

  ghost predicate AllWithin(text: string, lines: seq<Line>)
  {
    forall i :: 0 <= i < |lines| ==> WithinText(text, lines[i])
  }

  /** Lines follow each other without gaps, cover the text, and all but the last are terminated. */
  ghost predicate Tiled(text: string, lines: seq<Line>, from: nat)
  {
    if lines == [] then from == |text|
    else
      && lines[0].start == from
      && WithinText(text, lines[0])
      && (lines[0].end < |text| ==> text[lines[0].end - 1] == '\n')
      && Tiled(text, lines[1..], lines[0].end)
  }

  lemma {:induction false} LinesAreTiled(text: string, from: nat)
    requires from <= |text|
    ensures Tiled(text, LinesFrom(text, from), from)
    decreases |text| - from
  {
    if from < |text| {
      LinesAreTiled(text, LinesFrom(text, from)[0].end);
    }
  }

  lemma {:induction false} TiledIsWithin(text: string, lines: seq<Line>, from: nat)
    requires Tiled(text, lines, from)
    ensures AllWithin(text, lines)
  {
    if lines != [] {
      TiledIsWithin(text, lines[1..], lines[0].end);
      assert forall i :: 0 < i < |lines| ==> lines[i] == lines[1..][i - 1];
    }
  }

  lemma {:induction false} TiledInOrder(text: string, lines: seq<Line>, from: nat, i: nat, j: nat)
    requires Tiled(text, lines, from) && i < j < |lines|
    ensures from <= lines[i].end <= lines[j].start
  {
    if i > 0 {
      TiledInOrder(text, lines[1..], lines[0].end, i - 1, j - 1);
    } else if j > 1 {
      TiledInOrder(text, lines[1..], lines[0].end, 0, j - 1);
      assert WithinText(text, lines[1]);
    }
  }

  /** What the caller asked for, prepared for the fallback. */
  datatype Request = Request(stripped: seq<string>, terminal: bool)

  function Stripped(lines: seq<string>): (r: seq<string>)
    ensures |r| == |lines| && forall i :: 0 <= i < |r| ==> r[i] == Strip(lines[i])
  {
    seq(|lines|, i requires 0 <= i < |lines| => Strip(lines[i]))
  }

  function RequestOf(oldText: string): Request
  {
    var requested := Split(oldText);
    if requested[|requested| - 1] == "" then Request(Stripped(requested[..|requested| - 1]), true)
    else Request(Stripped(requested), false)
  }

  /** The lines of a text as the fallback compares them. */
  datatype Page = Page(lines: seq<Line>, normalized: seq<string>, terminated: seq<bool>)

  ghost predicate Aligned(page: Page)
  {
    |page.normalized| == |page.lines| && |page.terminated| == |page.lines|
  }

  /** `page` holds the lines of `text`, stripped, and says which are terminated. */
  ghost predicate Reads(text: string, page: Page)
  {
    && Aligned(page) && Tiled(text, page.lines, 0) && AllWithin(text, page.lines)
    && forall i :: 0 <= i < |page.lines| ==>
         && WithinText(text, page.lines[i])
         && page.normalized[i] == Strip(text[page.lines[i].start..page.lines[i].content])
         && page.terminated[i] == (text[page.lines[i].end - 1] == '\n')
  }

  function PageOf(text: string): (page: Page)
    ensures Reads(text, page)
  {
    var lines := LinesFrom(text, 0);
    LinesAreTiled(text, 0);
    TiledIsWithin(text, lines, 0);
    Page(lines,
         seq(|lines|, i requires 0 <= i < |lines| => assert WithinText(text, lines[i]); Strip(text[lines[i].start..lines[i].content])),
         seq(|lines|, i requires 0 <= i < |lines| => assert WithinText(text, lines[i]); text[lines[i].end - 1] == '\n'))
  }

  /** The `|request.stripped|` lines from line `first` on are what was asked for. */
  predicate WindowAt(page: Page, request: Request, first: nat)
    requires Aligned(page)
  {
    && 0 < |request.stripped|
    && first + |request.stripped| <= |page.lines|
    && page.normalized[first..first + |request.stripped|] == request.stripped
    && (request.terminal ==> page.terminated[first + |request.stripped| - 1])
  }

  function WindowSpan(page: Page, request: Request, first: nat): Span
    requires 0 < |request.stripped| && first + |request.stripped| <= |page.lines|
  {
    var last := page.lines[first + |request.stripped| - 1];
    Span(page.lines[first].start, if request.terminal then last.end else last.content)
  }

  /** The first lines of all windows among the lines before `limit`, in order. */
  ghost function Windows(page: Page, request: Request, limit: nat): (r: seq<nat>)
    requires Aligned(page)
    ensures forall i :: 0 <= i < |r| ==> r[i] < limit && r[i] + |request.stripped| <= |page.lines|
  {
    if limit == 0 then []
    else
      var before := Windows(page, request, limit - 1);
      if WindowAt(page, request, limit - 1) then before + [limit - 1] else before
  }

  /** Exactly the windows are listed... */
  lemma {:induction false} WindowListed(page: Page, request: Request, limit: nat, w: nat)
    requires Aligned(page)
    ensures w in Windows(page, request, limit) <==> w < limit && WindowAt(page, request, w)
  {
    if limit > 0 {
      WindowListed(page, request, limit - 1, w);
    }
  }

  ghost predicate Increasing(s: seq<nat>)
  {
    forall i, j :: 0 <= i < j < |s| ==> s[i] < s[j]
  }

  /** ...each once, in order. */
  lemma {:induction false} WindowsInOrder(page: Page, request: Request, limit: nat)
    requires Aligned(page)
    ensures Increasing(Windows(page, request, limit))
  {
    if limit > 0 {
      WindowsInOrder(page, request, limit - 1);
      AppendIncreases(Windows(page, request, limit - 1), limit - 1);
    }
  }

  lemma AppendIncreases(s: seq<nat>, last: nat)
    requires Increasing(s) && forall i :: 0 <= i < |s| ==> s[i] < last
    ensures Increasing(s + [last])
  {
  }

  ghost function WindowSpans(page: Page, request: Request, limit: nat): (r: seq<Span>)
    requires Aligned(page) && 0 < |request.stripped|
    ensures |r| == |Windows(page, request, limit)|
  {
    var windows := Windows(page, request, limit);
    seq(|windows|, i requires 0 <= i < |windows| => WindowSpan(page, request, windows[i]))
  }

  predicate AllBlank(request: Request)
  {
    forall i :: 0 <= i < |request.stripped| ==> request.stripped[i] == ""
  }

  /** All fallback spans; a request whose lines are all blank has none. */
  ghost function Fallback(text: string, oldText: string): seq<Span>
  {
    var request := RequestOf(oldText);
    if AllBlank(request) then [] else WindowSpans(PageOf(text), request, |PageOf(text).lines|)
  }

  method WhitespaceSpans(text: string, oldText: string) returns (spans: seq<Span>)
    ensures spans == Fallback(text, oldText)
  {
    var request := RequestOf(oldText);
    if AllBlank(request) {
      return [];
    }
    spans := CollectWindows(PageOf(text), request);
  }

  method CollectWindows(page: Page, request: Request) returns (spans: seq<Span>)
    requires Aligned(page) && 0 < |request.stripped|
    ensures spans == WindowSpans(page, request, |page.lines|)
  {
    spans := [];
    var limit := 0;
    while limit + |request.stripped| <= |page.lines|
      invariant 0 <= limit <= |page.lines|
      invariant spans == WindowSpans(page, request, limit)
    {
      if WindowAt(page, request, limit) {
        spans := spans + [WindowSpan(page, request, limit)];
      }
      limit := limit + 1;
    }
    NoMoreWindows(page, request, limit, |page.lines|);
  }

  lemma {:induction false} NoMoreWindows(page: Page, request: Request, from: nat, to: nat)
    requires Aligned(page) && 0 < |request.stripped|
    requires from <= to && from + |request.stripped| > |page.lines|
    ensures WindowSpans(page, request, to) == WindowSpans(page, request, from)
  {
    if from < to {
      NoMoreWindows(page, request, from, to - 1);
    }
  }

  /** Successive spans of which the second starts before the first ends. */
  predicate Overlapping(spans: seq<Span>)
  {
    exists i :: 0 <= i < |spans| - 1 && spans[i + 1].start < spans[i].end
  }

  /** When two windows share a line, their spans overlap exactly when they share more than one
      line, or the request takes line terminators, or the shared line is not empty. */
  lemma SharedLinesOverlap(text: string, page: Page, request: Request, first: nat, second: nat)
    requires Aligned(page) && Tiled(text, page.lines, 0) && AllWithin(text, page.lines)
    requires WindowAt(page, request, first) && WindowAt(page, request, second)
    requires first < second
    ensures var last := first + |request.stripped| - 1;
            && (WindowSpan(page, request, second).start < WindowSpan(page, request, first).end
                <==> second < last
                     || (second == last && (request.terminal || page.lines[last].start < page.lines[last].content)))
  {
    var lines := page.lines;
    var last := first + |request.stripped| - 1;
    assert WithinText(text, lines[last]) && WithinText(text, lines[second]);
    if second < last {
      TiledInOrder(text, lines, 0, second, last);
    } else if second > last {
      TiledInOrder(text, lines, 0, last, second);
    }
  }

  // ---------------------------------------------------------------------------
  // The splice
  // ---------------------------------------------------------------------------

  /** Where the line ending in use at a match is looked up: in the match, else behind its start,
      else in the text. */
  function SampleAt(text: string, span: Span): string
    requires span.start <= span.end <= |text|
  {
    var matched := text[span.start..span.end];
    var sample := if '\n' in matched then matched else text[span.start..];
    if '\n' in sample then sample else text
  }

  function EndingAt(text: string, span: Span): string
    requires span.start <= span.end <= |text|
  {
    var sample := SampleAt(text, span);
    var newline := LineEnd(sample, 0);
    if 0 < newline < |sample| && sample[newline - 1] == '\r' then "\r\n" else "\n"
  }

  function Replacement(text: string, span: Span, newText: string): string
    requires span.start <= span.end <= |text|
  {
    ReplaceNewlines(Normalize(newText), EndingAt(text, span))
  }

  function Replacements(text: string, spans: seq<Span>, newText: string): (r: seq<string>)
    requires InOrder(spans, 0, |text|)
    ensures |r| == |spans|
  {
    seq(|spans|, i requires 0 <= i < |spans| => Replacement(text, spans[i], newText))
  }

  ghost function Matched(text: string, spans: seq<Span>): (r: seq<string>)
    requires InOrder(spans, 0, |text|)
    ensures |r| == |spans|
  {
    seq(|spans|, i requires 0 <= i < |spans| => text[spans[i].start..spans[i].end])
  }

  /** The text outside the spans, one piece more than there are spans. */
  ghost function Untouched(text: string, spans: seq<Span>, cursor: nat): (r: seq<string>)
    requires cursor <= |text| && InOrder(spans, cursor, |text|)
    ensures |r| == |spans| + 1
  {
    if spans == [] then [text[cursor..]]
    else [text[cursor..spans[0].start]] + Untouched(text, spans[1..], spans[0].end)
  }

  ghost function Weave(pieces: seq<string>, fills: seq<string>): string
    requires |pieces| == |fills| + 1
  {
    if fills == [] then pieces[0]
    else pieces[0] + fills[0] + Weave(pieces[1..], fills[1..])
  }

  /** The text with every span replaced, from `cursor` on. */
  ghost function Spliced(text: string, spans: seq<Span>, cursor: nat, newText: string): string
    requires cursor <= |text| && InOrder(spans, cursor, |text|)
    decreases |spans|
  {
    if spans == [] then text[cursor..]
    else
      text[cursor..spans[0].start]
      + (Replacement(text, spans[0], newText) + Spliced(text, spans[1..], spans[0].end, newText))
  }

  lemma TailInOrder(spans: seq<Span>, from: nat, limit: nat)
    requires InOrder(spans, from, limit) && spans != []
    ensures InOrder(spans[1..], spans[0].end, limit)
  {
    assert forall i :: 0 <= i < |spans| - 1 ==> spans[1..][i] == spans[i + 1];
  }

  lemma WeaveCons(gap: string, fill: string, pieces: seq<string>, fills: seq<string>)
    requires |pieces| == |fills| + 1
    ensures Weave([gap] + pieces, [fill] + fills) == gap + fill + Weave(pieces, fills)
  {
    assert ([gap] + pieces)[1..] == pieces && ([fill] + fills)[1..] == fills;
  }

  /** The output is the untouched pieces with a replacement in each gap... */
  lemma {:induction false} SplicedIsWoven(text: string, spans: seq<Span>, cursor: nat, newText: string)
    requires cursor <= |text| && InOrder(spans, cursor, |text|)
    ensures Spliced(text, spans, cursor, newText)
         == Weave(Untouched(text, spans, cursor), Replacements(text, spans, newText))
    decreases |spans|
  {
    if spans != [] {
      TailInOrder(spans, cursor, |text|);
      SplicedIsWoven(text, spans[1..], spans[0].end, newText);
      var gap, fill := text[cursor..spans[0].start], Replacement(text, spans[0], newText);
      var pieces, fills := Untouched(text, spans[1..], spans[0].end), Replacements(text, spans[1..], newText);
      assert Replacements(text, spans, newText) == [fill] + fills;
      WeaveCons(gap, fill, pieces, fills);
      Associative(gap, fill, Weave(pieces, fills));
    }
  }

  /** ...and the input is the same pieces with the matched text in each gap. */
  lemma {:induction false} InputIsWoven(text: string, spans: seq<Span>, cursor: nat)
    requires cursor <= |text| && InOrder(spans, cursor, |text|)
    ensures text[cursor..] == Weave(Untouched(text, spans, cursor), Matched(text, spans))
    decreases |spans|
  {
    if spans != [] {
      TailInOrder(spans, cursor, |text|);
      var start, end := spans[0].start, spans[0].end;
      InputIsWoven(text, spans[1..], end);
      var pieces, fills := Untouched(text, spans[1..], end), Matched(text, spans[1..]);
      assert Matched(text, spans) == [text[start..end]] + fills;
      WeaveCons(text[cursor..start], text[start..end], pieces, fills);
      SliceSplits(text, cursor, start, |text|);
      SliceSplits(text, start, end, |text|);
      Associative(text[cursor..start], text[start..end], text[end..]);
    }
  }

  // ---------------------------------------------------------------------------
  // The whole operation
  // ---------------------------------------------------------------------------

  function ExactLines(oldText: string): (r: seq<string>)
    ensures |r| > 0
  {
    Split(Normalize(oldText))
  }

  lemma ExactLinesNotBlank(oldText: string)
    requires oldText != ""
    ensures ExactLines(oldText) != [""]
  {
    var normalized := Normalize(oldText);
    assert normalized != "";
    if LineEnd(normalized, 0) == |normalized| {
      assert normalized[0..] == normalized;
    }
  }

  /** The spans to replace: the exact matches, or the fallback spans when there are none. */
  ghost function Candidates(text: string, oldText: string): (Mode, seq<Span>)
    requires oldText != ""
  {
    ExactLinesNotBlank(oldText);
    var exact := FindAll(text, ExactLines(oldText), 0);
    if exact != [] then (Exact, exact) else (LineWhitespace, Fallback(text, Normalize(oldText)))
  }

  ghost predicate Bounded(spans: seq<Span>, limit: nat)
  {
    forall i :: 0 <= i < |spans| ==> spans[i].start <= spans[i].end <= limit
  }

  lemma FallbackIsBounded(text: string, oldText: string)
    ensures Bounded(Fallback(text, oldText), |text|)
  {
    var request := RequestOf(oldText);
    var page := PageOf(text);
    if !AllBlank(request) {
      var windows := Windows(page, request, |page.lines|);
      forall i | 0 <= i < |windows|
        ensures WindowSpan(page, request, windows[i]).start <= WindowSpan(page, request, windows[i]).end <= |text|
      {
        WindowIsBounded(text, page, request, windows[i]);
      }
    }
  }

  lemma WindowIsBounded(text: string, page: Page, request: Request, first: nat)
    requires Tiled(text, page.lines, 0) && AllWithin(text, page.lines)
    requires 0 < |request.stripped| && first + |request.stripped| <= |page.lines|
    ensures WindowSpan(page, request, first).start <= WindowSpan(page, request, first).end <= |text|
  {
    var last := first + |request.stripped| - 1;
    assert WithinText(text, page.lines[first]) && WithinText(text, page.lines[last]);
    if first < last {
      TiledInOrder(text, page.lines, 0, first, last);
    }
  }

  lemma CandidatesAreBounded(text: string, oldText: string)
    requires oldText != ""
    ensures Bounded(Candidates(text, oldText).1, |text|)
  {
    ExactLinesNotBlank(oldText);
    FindAllInOrder(text, ExactLines(oldText), 0);
    FallbackIsBounded(text, Normalize(oldText));
  }

  lemma {:induction false} SeparateIsInOrder(spans: seq<Span>, limit: nat)
    requires Bounded(spans, limit) && !Overlapping(spans)
    ensures InOrder(spans, 0, limit)
  {
    if |spans| > 1 {
      var init := spans[..|spans| - 1];
      assert !Overlapping(init) by {
        assert forall i :: 0 <= i < |init| ==> init[i] == spans[i];
      }
      SeparateIsInOrder(init, limit);
      var last := |spans| - 1;
      forall i | 0 <= i < last
        ensures spans[i].end <= spans[last].start
      {
        assert spans[last - 1].end <= spans[last].start;
        if i < last - 1 {
          assert init[i].end <= init[last - 1].start;
        }
      }
      assert forall i :: 0 <= i < last ==> init[i] == spans[i];
    }
  }

  /** The outcome of a patch request as a function of its arguments. */
  ghost function Prepared(text: string, oldText: string, newText: string, replaceAll: bool): Result<Patch, PatchError>
  {
    if oldText == "" then Err(EmptyOldText)
    else
      var (mode, spans) := Candidates(text, oldText);
      if spans == [] || (|spans| != 1 && !replaceAll) then Err(NotUnique(|spans|))
      else if Overlapping(spans) then Err(Overlap)
      else
        CandidatesAreBounded(text, oldText);
        SeparateIsInOrder(spans, |text|);
        Ok(Patch(Spliced(text, spans, 0, newText), |spans|, mode))
  }

  method PrepareTextPatch(text: string, oldText: string, newText: string, replaceAll: bool)
    returns (result: Result<Patch, PatchError>)
    ensures result == Prepared(text, oldText, newText, replaceAll)
  {
    if oldText == "" {
      return Err(EmptyOldText);
    }
    ExactLinesNotBlank(oldText);
    var mode, spans := Exact, FindAll(text, ExactLines(oldText), 0);
    if spans == [] {
      mode := LineWhitespace;
      spans := WhitespaceSpans(text, Normalize(oldText));
    }
    if spans == [] || (|spans| != 1 && !replaceAll) {
      return Err(NotUnique(|spans|));
    }
    if Overlapping(spans) {
      return Err(Overlap);
    }
    CandidatesAreBounded(text, oldText);
    SeparateIsInOrder(spans, |text|);
    var content := Splice(text, spans, newText);
    return Ok(Patch(content, |spans|, mode));
  }

  ghost predicate SpliceReached(text: string, spans: seq<Span>, newText: string, i: int, cursor: nat, content: string)
    requires InOrder(spans, 0, |text|)
  {
    && 0 <= i <= |spans| && cursor <= |text| && InOrder(spans[i..], cursor, |text|)
    && content + Spliced(text, spans[i..], cursor, newText) == Spliced(text, spans, 0, newText)
  }

  lemma SpliceAdvances(text: string, spans: seq<Span>, newText: string, i: nat, cursor: nat, content: string,
                       cursor': nat, content': string)
    requires InOrder(spans, 0, |text|) && i < |spans|
    requires SpliceReached(text, spans, newText, i, cursor, content)
    requires cursor' == spans[i].end
    requires content' == content + text[cursor..spans[i].start] + Replacement(text, spans[i], newText)
    ensures SpliceReached(text, spans, newText, i + 1, cursor', content')
  {
    var rest := spans[i..];
    assert rest[1..] == spans[i + 1..] && rest[0] == spans[i];
    TailInOrder(rest, cursor, |text|);
    var gap, fill := text[cursor..spans[i].start], Replacement(text, spans[i], newText);
    var later := Spliced(text, rest[1..], cursor', newText);
    Associative(content, gap, fill + later);
    Associative(content + gap, fill, later);
  }

  method Splice(text: string, spans: seq<Span>, newText: string) returns (content: string)
    requires InOrder(spans, 0, |text|)
    ensures content == Spliced(text, spans, 0, newText)
  {
    var cursor: nat := 0;
    content := "";
    assert spans[0..] == spans;
    for i := 0 to |spans|
      invariant SpliceReached(text, spans, newText, i, cursor, content)
    {
      assert spans[i..][0] == spans[i];
      ghost var cursor0, content0 := cursor, content;
      content := content + text[cursor..spans[i].start] + Replacement(text, spans[i], newText);
      cursor := spans[i].end;
      SpliceAdvances(text, spans, newText, i, cursor0, content0, cursor, content);
    }
    content := content + text[cursor..];
  }

  // ---------------------------------------------------------------------------
  // Main results
  // ---------------------------------------------------------------------------

  /** A successful patch: the text is `k` ordered, disjoint matches between `k + 1` untouched
      pieces, the output is the same pieces with every match replaced, and `k` is 1 unless all
      occurrences were asked for. */
  lemma OnlyMatchesChange(text: string, oldText: string, newText: string, replaceAll: bool)
    requires Prepared(text, oldText, newText, replaceAll).Ok?
    ensures var patch := Prepared(text, oldText, newText, replaceAll).value;
            var spans := Candidates(text, oldText).1;
            && InOrder(spans, 0, |text|)
            && patch.replacements == |spans| > 0
            && (|spans| == 1 || replaceAll)
            && text == Weave(Untouched(text, spans, 0), Matched(text, spans))
            && patch.content == Weave(Untouched(text, spans, 0), Replacements(text, spans, newText))
  {
    var spans := Candidates(text, oldText).1;
    CandidatesAreBounded(text, oldText);
    SeparateIsInOrder(spans, |text|);
    InputIsWoven(text, spans, 0);
    assert text[0..] == text;
    SplicedIsWoven(text, spans, 0, newText);
  }

  ghost predicate AllJoined(text: string, spans: seq<Span>, lines: seq<string>)
    requires |lines| > 0
  {
    forall i :: 0 <= i < |spans| ==>
      spans[i].start <= spans[i].end <= |text| && IsJoined(text[spans[i].start..spans[i].end], lines)
  }

  /** Exact mode: the matches are disjoint, and each is the requested lines with LF or CRLF
      between them... */
  lemma ExactMatchesAreRight(text: string, oldText: string)
    requires oldText != "" && Candidates(text, oldText).0 == Exact
    ensures InOrder(Candidates(text, oldText).1, 0, |text|)
    ensures AllJoined(text, Candidates(text, oldText).1, ExactLines(oldText))
  {
    var lines, spans := ExactLines(oldText), Candidates(text, oldText).1;
    ExactLinesNotBlank(oldText);
    FindAllInOrder(text, lines, 0);
    FindAllFinds(text, lines, 0);
    forall i | 0 <= i < |spans|
      ensures IsJoined(text[spans[i].start..spans[i].end], lines)
    {
      assert Found(text, lines, spans[i]);
      var ts := MatchIsJoined(text, spans[i].start, lines);
    }
  }

  /** ...and no occurrence of them starts outside the matches. */
  lemma ExactMissesNone(text: string, oldText: string, p: nat, ts: seq<string>)
    requires oldText != "" && |ts| + 1 == |ExactLines(oldText)| && Terminators(ts)
    requires var joined := JoinWith(ExactLines(oldText), ts);
             p + |joined| <= |text| && text[p..p + |joined|] == joined
    ensures Candidates(text, oldText).0 == Exact && Inside(p, Candidates(text, oldText).1)
  {
    ExactLinesNotBlank(oldText);
    JoinedIsMatch(text, p, ExactLines(oldText), ts);
    FindAllMissesNone(text, ExactLines(oldText), 0, p);
  }

  /** The stripped lines under a window are the requested ones. */
  ghost predicate LinesAgree(text: string, page: Page, request: Request, first: nat)
    requires Reads(text, page)
  {
    && first + |request.stripped| <= |page.lines|
    && forall k :: first <= k < first + |request.stripped| ==>
         && WithinText(text, page.lines[k])
         && Strip(text[page.lines[k].start..page.lines[k].content]) == request.stripped[k - first]
  }

  lemma WindowLinesAgree(text: string, page: Page, request: Request, first: nat)
    requires Reads(text, page) && WindowAt(page, request, first)
    ensures LinesAgree(text, page, request, first)
  {
    forall k | first <= k < first + |request.stripped|
      ensures page.normalized[k] == request.stripped[k - first]
    {
      assert page.normalized[first..first + |request.stripped|][k - first] == page.normalized[k];
    }
  }

  ghost predicate SpanOfWindow(text: string, page: Page, request: Request, first: nat, span: Span)
    requires Reads(text, page)
  {
    && 0 < |request.stripped|
    && LinesAgree(text, page, request, first)
    && span == WindowSpan(page, request, first)
  }

  lemma SpansAreOfWindows(text: string, page: Page, request: Request, limit: nat, span: Span)
    requires Reads(text, page) && 0 < |request.stripped|
    requires span in WindowSpans(page, request, limit)
    ensures exists first: nat :: SpanOfWindow(text, page, request, first, span)
  {
    var windows := Windows(page, request, limit);
    var i :| 0 <= i < |windows| && span == WindowSpan(page, request, windows[i]);
    WindowListed(page, request, limit, windows[i]);
    WindowLinesAgree(text, page, request, windows[i]);
    assert SpanOfWindow(text, page, request, windows[i], span);
  }

  /** Fallback mode is used only when nothing matches exactly, and each span covers whole lines
      that equal the requested ones once both are stripped. */
  lemma FallbackMatchesAreRight(text: string, oldText: string, span: Span)
    requires oldText != "" && Candidates(text, oldText).0 == LineWhitespace
    requires span in Candidates(text, oldText).1
    ensures FindAll(text, ExactLines(oldText), 0) == []
    ensures exists first: nat :: SpanOfWindow(text, PageOf(text), RequestOf(Normalize(oldText)), first, span)
  {
    SpansAreOfWindows(text, PageOf(text), RequestOf(Normalize(oldText)), |PageOf(text).lines|, span);
  }

  // ---------------------------------------------------------------------------
  // Requested lines, and the lines of the text
  // ---------------------------------------------------------------------------

  lemma {:induction false} SplitFromJoins(text: string, from: nat)
    requires from <= |text|
    ensures Join(SplitFrom(text, from), "\n") == text[from..]
    decreases |text| - from
  {
    var end := LineEnd(text, from);
    if end < |text| {
      SplitFromJoins(text, end + 1);
      assert text[from..] == text[from..end] + "\n" + text[end + 1..];
    }
  }

  /** The lines asked for in the exact search are the normalized request, cut at its line feeds. */
  lemma ExactLinesJoin(oldText: string)
    ensures Join(ExactLines(oldText), "\n") == Normalize(oldText)
    ensures forall i :: 0 <= i < |ExactLines(oldText)| ==> '\n' !in ExactLines(oldText)[i]
  {
    SplitFromJoins(Normalize(oldText), 0);
  }

  lemma {:induction false} JoinEmptyLast(lines: seq<string>)
    requires |lines| > 1 && lines[|lines| - 1] == ""
    ensures Join(lines, "\n") == Join(lines[..|lines| - 1], "\n") + "\n"
    decreases |lines|
  {
    if |lines| > 2 {
      JoinEmptyLast(lines[1..]);
      assert lines[1..][..|lines| - 2] == lines[..|lines| - 1][1..];
    }
  }

  /** The lines asked for in the fallback are those of the request, stripped; the request ends in a
      line feed exactly if its last line must be terminated. */
  lemma RequestMeans(oldText: string) returns (pieces: seq<string>)
    requires oldText != ""
    ensures var request := RequestOf(oldText);
            && pieces != [] && request.stripped == Stripped(pieces)
            && oldText == Join(pieces, "\n") + (if request.terminal then "\n" else "")
            && (request.terminal <==> oldText[|oldText| - 1] == '\n')
    ensures forall i :: 0 <= i < |pieces| ==> '\n' !in pieces[i]
  {
    var all := Split(oldText);
    SplitFromJoins(oldText, 0);
    assert oldText[0..] == oldText;
    if all[|all| - 1] == "" {
      pieces := all[..|all| - 1];
      JoinEmptyLast(all);
    } else {
      pieces := all;
      LastOfJoin(all);
    }
  }

  lemma {:induction false} LastOfJoin(lines: seq<string>)
    requires lines != [] && lines[|lines| - 1] != "" && forall i :: 0 <= i < |lines| ==> '\n' !in lines[i]
    ensures Join(lines, "\n") != "" && Join(lines, "\n")[|Join(lines, "\n")| - 1] != '\n'
    decreases |lines|
  {
    if |lines| > 1 {
      LastOfJoin(lines[1..]);
    }
  }

  /** A line of the text, without line feeds inside, with its terminator unless it is the last. */
  ghost predicate IsLine(text: string, line: Line)
  {
    && line.start <= line.content <= line.end <= |text| && line.start < line.end
    && (forall i :: line.start <= i < line.content ==> text[i] != '\n')
    && text[line.content..line.end] in {"", "\r", "\n", "\r\n"}
    && (text[line.content..line.end] in {"", "\n"} && line.start < line.content ==> text[line.content - 1] != '\r')
    && (text[line.content..line.end] in {"", "\r"} ==> line.end == |text|)
  }

  lemma FirstLineIs(text: string, from: nat)
    requires from < |text|
    ensures IsLine(text, LinesFrom(text, from)[0]) && LinesFrom(text, from)[0].start == from
  {
    var line := LinesFrom(text, from)[0];
    var newline := LineEnd(text, from);
    hide LineEnd, LinesFrom;
    var terminator := text[line.content..line.end];
    if line.content == newline {
      assert terminator == if newline < |text| then [text[newline]] else [];
    } else {
      assert terminator == if newline < |text| then [text[newline - 1], text[newline]] else [text[newline - 1]];
    }
  }

  lemma {:induction false} LinesAre(text: string, from: nat)
    requires from <= |text|
    ensures forall i :: 0 <= i < |LinesFrom(text, from)| ==> IsLine(text, LinesFrom(text, from)[i])
    decreases |text| - from
  {
    if from < |text| {
      FirstLineIs(text, from);
      LinesAre(text, LinesFrom(text, from)[0].end);
    }
  }

  /** The fallback compares the lines of the text, all of them and in order. */
  lemma PageIs(text: string)
    ensures Reads(text, PageOf(text)) && forall i :: 0 <= i < |PageOf(text).lines| ==> IsLine(text, PageOf(text).lines[i])
  {
    LinesAre(text, 0);
  }

  /** From line `first` on the text agrees with the request, and the span covers just these lines: with
      the last terminator if the request has one, and then there must be one. */
  ghost predicate CoversRequest(text: string, page: Page, request: Request, first: nat, span: Span)
    requires Reads(text, page)
  {
    && 0 < |request.stripped|
    && LinesAgree(text, page, request, first)
    && var last := page.lines[first + |request.stripped| - 1];
       && span.start == page.lines[first].start
       && span.end == (if request.terminal then last.end else last.content)
       && (request.terminal ==> last.start < last.end <= |text| && text[last.end - 1] == '\n')
  }

  ghost predicate SomeNotBlank(request: Request)
  {
    exists k :: 0 <= k < |request.stripped| && request.stripped[k] != ""
  }

  lemma ListedCovers(text: string, page: Page, request: Request, span: Span)
    requires Reads(text, page) && 0 < |request.stripped|
    requires span in WindowSpans(page, request, |page.lines|)
    ensures exists first: nat :: CoversRequest(text, page, request, first, span)
  {
    var windows := Windows(page, request, |page.lines|);
    var i :| 0 <= i < |windows| && span == WindowSpan(page, request, windows[i]);
    WindowListed(page, request, |page.lines|, windows[i]);
    hide Windows, Tiled;
    WindowLinesAgree(text, page, request, windows[i]);
    assert CoversRequest(text, page, request, windows[i], span);
  }

  lemma CoveringIsListed(text: string, page: Page, request: Request, first: nat, span: Span)
    requires Reads(text, page) && CoversRequest(text, page, request, first, span)
    ensures span in WindowSpans(page, request, |page.lines|)
  {
    AgreeingIsWindow(text, page, request, first);
    WindowListed(page, request, |page.lines|, first);
    assert span == WindowSpan(page, request, first);
    var windows := Windows(page, request, |page.lines|);
    hide Windows, Tiled, WindowSpan;
    var i :| 0 <= i < |windows| && windows[i] == first;
    assert WindowSpans(page, request, |page.lines|)[i] == span;
  }

  /** The fallback finds exactly the runs of lines that agree, provided some requested line is not blank. */
  lemma FallbackIs(text: string, oldText: string, span: Span)
    ensures span in Fallback(text, oldText)
            <==> SomeNotBlank(RequestOf(oldText))
                 && exists first: nat :: CoversRequest(text, PageOf(text), RequestOf(oldText), first, span)
  {
    var page, request := PageOf(text), RequestOf(oldText);
    assert AllBlank(request) <==> !SomeNotBlank(request);
    hide AllBlank, SomeNotBlank, PageOf, RequestOf, CoversRequest, WindowSpans;
    if span in Fallback(text, oldText) {
      ListedCovers(text, page, request, span);
    }
    if SomeNotBlank(request) {
      if first: nat :| CoversRequest(text, page, request, first, span) {
        CoveringIsListed(text, page, request, first, span);
      }
    }
  }

  lemma AgreeingIsWindow(text: string, page: Page, request: Request, first: nat)
    requires Reads(text, page) && 0 < |request.stripped| && LinesAgree(text, page, request, first)
    requires request.terminal ==> text[page.lines[first + |request.stripped| - 1].end - 1] == '\n'
    ensures WindowAt(page, request, first)
  {
    var slice := page.normalized[first..first + |request.stripped|];
    forall k | 0 <= k < |slice| ensures slice[k] == request.stripped[k] {
      assert page.normalized[first + k] == request.stripped[k];
    }
  }

  // ---------------------------------------------------------------------------
  // Line endings
  // ---------------------------------------------------------------------------

  predicate HasCrLf(s: string) { exists i :: 0 <= i < |s| - 1 && s[i] == '\r' && s[i + 1] == '\n' }

  /** Normalizing shortens a text that has a CRLF, and only that. */
  lemma {:induction false} NormalizeShortens(s: string)
    ensures |Normalize(s)| <= |s|
    ensures HasCrLf(s) ==> |Normalize(s)| < |s|
    ensures !HasCrLf(s) ==> Normalize(s) == s
    decreases |s|
  {
    if |s| > 1 && s[0] == '\r' && s[1] == '\n' {
      NormalizeShortens(s[2..]);
    } else if s != "" {
      NormalizeShortens(s[1..]);
      if HasCrLf(s) {
        var i :| 0 <= i < |s| - 1 && s[i] == '\r' && s[i + 1] == '\n';
        assert s[1..][i - 1] == s[i] && s[1..][i] == s[i + 1];
      } else {
        assert forall i :: 0 <= i < |s[1..]| ==> s[1..][i] == s[i + 1];
      }
    }
  }

  lemma {:induction false} LfStays(s: string)
    ensures ReplaceNewlines(s, "\n") == s
  {
    if s != "" {
      LfStays(s[1..]);
    }
  }

  lemma NormalizeAfter(head: string, tail: string)
    requires head == "\r\n" || (|head| == 1 && (head == "\r" && tail != "" ==> tail[0] != '\n'))
    ensures Normalize(head + tail) == (if head == "\r\n" then "\n" else head) + Normalize(tail)
  {
    assert (head + tail)[|head|..] == tail;
  }

  lemma {:induction false} CrLfNormalizesBack(s: string)
    ensures Normalize(ReplaceNewlines(s, "\r\n")) == s
  {
    if s != "" {
      CrLfNormalizesBack(s[1..]);
      var tail := ReplaceNewlines(s[1..], "\r\n");
      assert tail != "" ==> tail[0] != '\n';
      NormalizeAfter(if s[0] == '\n' then "\r\n" else [s[0]], tail);
    }
  }

  /** Inserted text differs from the requested one only in its line terminators, exactly if these
      are CRLF or the requested text has no CRLF left once it is normalized. */
  lemma ReplacementNormalizesBack(text: string, span: Span, newText: string)
    requires span.start <= span.end <= |text|
    ensures Normalize(Replacement(text, span, newText)) == Normalize(newText)
            <==> EndingAt(text, span) == "\r\n" || !HasCrLf(Normalize(newText))
  {
    LfStays(Normalize(newText));
    NormalizeShortens(Normalize(newText));
    CrLfNormalizesBack(Normalize(newText));
    hide Normalize, ReplaceNewlines, HasCrLf;
  }

  ghost predicate NoLineFeed(text: string, from: nat, to: nat)
  {
    forall i :: from <= i < to && i < |text| ==> text[i] != '\n'
  }

  ghost predicate IsFirstLineFeed(text: string, from: nat, p: nat)
  {
    from <= p < |text| && text[p] == '\n' && NoLineFeed(text, from, p)
  }

  /** The line feed at `p` decides the line ending at a match: it is the first one in the match, else
      the first one behind its start, else the first one of the text. The search began at `from`. */
  ghost predicate Decides(text: string, span: Span, from: nat, p: nat)
  {
    && IsFirstLineFeed(text, from, p)
    && (from == span.start || (from == 0 && NoLineFeed(text, span.start, |text|)))
  }

  /** Every line break of `s` is a CRLF. */
  ghost predicate OnlyCrLf(s: string) { forall i :: 0 <= i < |s| && s[i] == '\n' ==> i > 0 && s[i - 1] == '\r' }

  lemma SampleBegins(text: string, span: Span, from: nat, p: nat) returns (to: nat)
    requires span.start <= span.end <= |text| && Decides(text, span, from, p)
    ensures from <= p < to <= |text| && SampleAt(text, span) == text[from..to]
  {
    LineFeedInSlice(text, span.start, span.end);
    LineFeedInSlice(text, span.start, |text|);
    assert text[span.start..] == text[span.start..|text|] && text == text[0..|text|];
    to := if NoLineFeed(text, span.start, span.end) then |text| else span.end;
  }

  lemma LineFeedFound(text: string, span: Span, from: nat, p: nat)
    requires span.start <= span.end <= |text| && Decides(text, span, from, p)
    ensures EndingAt(text, span) == if from < p && text[p - 1] == '\r' then "\r\n" else "\n"
  {
    var to := SampleBegins(text, span, from, p);
    SameLineFeed(text, from, to, p);
    hide SampleAt, LineEnd;
    assert p > from ==> text[from..to][p - from - 1] == text[p - 1];
  }

  lemma LineFeedInSlice(text: string, from: nat, to: nat)
    requires from <= to <= |text|
    ensures '\n' in text[from..to] <==> !NoLineFeed(text, from, to)
  {
    forall i | from <= i < to ensures text[from..to][i - from] == text[i] {
    }
  }

  lemma SameLineFeed(text: string, from: nat, to: nat, p: nat)
    requires from <= p < to <= |text| && IsFirstLineFeed(text, from, p)
    ensures LineEnd(text[from..to], 0) == p - from
  {
    assert text[from..to][p - from] == '\n';
  }

  lemma NoLineFeedFound(text: string, span: Span)
    requires span.start <= span.end <= |text| && '\n' !in text
    ensures EndingAt(text, span) == "\n"
  {
    assert LineEnd(text, 0) == |text|;
  }

  lemma {:induction false} AllBecomeCrLf(s: string)
    ensures OnlyCrLf(ReplaceNewlines(s, "\r\n"))
  {
    if s != "" {
      AllBecomeCrLf(s[1..]);
      var head, tail := if s[0] == '\n' then "\r\n" else [s[0]], ReplaceNewlines(s[1..], "\r\n");
      assert tail != "" ==> tail[0] != '\n';
      assert forall i :: 0 <= i < |tail| ==> (head + tail)[|head| + i] == tail[i];
    }
  }

  /** Inserted line breaks are those of the deciding line feed: all CRLF if it stands behind a CR (and
      not first in what was searched), else the new text is inserted as it is once normalized. */
  lemma InsertedBreaks(text: string, span: Span, newText: string, from: nat, p: nat)
    requires span.start <= span.end <= |text| && Decides(text, span, from, p)
    ensures from < p && text[p - 1] == '\r' ==> OnlyCrLf(Replacement(text, span, newText))
    ensures !(from < p && text[p - 1] == '\r') ==> Replacement(text, span, newText) == Normalize(newText)
  {
    LineFeedFound(text, span, from, p);
    LfStays(Normalize(newText));
    AllBecomeCrLf(Normalize(newText));
    hide EndingAt, Normalize, ReplaceNewlines, OnlyCrLf;
  }

  /** A text without CRLF gets none but those that normalization leaves in the new text. */
  lemma LfTextStaysLf(text: string, span: Span, newText: string)
    requires span.start <= span.end <= |text| && !HasCrLf(text)
    ensures Replacement(text, span, newText) == Normalize(newText)
  {
    if '\n' in text {
      var p := FirstLineFeed(text, if NoLineFeed(text, span.start, |text|) then 0 else span.start);
      InsertedBreaks(text, span, newText, if NoLineFeed(text, span.start, |text|) then 0 else span.start, p);
    } else {
      NoLineFeedFound(text, span);
      LfStays(Normalize(newText));
    }
  }

  lemma {:induction false} FirstLineFeed(text: string, from: nat) returns (p: nat)
    requires !NoLineFeed(text, from, |text|)
    ensures IsFirstLineFeed(text, from, p)
    decreases |text| - from
  {
    if from < |text| && text[from] == '\n' {
      p := from;
    } else {
      p := FirstLineFeed(text, from + 1);
    }
  }

  /** A text all of whose breaks are CRLF, and where the search does not begin between the CR and the
      LF of one, gets nothing but CRLF. */
  lemma CrLfTextStaysCrLf(text: string, span: Span, newText: string)
    requires span.start <= span.end <= |text| && OnlyCrLf(text) && '\n' in text
    requires span.start < |text| ==> text[span.start] != '\n'
    ensures OnlyCrLf(Replacement(text, span, newText))
  {
    var from := if NoLineFeed(text, span.start, |text|) then 0 else span.start;
    var p := FirstLineFeed(text, from);
    InsertedBreaks(text, span, newText, from, p);
  }

  // ---------------------------------------------------------------------------
  // Two matches with a line in common
  // ---------------------------------------------------------------------------

  const SHARED_REQUEST := Request(["", "x", ""], false)
  const SHARED_PAGE := Page([Line(0, 0, 1), Line(1, 2, 3), Line(3, 3, 4), Line(4, 5, 6), Line(6, 6, 7)],
                            ["", "x", "", "x", ""], [true, true, true, true, true])

  lemma LiteralIsThere(text: string, at: nat, literal: string, c: char)
    ensures LiteralAt(text, at, literal) && c in literal ==> c in text
  {
    if LiteralAt(text, at, literal) && c in literal {
      var i :| 0 <= i < |literal| && literal[i] == c;
      assert text[at..at + |literal|][i] == text[at + i];
    }
  }

  lemma {:induction false} NoMatchWithout(text: string, at: nat, lines: seq<string>, c: char)
    requires |lines| > 0 && c in lines[|lines| - 1] && c !in text
    ensures MatchEnd(text, at, lines).None?
    decreases |lines|
  {
    LiteralIsThere(text, at, lines[|lines| - 1], c);
    if |lines| > 1 {
      var next := at + |lines[0]|;
      NoMatchWithout(text, next + Terminator(text, next), lines[1..], c);
    }
  }

  /** A character that the text lacks is enough for the exact search to find nothing. */
  lemma {:induction false} NothingFound(text: string, lines: seq<string>, from: nat, c: char)
    requires |lines| > 0 && lines != [""] && c in lines[|lines| - 1] && c !in text
    ensures FindAll(text, lines, from) == []
    decreases |text| + 1 - from
  {
    if from <= |text| {
      NoMatchWithout(text, from, lines, c);
      NothingFound(text, lines, from + 1, c);
    }
  }

  lemma NextPiece(text: string, from: nat, newline: nat)
    requires from <= newline < |text| && text[newline] == '\n' && forall i :: from <= i < newline ==> text[i] != '\n'
    ensures SplitFrom(text, from) == [text[from..newline]] + SplitFrom(text, newline + 1)
  {
    assert LineEnd(text, from) == newline;
  }

  lemma LastPiece(text: string, from: nat)
    requires from <= |text| && forall i :: from <= i < |text| ==> text[i] != '\n'
    ensures SplitFrom(text, from) == [text[from..]]
  {
    assert LineEnd(text, from) == |text|;
  }

  lemma NextLine(text: string, from: nat, newline: nat, rest: seq<Line>)
    requires from <= newline < |text| && text[newline] == '\n' && forall i :: from <= i < newline ==> text[i] != '\n'
    requires (newline == from || text[newline - 1] != '\r') && rest == LinesFrom(text, newline + 1)
    ensures LinesFrom(text, from) == [Line(from, newline, newline + 1)] + rest
  {
    assert LineEnd(text, from) == newline;
  }

  lemma SharedPieces(asked: string)
    requires |asked| == 4 && asked[0] == '\n' && asked[1] == 'x' && asked[2] == '\n' && asked[3] == ' '
    ensures Normalize(asked) == asked && Split(asked) == ["", "x", " "]
  {
    NormalizeShortens(asked);
    NextPiece(asked, 0, 0);
    NextPiece(asked, 1, 2);
    LastPiece(asked, 3);
    hide SplitFrom;
    assert asked[1..2] == "x" && asked[3..] == " ";
  }

  lemma SharedRequest(asked: string)
    requires Split(asked) == ["", "x", " "]
    ensures RequestOf(asked) == SHARED_REQUEST
  {
    hide Split;
    assert Strip("x") == "x" && Strip("") == "";
    assert Strip(" ") == "" by { assert " "[1..] == ""; }
    assert Stripped(["", "x", " "]) == ["", "x", ""];
  }

  /** The text, character by character. */
  predicate IsShared(text: string)
  {
    && |text| == 7 && text[0] == '\n' && text[1] == 'x' && text[2] == '\n' && text[3] == '\n'
    && text[4] == 'x' && text[5] == '\n' && text[6] == '\n'
  }

  lemma SharedLastLines(text: string)
    requires IsShared(text)
    ensures LinesFrom(text, 3) == [Line(3, 3, 4), Line(4, 5, 6), Line(6, 6, 7)]
  {
    assert LinesFrom(text, 7) == [];
    hide LinesFrom;
    NextLine(text, 6, 6, []);
    NextLine(text, 4, 5, [Line(6, 6, 7)]);
    NextLine(text, 3, 3, [Line(4, 5, 6), Line(6, 6, 7)]);
  }

  lemma SharedLines(text: string)
    requires IsShared(text)
    ensures LinesFrom(text, 0) == SHARED_PAGE.lines
  {
    SharedLastLines(text);
    hide LinesFrom;
    NextLine(text, 1, 2, [Line(3, 3, 4), Line(4, 5, 6), Line(6, 6, 7)]);
    NextLine(text, 0, 0, [Line(1, 2, 3), Line(3, 3, 4), Line(4, 5, 6), Line(6, 6, 7)]);
  }

  lemma StripShort()
    ensures Strip("x") == "x" && Strip("") == ""
  {
  }

  lemma SharedPage(text: string)
    requires IsShared(text)
    ensures PageOf(text) == SHARED_PAGE
  {
    SharedLines(text);
    StripShort();
    hide LinesFrom, Tiled, Strip;
    assert text[0..0] == "" && text[1..2] == "x" && text[3..3] == "" && text[4..5] == "x" && text[6..6] == "";
    assert PageOf(text).normalized == SHARED_PAGE.normalized;
  }

  lemma SharedWindows()
    ensures WindowSpans(SHARED_PAGE, SHARED_REQUEST, 5) == [Span(0, 3), Span(3, 6)]
  {
    var page, request := SHARED_PAGE, SHARED_REQUEST;
    assert WindowAt(page, request, 0) && WindowAt(page, request, 2);
    assert page.normalized[1..4][0] == "x";
    assert Windows(page, request, 1) == [0];
    assert Windows(page, request, 3) == [0, 2];
    assert Windows(page, request, 5) == [0, 2];
  }

  lemma SharedFallback(text: string, asked: string)
    requires IsShared(text) && Split(asked) == ["", "x", " "]
    ensures Fallback(text, asked) == [Span(0, 3), Span(3, 6)]
  {
    SharedRequest(asked);
    SharedPage(text);
    SharedWindows();
    assert SHARED_REQUEST.stripped[1] == "x";
    hide Split, PageOf, RequestOf, WindowSpans, IsShared;
  }

  lemma FallbackServes(text: string, oldText: string)
    requires oldText != "" && ExactLines(oldText) != [""] && FindAll(text, ExactLines(oldText), 0) == []
    ensures Candidates(text, oldText) == (LineWhitespace, Fallback(text, Normalize(oldText)))
  {
  }

  lemma SharedCandidates(text: string, asked: string)
    requires IsShared(text) && asked != "" && Normalize(asked) == asked && Split(asked) == ["", "x", " "]
    ensures Candidates(text, asked) == (LineWhitespace, [Span(0, 3), Span(3, 6)])
  {
    assert ' ' !in text;
    hide Split, Normalize, FindAll, Fallback, IsShared, Candidates;
    var lines := ExactLines(asked);
    assert lines == Split(asked);
    SharedFallback(text, asked);
    NothingFound(text, lines, 0, ' ');
    FallbackServes(text, asked);
  }

  lemma SplicedTwo(text: string, a: Span, b: Span, newText: string)
    requires a.start <= a.end <= b.start <= b.end <= |text|
    ensures InOrder([a, b], 0, |text|)
    ensures Spliced(text, [a, b], 0, newText)
         == text[0..a.start] + (Replacement(text, a, newText)
            + (text[a.end..b.start] + (Replacement(text, b, newText) + text[b.end..])))
  {
    hide Replacement;
    assert [a, b][1..] == [b] && [b][1..] == [];
    assert Spliced(text, [], b.end, newText) == text[b.end..];
    assert Spliced(text, [b], a.end, newText) == text[a.end..b.start] + (Replacement(text, b, newText) + text[b.end..]);
  }

  lemma OneCharacter(text: string, span: Span)
    requires span.start <= span.end <= |text|
    ensures Replacement(text, span, "y") == "y"
  {
    hide EndingAt;
    NormalizeShortens("y");
    var ending := EndingAt(text, span);
    assert "y"[1..] == "";
    assert ReplaceNewlines("", ending) == "" && ReplaceNewlines("y", ending) == "y";
  }

  lemma SharedSplice(text: string)
    requires IsShared(text)
    ensures InOrder([Span(0, 3), Span(3, 6)], 0, |text|)
    ensures Spliced(text, [Span(0, 3), Span(3, 6)], 0, "y") == "yy\n"
  {
    assert text[0..0] == "" && text[3..3] == "" && text[6..] == "\n";
    hide Spliced, Replacement, InOrder, IsShared;
    var a, b := Span(0, 3), Span(3, 6);
    SplicedTwo(text, a, b, "y");
    OneCharacter(text, a);
    OneCharacter(text, b);
    TwoCharacters(text[0..0], text[3..3], text[6..]);
  }

  lemma TwoCharacters(a: string, b: string, c: string)
    requires a == "" && b == "" && c == "\n"
    ensures a + ("y" + (b + ("y" + c))) == "yy\n"
  {
  }

  lemma SharedPatch(text: string, asked: string)
    requires IsShared(text) && asked != "" && Normalize(asked) == asked && Split(asked) == ["", "x", " "]
    ensures Prepared(text, asked, "y", true) == Ok(Patch("yy\n", 2, LineWhitespace))
  {
    SharedCandidates(text, asked);
    var spans := [Span(0, 3), Span(3, 6)];
    assert !Overlapping(spans);
    SharedSplice(text);
    hide Candidates, Spliced, Normalize, Split, IsShared, Overlapping, InOrder;
  }

  /** Two fallback matches can share a line without being rejected, as the spans of windows that
      have an empty line in common only touch: here the line between the two x is matched, and
      replaced, along with each of them. */
  lemma SharedBlankLineIsAccepted()
    ensures Prepared("\nx\n\nx\n\n", "\nx\n ", "y", true) == Ok(Patch("yy\n", 2, LineWhitespace))
  {
    SharedPieces("\nx\n ");
    SharedPatch("\nx\n\nx\n\n", "\nx\n ");
    hide Prepared;
  }
}
