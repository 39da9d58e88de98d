/** The stream that shows a user only the text between `<final>` and `</final>` while a model
    response is still arriving in chunks. */
module FinalStream {

  import opened Strings
  import opened Wrappers

  /** The pair of markers around the visible text; only their being non-empty matters. */
  datatype Raw = Markers(open: string, close: string)

  type Markers = m: Raw | m.open != "" && m.close != "" witness Markers("<", ">")

  const FINAL: Markers := Markers("<final>", "</final>")

  // ---------------------------------------------------------------------------
  // First occurrences, and suffixes that may still grow into a marker
  // ---------------------------------------------------------------------------

  predicate OccursAt(text: string, marker: string, i: int)
  {
    0 <= i <= i + |marker| <= |text| && text[i..i + |marker|] == marker
  }

  ghost predicate FirstAt(text: string, marker: string, i: int)
  {
    OccursAt(text, marker, i) && forall j :: 0 <= j < i ==> !OccursAt(text, marker, j)
  }

  ghost function Find(text: string, marker: string): (r: Option<nat>)
    ensures r.Some? ==> r.value + |marker| <= |text|
  {
    if exists i: nat :: FirstAt(text, marker, i) then
      var i: nat :| FirstAt(text, marker, i);
      Some(i)
    else None
  }

  lemma {:induction false} SomeIsFirst(text: string, marker: string, i: nat)
    requires OccursAt(text, marker, i)
    ensures exists j: nat :: j <= i && FirstAt(text, marker, j)
  {
    if j: nat :| j < i && OccursAt(text, marker, j) {
      SomeIsFirst(text, marker, j);
    } else {
      assert FirstAt(text, marker, i);
    }
  }

  /** `Find` gives the first occurrence, and `None` exactly when there is none. */
  lemma FindIsFirst(text: string, marker: string)
    ensures match Find(text, marker)
            case Some(i) => FirstAt(text, marker, i)
            case None => forall j :: !OccursAt(text, marker, j)
  {
    forall j | OccursAt(text, marker, j)
      ensures Find(text, marker).Some?
    {
      SomeIsFirst(text, marker, j);
    }
  }

  lemma FindIs(text: string, marker: string, i: nat)
    requires FirstAt(text, marker, i)
    ensures Find(text, marker) == Some(i)
  {
    FindIsFirst(text, marker);
    var k := Find(text, marker).value;
    assert OccursAt(text, marker, k) && OccursAt(text, marker, i);
  }

  /** The last `size` characters of `text` are a proper prefix of `marker`. */
  predicate Overlaps(text: string, marker: string, size: nat)
  {
    size <= |text| && size < |marker| && text[|text| - size..] == marker[..size]
  }

  ghost predicate LongestOverlap(text: string, marker: string, size: nat)
  {
    Overlaps(text, marker, size) && forall k: nat :: Overlaps(text, marker, k) ==> k <= size
  }

  lemma {:induction false} OverlapExists(text: string, marker: string, limit: nat)
    requires marker != ""
    requires forall k: nat :: Overlaps(text, marker, k) ==> k <= limit
    ensures exists size: nat :: LongestOverlap(text, marker, size)
  {
    assert Overlaps(text, marker, 0);
    if Overlaps(text, marker, limit) {
      assert LongestOverlap(text, marker, limit);
    } else {
      OverlapExists(text, marker, limit - 1);
    }
  }

  /** The size of the longest suffix of `text` that is a proper prefix of `marker`. */
  ghost function Overlap(text: string, marker: string): (r: nat)
    requires marker != ""
    ensures r <= |text| && r < |marker|
  {
    OverlapExists(text, marker, |text|);
    var size: nat :| LongestOverlap(text, marker, size);
    size
  }

  lemma OverlapIsLongest(text: string, marker: string)
    requires marker != ""
    ensures LongestOverlap(text, marker, Overlap(text, marker))
  {
    OverlapExists(text, marker, |text|);
  }

  lemma OverlapIs(text: string, marker: string, size: nat)
    requires marker != "" && LongestOverlap(text, marker, size)
    ensures Overlap(text, marker) == size
  {
    OverlapIsLongest(text, marker);
  }

  ghost function Kept(text: string, marker: string): string
    requires marker != ""
  {
    text[|text| - Overlap(text, marker)..]
  }

  // ---------------------------------------------------------------------------
  // Border reasoning: the kept suffix is all that later text can still interact with
  // ---------------------------------------------------------------------------

  /** An occurrence in `text + more` that is not inside `text` starts in the kept suffix. */
  lemma OccurrenceStartsInKept(text: string, more: string, marker: string, j: nat)
    requires marker != "" && OccursAt(text + more, marker, j)
    ensures j >= |text| - Overlap(text, marker) || OccursAt(text, marker, j)
  {
    if j + |marker| <= |text| {
      assert text[j..j + |marker|] == (text + more)[j..j + |marker|];
    } else if j < |text| {
      var size := |text| - j;
      assert text[j..] == (text + more)[j..j + |marker|][..size];
      assert Overlaps(text, marker, size);
      OverlapIsLongest(text, marker);
    }
  }

  lemma OccurrenceShifts(text: string, marker: string, cut: nat, j: nat)
    requires cut <= |text|
    ensures OccursAt(text[cut..], marker, j) <==> OccursAt(text, marker, cut + j)
  {
    if cut + j + |marker| <= |text| {
      assert text[cut..][j..j + |marker|] == text[cut + j..cut + j + |marker|];
    }
  }

  function Shift(offset: nat, found: Option<nat>): Option<nat>
  {
    if found.Some? then Some(offset + found.value) else None
  }

  /** When every occurrence lies at or after `cut`, the search may start there. */
  lemma FindAfter(text: string, marker: string, cut: nat)
    requires cut <= |text|
    requires forall j :: 0 <= j < cut ==> !OccursAt(text, marker, j)
    ensures Find(text, marker) == Shift(cut, Find(text[cut..], marker))
  {
    FindIsFirst(text[cut..], marker);
    FindIsFirst(text, marker);
    match Find(text[cut..], marker)
    case Some(i) =>
      OccurrenceShifts(text, marker, cut, i);
      forall j | 0 <= j < cut + i
        ensures !OccursAt(text, marker, j)
      {
        if j >= cut {
          OccurrenceShifts(text, marker, cut, j - cut);
        }
      }
      FindIs(text, marker, cut + i);
    case None =>
      if Find(text, marker).Some? {
        OccurrenceShifts(text, marker, cut, Find(text, marker).value - cut);
      }
  }

  /** Searching the kept suffix and the new text finds what searching everything finds. */
  lemma FindAcrossChunks(text: string, more: string, marker: string)
    requires marker != "" && Find(text, marker).None?
    ensures Find(text + more, marker)
         == Shift(|text| - Overlap(text, marker), Find(Kept(text, marker) + more, marker))
  {
    FindIsFirst(text, marker);
    var skipped := |text| - Overlap(text, marker);
    forall j | 0 <= j < skipped
      ensures !OccursAt(text + more, marker, j)
    {
      if OccursAt(text + more, marker, j) {
        OccurrenceStartsInKept(text, more, marker, j);
      }
    }
    FindAfter(text + more, marker, skipped);
    assert (text + more)[skipped..] == Kept(text, marker) + more;
  }

  lemma OverlapStartsInKept(text: string, more: string, marker: string, k: nat)
    requires marker != "" && Overlaps(text + more, marker, k)
    ensures k <= Overlap(text, marker) + |more|
  {
    if k > |more| {
      var all, size := text + more, k - |more|;
      assert text[|text| - size..] == all[|all| - k..][..size] == marker[..size];
      assert Overlaps(text, marker, size);
      OverlapIsLongest(text, marker);
    }
  }

  /** The kept suffix of everything is the kept suffix of the old kept suffix and the new text. */
  lemma KeptAcrossChunks(text: string, more: string, marker: string)
    requires marker != ""
    ensures Overlap(text + more, marker) == Overlap(Kept(text, marker) + more, marker)
    ensures Kept(text + more, marker) == Kept(Kept(text, marker) + more, marker)
  {
    var all, short := text + more, Kept(text, marker) + more;
    assert short == all[|all| - |short|..];
    OverlapIsLongest(short, marker);
    forall k: nat | k <= |short|
      ensures Overlaps(all, marker, k) <==> Overlaps(short, marker, k)
    {
      assert all[|all| - k..] == short[|short| - k..];
    }
    forall k: nat | Overlaps(all, marker, k)
      ensures k <= Overlap(short, marker)
    {
      OverlapStartsInKept(text, more, marker, k);
    }
    OverlapIs(all, marker, Overlap(short, marker));
    assert all[|all| - Overlap(short, marker)..] == short[|short| - Overlap(short, marker)..];
  }

  lemma FindIsStable(text: string, more: string, marker: string)
    requires Find(text, marker).Some?
    ensures Find(text + more, marker) == Find(text, marker)
  {
    FindIsFirst(text, marker);
    var i := Find(text, marker).value;
    forall j | 0 <= j <= i
      ensures OccursAt(text + more, marker, j) <==> OccursAt(text, marker, j)
    {
      if j + |marker| <= |text| {
        assert (text + more)[j..j + |marker|] == text[j..j + |marker|];
      }
    }
    FindIs(text + more, marker, i);
  }

  // ---------------------------------------------------------------------------
  // The batch reference and the incremental step
  // ---------------------------------------------------------------------------

  datatype State = Searching(buffer: string) | Streaming(buffer: string) | Done

  datatype View = View(state: State, shown: string)

  /** The visible part of a body that starts right after `<final>`. */
  ghost function ViewBody(m: Markers, body: string): View
  {
    match Find(body, m.close)
    case Some(end) => View(Done, body[..end])
    case None => View(Streaming(Kept(body, m.close)), body[..|body| - Overlap(body, m.close)])
  }

  /** What must be visible once `text` has arrived: nothing before the first `<final>`, then
      everything up to the next `</final>`, or, while that is missing, everything but the
      longest suffix that may still become one. */
  ghost function ViewOf(m: Markers, text: string): View
  {
    match Find(text, m.open)
    case None => View(Searching(Kept(text, m.open)), "")
    case Some(start) => ViewBody(m, text[start + |m.open|..])
  }

  /** Nothing is shown of a text without `<final>`. */
  lemma NothingWithoutMarker(text: string)
    requires forall i :: !OccursAt(text, "<final>", i)
    ensures ViewOf(FINAL, text).shown == ""
  {
    FindIsFirst(text, "<final>");
  }

  /** Behind the first `<final>` everything up to the next `</final>` is shown; while that is missing,
      everything but the longest end with which `</final>` may begin. */
  lemma VisibleMeans(text: string, i: nat, body: string)
    requires FirstAt(text, "<final>", i) && body == text[i + 7..]
    ensures forall j: nat :: FirstAt(body, "</final>", j) ==> ViewOf(FINAL, text).shown == body[..j]
    ensures (forall j :: !OccursAt(body, "</final>", j)) ==>
              forall k: nat :: LongestOverlap(body, "</final>", k) ==> ViewOf(FINAL, text).shown == body[..|body| - k]
  {
    FindIs(text, "<final>", i);
    FindIsFirst(body, "</final>");
    forall j: nat | FirstAt(body, "</final>", j) ensures ViewOf(FINAL, text).shown == body[..j] {
      FindIs(body, "</final>", j);
    }
    forall k: nat | LongestOverlap(body, "</final>", k) ensures Overlap(body, "</final>") == k {
      OverlapIs(body, "</final>", k);
    }
  }

  /** One call of `feed`: the next state, and what this call shows. */
  ghost function Step(m: Markers, state: State, text: string): View
  {
    if text == "" then View(state, "")
    else match state
      case Done => View(Done, "")
      case Searching(buffer) => ViewOf(m, buffer + text)
      case Streaming(buffer) => ViewBody(m, buffer + text)
  }

  ghost function FeedAll(m: Markers, chunks: seq<string>): View
  {
    if chunks == [] then View(Searching(""), "")
    else
      var before := FeedAll(m, chunks[..|chunks| - 1]);
      var now := Step(m, before.state, chunks[|chunks| - 1]);
      View(now.state, before.shown + now.shown)
  }

  ghost predicate Extends(before: View, now: View, after: View)
  {
    now.state == after.state && before.shown + now.shown == after.shown
  }

  lemma TakeAcross(text: string, more: string, cut: nat, n: nat)
    requires cut <= |text| && cut + n <= |text| + |more|
    ensures (text + more)[..cut + n] == text[..cut] + (text[cut..] + more)[..n]
  {
    assert text + more == text[..cut] + (text[cut..] + more);
  }

  lemma DropAcross(text: string, more: string, cut: nat, n: nat)
    requires cut <= |text| && cut + n <= |text| + |more|
    ensures (text + more)[cut + n..] == (text[cut..] + more)[n..]
  {
    assert text + more == text[..cut] + (text[cut..] + more);
  }

  lemma TakeInside(text: string, more: string, n: nat)
    requires n <= |text|
    ensures (text + more)[..n] == text[..n] && text[..n] + "" == text[..n]
  {
  }

  lemma DropInside(text: string, more: string, n: nat)
    requires n <= |text|
    ensures (text + more)[n..] == text[n..] + more
  {
  }

  lemma BodyExtends(m: Markers, body: string, more: string)
    requires more != ""
    ensures Extends(ViewBody(m, body), Step(m, ViewBody(m, body).state, more), ViewBody(m, body + more))
  {
    match Find(body, m.close)
    case Some(end) =>
      FindIsStable(body, more, m.close);
      TakeInside(body, more, end);
    case None =>
      OpenBodyExtends(m, body, more);
  }

  lemma OpenBodyExtends(m: Markers, body: string, more: string)
    requires more != "" && Find(body, m.close).None?
    ensures Extends(ViewBody(m, body), ViewBody(m, Kept(body, m.close) + more), ViewBody(m, body + more))
  {
    var shown := |body| - Overlap(body, m.close);
    var pending := Kept(body, m.close) + more;
    FindAcrossChunks(body, more, m.close);
    match Find(pending, m.close)
    case Some(i) =>
      TakeAcross(body, more, shown, i);
    case None =>
      KeptAcrossChunks(body, more, m.close);
      TakeAcross(body, more, shown, |pending| - Overlap(pending, m.close));
  }

  lemma ViewExtends(m: Markers, text: string, more: string)
    ensures Extends(ViewOf(m, text), Step(m, ViewOf(m, text).state, more), ViewOf(m, text + more))
  {
    TakeInside(ViewOf(m, text).shown, "", |ViewOf(m, text).shown|);
    if more == "" {
      assert text + more == text;
    } else {
      match Find(text, m.open)
      case Some(start) =>
        FindIsStable(text, more, m.open);
        DropInside(text, more, start + |m.open|);
        BodyExtends(m, text[start + |m.open|..], more);
      case None =>
        ClosedViewExtends(m, text, more);
    }
  }

  lemma ClosedViewExtends(m: Markers, text: string, more: string)
    requires more != "" && Find(text, m.open).None?
    ensures Extends(ViewOf(m, text), ViewOf(m, Kept(text, m.open) + more), ViewOf(m, text + more))
  {
    var pending := Kept(text, m.open) + more;
    FindAcrossChunks(text, more, m.open);
    if Find(pending, m.open).Some? {
      DropAcross(text, more, |text| - Overlap(text, m.open), Find(pending, m.open).value + |m.open|);
    } else {
      KeptAcrossChunks(text, more, m.open);
    }
    assert ViewOf(m, pending) == ViewOf(m, text + more);
    Nothing(ViewOf(m, pending).shown);
  }

  /** For every chunking, the stream has shown, and keeps as its state, exactly what the batch
      view of the whole text so far says. */
  lemma {:induction false} ChunkingIsInvisible(m: Markers, chunks: seq<string>)
    ensures FeedAll(m, chunks) == ViewOf(m, Concat(chunks))
  {
    if chunks == [] {
      FindIsFirst("", m.open);
      assert Overlap("", m.open) == 0;
    } else {
      var init, last := chunks[..|chunks| - 1], chunks[|chunks| - 1];
      ChunkingIsInvisible(m, init);
      ViewExtends(m, Concat(init), last);
    }
  }

  /** What was shown is never taken back. */
  lemma ShownIsFinal(m: Markers, text: string, more: string)
    ensures ViewOf(m, text).shown <= ViewOf(m, text + more).shown
  {
    ViewExtends(m, text, more);
  }

  /** Nothing is held back without need: while the end marker is missing, some continuation of
      the text really does turn the held-back suffix into that marker. */
  lemma HeldBackMayBeMarker(m: Markers, text: string) returns (more: string)
    requires ViewOf(m, text).state.Streaming?
    ensures ViewOf(m, text + more) == View(Done, ViewOf(m, text).shown)
  {
    var start := Find(text, m.open).value;
    var body := text[start + |m.open|..];
    more := Completion(body, m.close);
    FindIsStable(text, more, m.open);
    DropInside(text, more, start + |m.open|);
    TakeInside(body, more, |body| - Overlap(body, m.close));
  }

  lemma Completion(body: string, marker: string) returns (more: string)
    requires marker != "" && Find(body, marker).None?
    ensures Find(body + more, marker) == Some(|body| - Overlap(body, marker))
  {
    FindIsFirst(body, marker);
    OverlapIsLongest(body, marker);
    var size := Overlap(body, marker);
    var shown := |body| - size;
    more := marker[size..];
    assert (body + more)[shown..shown + |marker|] == marker by {
      DropInside(body, more, shown);
      assert body[shown..] + more == marker;
    }
    forall j | 0 <= j < shown
      ensures !OccursAt(body + more, marker, j)
    {
      if OccursAt(body + more, marker, j) {
        OccurrenceStartsInKept(body, more, marker, j);
      }
    }
    FindIs(body + more, marker, shown);
  }

  // ---------------------------------------------------------------------------
  // The stream object
  // ---------------------------------------------------------------------------

  method IndexOf(text: string, marker: string) returns (found: Option<nat>)
    ensures found == Find(text, marker)
  {
    FindIsFirst(text, marker);
    var i := 0;
    while i + |marker| <= |text|
      invariant forall j :: 0 <= j < i ==> !OccursAt(text, marker, j)
      decreases |text| - i
    {
      if OccursAt(text, marker, i) {
        FindIs(text, marker, i);
        return Some(i);
      }
      i := i + 1;
    }
    return None;
  }

  method SuffixPrefix(text: string, marker: string) returns (suffix: string)
    requires marker != ""
    ensures suffix == Kept(text, marker)
  {
    var size := if |text| < |marker| - 1 then |text| else |marker| - 1;
    while size > 0
      invariant 0 <= size <= |text| && size < |marker|
      invariant forall k: nat :: Overlaps(text, marker, k) ==> k <= size
    {
      if text[|text| - size..] == marker[..size] {
        OverlapIs(text, marker, size);
        return text[|text| - size..];
      }
      size := size - 1;
    }
    OverlapIs(text, marker, 0);
    return "";
  }

  class FinalTextStream {
    var state: State
    /** The pieces handed to the sink, in order. */
    var delivered: seq<string>

    constructor ()
      ensures state == Searching("") && delivered == []
    {
      state, delivered := Searching(""), [];
    }

    method Feed(text: string)
      modifies this
      ensures state == Step(FINAL, old(state), text).state
      ensures Concat(delivered) == Concat(old(delivered)) + Step(FINAL, old(state), text).shown
      ensures forall i :: |old(delivered)| <= i < |delivered| ==> delivered[i] != ""
      ensures old(delivered) <= delivered
    {
      if text == "" || state.Done? {
        assert Concat(delivered) + "" == Concat(delivered);
        return;
      }
      var buffer := state.buffer + text;
      if state.Searching? {
        var index := IndexOf(buffer, FINAL.open);
        if index.None? {
          var kept := SuffixPrefix(buffer, FINAL.open);
          state := Searching(kept);
          assert Concat(delivered) + "" == Concat(delivered);
          return;
        }
        buffer := buffer[index.value + |FINAL.open|..];
      }
      var index := IndexOf(buffer, FINAL.close);
      if index.Some? {
        Emit(buffer[..index.value]);
        state := Done;
        return;
      }
      var suffix := SuffixPrefix(buffer, FINAL.close);
      Emit(buffer[..|buffer| - |suffix|]);
      state := Streaming(suffix);
    }

    method Emit(text: string)
      modifies this`delivered
      ensures Concat(delivered) == Concat(old(delivered)) + text
      ensures text == "" ==> delivered == old(delivered)
      ensures text != "" ==> delivered == old(delivered) + [text]
    {
      if text != "" {
        delivered := delivered + [text];
      } else {
        assert Concat(delivered) + text == Concat(delivered);
      }
    }
  }

  /** A whole response fed in arbitrary chunks delivers the visible text of the response. */
  method ShowResponse(chunks: seq<string>) returns (shown: string)
    ensures shown == ViewOf(FINAL, Concat(chunks)).shown
  {
    var stream := new FinalTextStream();
    for i := 0 to |chunks|
      invariant View(stream.state, Concat(stream.delivered)) == FeedAll(FINAL, chunks[..i])
    {
      assert chunks[..i + 1][..i] == chunks[..i];
      stream.Feed(chunks[i]);
    }
    assert chunks[..|chunks|] == chunks;
    ChunkingIsInvisible(FINAL, chunks);
    shown := Concat(stream.delivered);
  }
}
