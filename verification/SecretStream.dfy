/** Incremental filtering of literal secrets out of streamed text.
    The reference is a batch scan of the whole text; the stream must produce the same
    output however the text is cut into chunks. */
module SecretStream {

  import opened Strings
  import opened Wrappers

  const REDACTED := "<redacted>"

  // ---------------------------------------------------------------------------
  // The secret table: non-empty, without duplicates, longest first
  // ---------------------------------------------------------------------------

  ghost predicate Ordered(secrets: seq<string>)
  {
    && (forall i :: 0 <= i < |secrets| ==> secrets[i] != "")
    && (forall i, j :: 0 <= i < j < |secrets| ==> |secrets[i]| >= |secrets[j]| && secrets[i] != secrets[j])
  }

  /** Insertion after every entry that is at least as long (a stable descending sort). */
  function Insert(s: string, sorted: seq<string>): (r: seq<string>)
    ensures forall x :: x in r <==> x == s || x in sorted
  {
    if sorted == [] || |sorted[0]| < |s| then [s] + sorted
    else
      assert sorted == [sorted[0]] + sorted[1..];
      [sorted[0]] + Insert(s, sorted[1..])
  }

  /** The table built from arbitrary configured values: empty ones and repetitions are ignored. */
  function Table(values: seq<string>): (r: seq<string>)
    ensures forall x :: x in r <==> x in values && x != ""
  {
    if values == [] then []
    else
      assert values == values[..|values| - 1] + [values[|values| - 1]];
      var rest := Table(values[..|values| - 1]);
      var last := values[|values| - 1];
      if last == "" || last in rest then rest else Insert(last, rest)
  }

  lemma {:induction false} InsertKeepsOrder(s: string, sorted: seq<string>)
    requires Ordered(sorted) && s != "" && s !in sorted
    ensures Ordered(Insert(s, sorted))
  {
    if sorted != [] && |sorted[0]| >= |s| {
      InsertKeepsOrder(s, sorted[1..]);
      var tail := Insert(s, sorted[1..]);
      forall j | 0 <= j < |tail|
        ensures |sorted[0]| >= |tail[j]| && sorted[0] != tail[j]
      {
        assert tail[j] in tail;
        assert tail[j] == s || tail[j] in sorted[1..];
      }
    }
  }

  lemma {:induction false} TableIsOrdered(values: seq<string>)
    ensures Ordered(Table(values))
  {
    if values != [] {
      var rest := Table(values[..|values| - 1]);
      var last := values[|values| - 1];
      TableIsOrdered(values[..|values| - 1]);
      if last != "" && last !in rest {
        InsertKeepsOrder(last, rest);
      }
    }
  }

  // ---------------------------------------------------------------------------
  // The batch reference: one longest-match scan
  // ---------------------------------------------------------------------------

  /** The first table entry found at the start of `text`. */
  function FirstMatch(secrets: seq<string>, text: string): (r: Option<string>)
    ensures r.Some? ==> r.value in secrets && r.value <= text
    ensures r.None? ==> forall s :: s in secrets ==> !(s <= text)
  {
    if secrets == [] then None
    else if secrets[0] <= text then Some(secrets[0])
    else
      assert secrets == [secrets[0]] + secrets[1..];
      FirstMatch(secrets[1..], text)
  }

  datatype Token = Token(shown: string, width: nat)

  /** What a non-empty tail shows next, and how much text that uses up. */
  function Next(secrets: seq<string>, tail: string): (r: Token)
    requires Ordered(secrets) && tail != ""
    ensures 0 < r.width <= |tail|
  {
    match FirstMatch(secrets, tail)
    case Some(s) => Token(REDACTED, |s|)
    case None => Token([tail[0]], 1)
  }

  function Scan(secrets: seq<string>, text: string): string
    requires Ordered(secrets)
    decreases |text|
  {
    if text == "" then ""
    else
      var token := Next(secrets, text);
      token.shown + Scan(secrets, text[token.width..])
  }

  // ---------------------------------------------------------------------------
  // What the scan means, independently of the order the table is searched in
  // ---------------------------------------------------------------------------

  ghost function Entries(secrets: seq<string>): set<string> { set s | s in secrets }

  datatype Piece = Plain(c: char) | Hidden(secret: string)

  function Shown(pieces: seq<Piece>): string
  {
    if pieces == [] then ""
    else (match pieces[0] case Plain(c) => [c] case Hidden(_) => "<redacted>") + Shown(pieces[1..])
  }

  /** `pieces` cuts `text` so that no secret starts at a shown character and every hidden
      piece is the longest secret starting there. */
  ghost predicate Cuts(secrets: set<string>, pieces: seq<Piece>, text: string)
  {
    if pieces == [] then text == ""
    else match pieces[0]
      case Plain(c) =>
        && text != "" && text[0] == c
        && (forall s :: s in secrets ==> !(s <= text))
        && Cuts(secrets, pieces[1..], text[1..])
      case Hidden(s) =>
        && s in secrets && s <= text
        && (forall t :: t in secrets && t <= text ==> |t| <= |s|)
        && Cuts(secrets, pieces[1..], text[|s|..])
  }

  lemma {:induction false} FirstMatchIsLongest(secrets: seq<string>, text: string)
    requires Ordered(secrets) && FirstMatch(secrets, text).Some?
    ensures forall t :: t in secrets && t <= text ==> |t| <= |FirstMatch(secrets, text).value|
  {
    if !(secrets[0] <= text) {
      FirstMatchIsLongest(secrets[1..], text);
    }
  }

  /** The scan shows exactly the pieces of the only cut there is. */
  lemma {:induction false} ScanShowsTheCut(secrets: seq<string>, pieces: seq<Piece>, text: string)
    requires Ordered(secrets)
    requires Cuts(Entries(secrets), pieces, text)
    ensures Scan(secrets, text) == Shown(pieces)
    decreases |pieces|
  {
    if pieces != [] {
      match pieces[0]
      case Plain(c) =>
        assert forall s :: s in secrets ==> s in Entries(secrets);
        ScanShowsTheCut(secrets, pieces[1..], text[1..]);
      case Hidden(s) =>
        assert s != "";
        FirstMatchIsLongest(secrets, text);
        var m := FirstMatch(secrets, text).value;
        assert |m| == |s| && m == text[..|s|] == s;
        ScanShowsTheCut(secrets, pieces[1..], text[|s|..]);
    }
  }

  lemma {:induction false} CutExists(secrets: seq<string>, text: string) returns (pieces: seq<Piece>)
    requires Ordered(secrets)
    ensures Cuts(Entries(secrets), pieces, text)
    ensures Scan(secrets, text) == Shown(pieces)
    decreases |text|
  {
    pieces := [];
    if text != "" {
      match FirstMatch(secrets, text)
      case Some(s) =>
        FirstMatchIsLongest(secrets, text);
        var rest := CutExists(secrets, text[|s|..]);
        pieces := [Hidden(s)] + rest;
      case None =>
        var rest := CutExists(secrets, text[1..]);
        pieces := [Plain(text[0])] + rest;
    }
    ScanShowsTheCut(secrets, pieces, text);
  }

  // ---------------------------------------------------------------------------
  // The incremental filter
  // ---------------------------------------------------------------------------

  /** Some longer secret starts with all of `tail`: its fate is still open. */
  predicate Undecided(secrets: seq<string>, tail: string)
  {
    exists i :: 0 <= i < |secrets| && |secrets[i]| > |tail| && tail <= secrets[i]
  }

  datatype Drained = Drained(output: string, pending: string)

  function After(output: string, later: Drained): Drained
  {
    Drained(output + later.output, later.pending)
  }

  function Drain(secrets: seq<string>, text: string, complete: bool): Drained
    requires Ordered(secrets)
    decreases |text|
  {
    if text == "" || (!complete && Undecided(secrets, text)) then Drained("", text)
    else
      var token := Next(secrets, text);
      After(token.shown, Drain(secrets, text[token.width..], complete))
  }

  function FeedAll(secrets: seq<string>, chunks: seq<string>): Drained
    requires Ordered(secrets)
  {
    if chunks == [] then Drained("", "")
    else
      var before := FeedAll(secrets, chunks[..|chunks| - 1]);
      var d := Drain(secrets, before.pending + chunks[|chunks| - 1], false);
      d.(output := before.output + d.output)
  }

  lemma PrefixOfLonger(secret: string, text: string, future: string)
    requires |secret| <= |text| || !(text <= secret)
    ensures secret <= text + future <==> secret <= text
  {
    var n := if |secret| <= |text| then |secret| else |text|;
    assert (text + future)[..n] == text[..n];
  }

  /** A decision taken on a decided tail cannot be changed by anything that arrives later. */
  lemma MatchIsStable(secrets: seq<string>, text: string, future: string)
    requires !Undecided(secrets, text)
    ensures FirstMatch(secrets, text + future) == FirstMatch(secrets, text)
  {
    if secrets != [] {
      assert |secrets[0]| <= |text| || !(text <= secrets[0]);
      assert forall i :: 0 <= i < |secrets| - 1 ==> secrets[1..][i] == secrets[i + 1];
      PrefixOfLonger(secrets[0], text, future);
      MatchIsStable(secrets[1..], text, future);
    }
  }

  lemma ScanOfDecided(secrets: seq<string>, text: string, future: string)
    requires Ordered(secrets) && text != "" && !Undecided(secrets, text)
    ensures var token := Next(secrets, text);
            Scan(secrets, text + future) == token.shown + Scan(secrets, text[token.width..] + future)
  {
    MatchIsStable(secrets, text, future);
    var token := Next(secrets, text);
    assert (text + future)[token.width..] == text[token.width..] + future;
  }

  /** What one drain releases is final: the scan of any continuation starts with it and goes on
      from the retained text. */
  lemma {:induction false} DrainSettles(secrets: seq<string>, text: string, future: string)
    requires Ordered(secrets)
    ensures Scan(secrets, text + future)
         == Drain(secrets, text, false).output + Scan(secrets, Drain(secrets, text, false).pending + future)
    decreases |text|
  {
    if text == "" || Undecided(secrets, text) {
      Nothing(Scan(secrets, text + future));
    } else {
      var token := Next(secrets, text);
      var tail := text[token.width..];
      var later := Drain(secrets, tail, false);
      ScanOfDecided(secrets, text, future);
      DrainSettles(secrets, tail, future);
      Associative(token.shown, later.output, Scan(secrets, later.pending + future));
    }
  }

  lemma {:induction false} CompleteDrainIsScan(secrets: seq<string>, text: string)
    requires Ordered(secrets)
    ensures Drain(secrets, text, true) == Drained(Scan(secrets, text), "")
    decreases |text|
  {
    if text != "" {
      CompleteDrainIsScan(secrets, text[Next(secrets, text).width..]);
    }
  }

  lemma {:induction false} DrainRetains(secrets: seq<string>, text: string)
    requires Ordered(secrets)
    ensures var p := Drain(secrets, text, false).pending; p == "" || Undecided(secrets, p)
    decreases |text|
  {
    if text != "" && !Undecided(secrets, text) {
      DrainRetains(secrets, text[Next(secrets, text).width..]);
    }
  }

  /** Before the end of the text: what was released is a prefix of the scan of every possible
      continuation, and the rest of that scan is the scan of the retained text. */
  lemma {:induction false} ReleasedIsFinal(secrets: seq<string>, chunks: seq<string>, future: string)
    requires Ordered(secrets)
    ensures var d := FeedAll(secrets, chunks);
            Scan(secrets, Concat(chunks) + future) == d.output + Scan(secrets, d.pending + future)
  {
    if chunks == [] {
      assert Concat(chunks) + future == "" + future;
      assert "" + Scan(secrets, "" + future) == Scan(secrets, "" + future);
    } else {
      var init, last := chunks[..|chunks| - 1], chunks[|chunks| - 1];
      var before := FeedAll(secrets, init);
      ReleasedIsFinal(secrets, init, last + future);
      assert Concat(chunks) + future == Concat(init) + (last + future);
      DrainSettles(secrets, before.pending + last, future);
      assert (before.pending + last) + future == before.pending + (last + future);
      var d := Drain(secrets, before.pending + last, false);
      Associative(before.output, d.output, Scan(secrets, d.pending + future));
    }
  }

  /** The retained text is always a proper prefix of some secret, hence shorter than the longest. */
  lemma {:induction false} RetainedIsShort(secrets: seq<string>, chunks: seq<string>)
    requires Ordered(secrets)
    ensures var p := FeedAll(secrets, chunks).pending;
            p == "" || exists s :: s in secrets && |p| < |s| <= |secrets[0]| && p <= s
  {
    if chunks != [] {
      var before := FeedAll(secrets, chunks[..|chunks| - 1]);
      DrainRetains(secrets, before.pending + chunks[|chunks| - 1]);
      var p := FeedAll(secrets, chunks).pending;
      if p != "" {
        var i :| 0 <= i < |secrets| && |secrets[i]| > |p| && p <= secrets[i];
        assert secrets[i] in secrets && |secrets[i]| <= |secrets[0]|;
      }
    }
  }

  /** For every configured set of secrets and every way of cutting a text into chunks, the
      concatenated outputs of `feed` plus a completing `finish` equal one scan of the text. */
  lemma {:induction false} ChunkingIsInvisible(values: seq<string>, chunks: seq<string>)
    ensures Ordered(Table(values))
    ensures var d := FeedAll(Table(values), chunks);
            d.output + Drain(Table(values), d.pending, true).output == Scan(Table(values), Concat(chunks))
  {
    TableIsOrdered(values);
    var secrets := Table(values);
    var d := FeedAll(secrets, chunks);
    ReleasedIsFinal(secrets, chunks, "");
    CompleteDrainIsScan(secrets, d.pending);
    assert Concat(chunks) + "" == Concat(chunks);
    assert d.pending + "" == d.pending;
  }

  /** The drain loop stands at `index` with `output` collected, and the drain of all of `text`
      is what it goes on to do from there. */
  ghost predicate Reached(secrets: seq<string>, text: string, complete: bool, index: int, output: string)
    requires Ordered(secrets)
  {
    0 <= index <= |text| && Drain(secrets, text, complete) == After(output, Drain(secrets, text[index..], complete))
  }

  lemma DrainResumes(secrets: seq<string>, text: string, complete: bool, index: nat, output: string,
                     token: Token, index': nat, output': string)
    requires Ordered(secrets) && index < |text| && Reached(secrets, text, complete, index, output)
    requires complete || !Undecided(secrets, text[index..])
    requires token == Next(secrets, text[index..])
    requires index' == index + token.width && output' == output + token.shown
    ensures Reached(secrets, text, complete, index', output')
  {
    var tail := text[index..];
    var later := Drain(secrets, tail[token.width..], complete);
    assert tail[token.width..] == text[index'..];
    assert Drain(secrets, tail, complete) == After(token.shown, later);
    Associative(output, token.shown, later.output);
  }

  // ---------------------------------------------------------------------------
  // The stream object
  // ---------------------------------------------------------------------------

  class SecretTextStream {
    const secrets: seq<string>
    var pending: string
    var closed: bool

    ghost predicate Valid() reads this { Ordered(secrets) }

    constructor (values: seq<string>)
      ensures Valid() && secrets == Table(values) && pending == "" && !closed
    {
      secrets := Table(values);
      pending, closed := "", false;
      TableIsOrdered(values);
    }

    method Feed(text: string) returns (output: string)
      requires Valid()
      modifies this`pending
      ensures closed ==> output == "" && pending == old(pending)
      ensures !closed ==> Drained(output, pending) == Drain(secrets, old(pending) + text, false)
    {
      if closed {
        return "";
      }
      pending := pending + text;
      output := DrainPending(false);
    }

    method DrainPending(complete: bool) returns (output: string)
      requires Valid()
      modifies this`pending
      ensures Drained(output, pending) == Drain(secrets, old(pending), complete)
    {
      var text, index := pending, 0;
      output := "";
      assert text[0..] == text;
      while index < |text|
        invariant Reached(secrets, text, complete, index, output)
        decreases |text| - index
      {
        var tail := text[index..];
        if !complete && Undecided(secrets, tail) {
          break;
        }
        var token := Next(secrets, tail);
        ghost var index0, output0 := index, output;
        output := output + token.shown;
        index := index + token.width;
        DrainResumes(secrets, text, complete, index0, output0, token, index, output);
      }
      pending := text[index..];
    }

    /** Releases the retained tail only at a confirmed normal end of the text. */
    method Finish(complete: bool) returns (output: string)
      requires Valid()
      modifies this
      ensures closed
      ensures old(closed) ==> output == "" && pending == old(pending)
      ensures !old(closed) && complete ==> output == Scan(secrets, old(pending)) && pending == ""
      ensures !old(closed) && !complete ==> output == "" && pending == ""
    {
      if closed {
        return "";
      }
      closed := true;
      if complete {
        CompleteDrainIsScan(secrets, pending);
        output := DrainPending(true);
      } else {
        pending := "";
        output := "";
      }
    }
  }

  /** A whole use of the stream: the result never depends on how the text was cut. */
  method FilterChunks(values: seq<string>, chunks: seq<string>) returns (output: string)
    ensures Ordered(Table(values)) && output == Scan(Table(values), Concat(chunks))
  {
    var stream := new SecretTextStream(values);
    output := "";
    for i := 0 to |chunks|
      invariant stream.Valid() && !stream.closed && stream.secrets == Table(values)
      invariant Drained(output, stream.pending) == FeedAll(Table(values), chunks[..i])
    {
      assert chunks[..i + 1][..i] == chunks[..i];
      var released := stream.Feed(chunks[i]);
      output := output + released;
    }
    assert chunks[..|chunks|] == chunks;
    ChunkingIsInvisible(values, chunks);
    CompleteDrainIsScan(Table(values), stream.pending);
    var last := stream.Finish(true);
    output := output + last;
  }
}
