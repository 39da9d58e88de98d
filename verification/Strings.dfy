/** White-space stripping, shared by the text-handling modules. */
module Strings {

  /** The characters removed by a white-space strip. */
  predicate IsSpace(c: char)
  {
    var n := c as int;
    || 0x09 <= n <= 0x0d || 0x1c <= n <= 0x20 || n == 0x85 || n == 0xa0 || n == 0x1680
    || 0x2000 <= n <= 0x200a || n == 0x2028 || n == 0x2029 || n == 0x202f || n == 0x205f || n == 0x3000
  }

  function StripLeft(s: string): string
  {
    if s != "" && IsSpace(s[0]) then StripLeft(s[1..]) else s
  }

  function StripRight(s: string): string
  {
    if s != "" && IsSpace(s[|s| - 1]) then StripRight(s[..|s| - 1]) else s
  }

  function Strip(s: string): string { StripRight(StripLeft(s)) }

  /** Stripping on the left does not get past a character that is no white space. */
  lemma {:induction false} StripLeftBefore(a: string, b: string) returns (rest: string)
    requires b != "" && !IsSpace(b[0])
    ensures StripLeft(a + b) == rest + b
    decreases |a|
  {
    if a != "" && IsSpace(a[0]) {
      assert (a + b)[1..] == a[1..] + b;
      rest := StripLeftBefore(a[1..], b);
    } else {
      assert a == "" ==> a + b == b;
      rest := a;
    }
  }

  /** Nor does stripping on the right. */
  lemma {:induction false} StripRightBehind(a: string, b: string)
    requires b != "" && !IsSpace(b[0])
    ensures StripRight(a + b) == a + StripRight(b)
    decreases |b|
  {
    var k := |b| - 1;
    assert (a + b)[|a + b| - 1] == b[k];
    if IsSpace(b[k]) {
      assert (a + b)[..|a + b| - 1] == a + b[..k];
      StripRightBehind(a, b[..k]);
    }
  }

  /** What a strip removes is white space, and what it leaves has none at its ends. */
  lemma {:induction false} StripLeftIs(s: string)
    ensures |StripLeft(s)| <= |s| && StripLeft(s) == s[|s| - |StripLeft(s)|..]
    ensures forall i :: 0 <= i < |s| - |StripLeft(s)| ==> IsSpace(s[i])
    ensures StripLeft(s) != "" ==> !IsSpace(StripLeft(s)[0])
    decreases |s|
  {
    if s != "" && IsSpace(s[0]) {
      StripLeftIs(s[1..]);
      assert forall i :: 0 < i < |s| ==> s[i] == s[1..][i - 1];
    }
  }

  lemma {:induction false} StripRightIs(s: string)
    ensures |StripRight(s)| <= |s| && StripRight(s) == s[..|StripRight(s)|]
    ensures forall i :: |StripRight(s)| <= i < |s| ==> IsSpace(s[i])
    ensures StripRight(s) != "" ==> !IsSpace(StripRight(s)[|StripRight(s)| - 1])
    decreases |s|
  {
    if s != "" && IsSpace(s[|s| - 1]) {
      StripRightIs(s[..|s| - 1]);
      assert forall i :: 0 <= i < |s| - 1 ==> s[i] == s[..|s| - 1][i];
    }
  }

  lemma StripIs(s: string) returns (from: nat, to: nat)
    ensures from <= to <= |s| && Strip(s) == s[from..to]
    ensures forall i :: 0 <= i < from || to <= i < |s| ==> IsSpace(s[i])
    ensures from < to ==> !IsSpace(s[from]) && !IsSpace(s[to - 1])
  {
    StripLeftIs(s);
    StripRightIs(StripLeft(s));
    from := |s| - |StripLeft(s)|;
    to := from + |Strip(s)|;
    assert forall i :: from <= i < |s| ==> s[i] == StripLeft(s)[i - from];
  }

  lemma StripIsEmpty(s: string)
    ensures Strip(s) == "" <==> forall i :: 0 <= i < |s| ==> IsSpace(s[i])
  {
    var from, to := StripIs(s);
  }

  function Join(lines: seq<string>, separator: string): string
  {
    if lines == [] then ""
    else if |lines| == 1 then lines[0]
    else lines[0] + separator + Join(lines[1..], separator)
  }

  /** The lines of a text, without their line feeds; a last line feed ends the last line. */
  function Lines(text: string): seq<string> { LinesFrom("", text) }

  function LinesFrom(line: string, rest: string): seq<string>
    decreases |rest|
  {
    if rest == "" then (if line == "" then [] else [line])
    else if rest[0] == '\n' then [line] + LinesFrom("", rest[1..])
    else LinesFrom(line + [rest[0]], rest[1..])
  }

  /** The line feed at the end of a text, if there is one. */
  function LastFeed(text: string): string
  {
    if text != "" && text[|text| - 1] == '\n' then "\n" else ""
  }

  lemma LineBeforeLines(line: string, later: seq<string>, rest: string)
    requires rest != "" && rest[0] == '\n' && later != [] && rest[1..] == Join(later, "\n") + LastFeed(rest[1..])
    requires rest[1..] != ""
    ensures line + rest == Join([line] + later, "\n") + LastFeed(rest)
  {
    assert ([line] + later)[1..] == later;
    var joined, last := Join(later, "\n"), LastFeed(rest);
    hide Join;
    assert rest == "\n" + rest[1..];
    assert line + ("\n" + (joined + last)) == (line + "\n" + joined) + last;
  }

  lemma {:induction false} LinesFromJoin(line: string, rest: string)
    requires '\n' !in line
    ensures var lines := LinesFrom(line, rest);
            && (forall i :: 0 <= i < |lines| ==> '\n' !in lines[i])
            && (lines == [] <==> line == "" && rest == "")
            && (lines != [] ==> line + rest == Join(lines, "\n") + LastFeed(rest))
    decreases |rest|
  {
    if rest == "" {
      assert line + rest == line;
    } else if rest[0] == '\n' {
      LinesFromJoin("", rest[1..]);
      var later := LinesFrom("", rest[1..]);
      if rest[1..] == "" {
        assert later == [] && rest == "\n" && [line] + later == [line];
      } else {
        assert "" + rest[1..] == rest[1..];
        LineBeforeLines(line, later, rest);
      }
    } else {
      LinesFromJoin(line + [rest[0]], rest[1..]);
      assert line + rest == (line + [rest[0]]) + rest[1..];
    }
  }

  /** The lines of a text hold no line feed, and joined by line feeds they are the text, up to one line
      feed at its end. */
  lemma LinesJoin(text: string)
    requires text != ""
    ensures forall i :: 0 <= i < |Lines(text)| ==> '\n' !in Lines(text)[i]
    ensures text == Join(Lines(text), "\n") + (if text[|text| - 1] == '\n' then "\n" else "")
  {
    LinesFromJoin("", text);
    assert "" + text == text;
  }

  function Concat(chunks: seq<string>): string
  {
    if chunks == [] then "" else Concat(chunks[..|chunks| - 1]) + chunks[|chunks| - 1]
  }

  lemma Nothing(a: string)
    ensures "" + a == a
  {
  }

  lemma Associative(a: string, b: string, c: string)
    ensures a + (b + c) == (a + b) + c
  {
  }
}
