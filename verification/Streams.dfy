/** Reading a text file line by line with getline (lib/src/utils/file.cc). */
module Streams {
  import opened Text

  /** The lines successive getline calls deliver; an unterminated last line counts when it is
      not empty. */
  function LinesOf(text: string): seq<string> {
    if text == [] then [] else
      var k := IndexOf(text, '\n');
      if k == |text| then [text] else [text[..k]] + LinesOf(text[k + 1..])
  }

  lemma {:induction false} LinesHaveNoBreak(text: string)
    ensures forall l | l in LinesOf(text) :: '\n' !in l
    decreases |text|
  {
    if text != [] {
      var k := IndexOf(text, '\n');
      if k == |text| {
        assert text[..k] == text;
      } else {
        LinesHaveNoBreak(text[k + 1..]);
      }
    }
  }

  function Terminated(lines: seq<string>): string {
    if lines == [] then [] else lines[0] + "\n" + Terminated(lines[1..])
  }

  lemma LinesOfFirst(line: string, rest: string)
    requires '\n' !in line
    ensures LinesOf(line + "\n" + rest) == [line] + LinesOf(rest)
  {
    var text := line + "\n" + rest;
    Associative(line, "\n", rest);
    IndexOfIs(line, "\n" + rest, '\n');
    assert text[..|line|] == line && text[|line| + 1..] == rest;
  }

  /** Writing lines out and reading them back with getline returns them all. */
  lemma {:induction false} LinesRoundTrip(lines: seq<string>)
    requires forall l | l in lines :: '\n' !in l
    ensures LinesOf(Terminated(lines)) == lines
  {
    if lines != [] {
      LinesOfFirst(lines[0], Terminated(lines[1..]));
      LinesRoundTrip(lines[1..]);
      assert lines == [lines[0]] + lines[1..];
    }
  }

  /** A last line without newline counts when it is not empty. */
  lemma {:induction false} LinesOfText(lines: seq<string>, last: string)
    requires '\n' !in last && forall l | l in lines :: '\n' !in l
    ensures LinesOf(Terminated(lines) + last) == lines + if last == [] then [] else [last]
  {
    if lines == [] {
      LastLine(last);
      assert [] + last == last;
    } else {
      var rest, ends := Terminated(lines[1..]), if last == [] then [] else [last];
      LinesOfText(lines[1..], last);
      LinesOfFirst(lines[0], rest + last);
      Associative(lines[0] + "\n", rest, last);
      Associative([lines[0]], lines[1..], ends);
      assert lines == [lines[0]] + lines[1..];
    }
  }

  lemma LastLine(last: string)
    requires '\n' !in last
    ensures LinesOf(last) == if last == [] then [] else [last]
  {
    IndexOfIs(last, [], '\n');
    assert last + [] == last;
  }

  /** A std::istream over text that is in memory: what has not been read yet. */
  class InputStream {
    var rest: string

    constructor (text: string)
      ensures rest == text
    {
      rest := text;
    }

    /** getline(in, line): false at the end of the stream. */
    method GetLine() returns (ok: bool, line: string)
      modifies this
      ensures ok <==> LinesOf(old(rest)) != []
      ensures ok ==> LinesOf(old(rest)) == [line] + LinesOf(rest) && |rest| < |old(rest)|
      ensures !ok ==> rest == old(rest)
    {
      if rest == [] {
        return false, [];
      }
      var k := IndexOf(rest, '\n');
      ok, line := true, rest[..k];
      assert k == |rest| ==> rest[..k] == rest;
      assert LinesOf(rest) == if k == |rest| then [rest] else [rest[..k]] + LinesOf(rest[k + 1..]);
      rest := if k == |rest| then [] else rest[k + 1..];
    }
  }
}
