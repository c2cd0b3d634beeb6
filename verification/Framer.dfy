/** The line framer of lib/src/utils/execution.cc: chunks of a child's output in, trimmed
    lines out, one pending buffer per stream. */
module Framer {
  import opened Text
  import opened Streams

  datatype Channel = Stdin | Stdout | Stderr

  // ---------------------------------------------------------------- what the lines of a text are

  function Report(raw: string): seq<string> {
    if Trim(raw) == [] then [] else [Trim(raw)]
  }

  /** The trimmed nonempty lines that text completes when `pending` was read before it. */
  function CompletedLines(pending: string, text: string): seq<string>
    decreases |text|
  {
    if text == [] then []
    else if text[0] == '\n' then Report(pending) + CompletedLines([], text[1..])
    else CompletedLines(pending + [text[0]], text[1..])
  }

  /** What is pending after text: everything since the last newline, untrimmed. */
  function PendingAfter(pending: string, text: string): string
    decreases |text|
  {
    if text == [] then pending
    else if text[0] == '\n' then PendingAfter([], text[1..])
    else PendingAfter(pending + [text[0]], text[1..])
  }

  lemma ReadInTwoParts(pending: string, a: string, b: string)
    ensures CompletedLines(pending, a + b) == CompletedLines(pending, a) + CompletedLines(PendingAfter(pending, a), b)
    ensures PendingAfter(pending, a + b) == PendingAfter(PendingAfter(pending, a), b)
    decreases |a|
  {
    if a == [] {
      assert a + b == b;
    } else {
      assert (a + b)[1..] == a[1..] + b;
      ReadInTwoParts(if a[0] == '\n' then [] else pending + [a[0]], a[1..], b);
    }
  }

  lemma WithoutNewline(pending: string, s: string)
    requires '\n' !in s
    ensures CompletedLines(pending, s) == [] && PendingAfter(pending, s) == pending + s
    decreases |s|
  {
    if s == [] {
      assert pending + s == pending;
    } else {
      assert pending + s == pending + [s[0]] + s[1..];
      WithoutNewline(pending + [s[0]], s[1..]);
    }
  }

  lemma OneLine(pending: string, line: string)
    requires '\n' !in line
    ensures CompletedLines(pending, line + "\n") == Report(pending + line)
    ensures PendingAfter(pending, line + "\n") == []
  {
    WithoutNewline(pending, line);
    ReadInTwoParts(pending, line, "\n");
  }

  /** The first newline of a text completes one line; the rest is read afresh. */
  lemma FirstLine(pending: string, line: string, rest: string)
    requires '\n' !in line
    ensures CompletedLines(pending, line + "\n" + rest) == Report(pending + line) + CompletedLines([], rest)
    ensures PendingAfter(pending, line + "\n" + rest) == PendingAfter([], rest)
  {
    OneLine(pending, line);
    ReadInTwoParts(pending, line + "\n", rest);
  }

  /** The lines that a list of newline-free pieces stands for, the first one continuing what is
      pending. */
  function LinesOfPieces(pending: string, pieces: seq<string>): seq<string>
    decreases |pieces|
  {
    if pieces == [] then [] else Report(pending + pieces[0]) + LinesOfPieces([], pieces[1..])
  }

  lemma NextPiece(pending: string, pieces: seq<string>, i: nat)
    requires i < |pieces|
    ensures LinesOfPieces(pending, pieces[i..])
         == Report(pending + pieces[i]) + LinesOfPieces([], pieces[i + 1..])
  {
    assert pieces[i..][1..] == pieces[i + 1..];
  }

  /** CompletedLines against the plain reading of a text as a list of terminated lines. */
  lemma {:induction false} CompletedLinesOfLines(lines: seq<string>)
    requires forall l | l in lines :: '\n' !in l
    ensures CompletedLines([], Terminated(lines)) == LinesOfPieces([], lines)
    ensures PendingAfter([], Terminated(lines)) == []
  {
    if lines != [] {
      FirstLine([], lines[0], Terminated(lines[1..]));
      CompletedLinesOfLines(lines[1..]);
    }
  }

  // ---------------------------------------------------------------- what a chunk contributes

  /** data.find_last_of("\n") */
  function LastNewline(s: string): (k: Option<nat>)
    ensures k.None? <==> '\n' !in s
    ensures k.Some? ==> k.value < |s| && s[k.value] == '\n' && '\n' !in s[k.value + 1..]
  {
    if s == [] then None
    else if s[|s| - 1] == '\n' then
      assert s[|s|..] == [];
      Some(|s| - 1)
    else
      var k := LastNewline(s[..|s| - 1]);
      assert k.Some? ==> s[k.value + 1..] == s[..|s| - 1][k.value + 1..] + [s[|s| - 1]];
      k
  }

  /** The part of a chunk that process_line uses: all of it, or up to its last newline. */
  function Kept(chunk: string): string {
    var k := LastNewline(chunk);
    if k.None? then chunk else chunk[..k.value + 1]
  }

  /** The part behind the last newline, which process_line ignores. */
  function Dropped(chunk: string): string {
    chunk[|Kept(chunk)|..]
  }

  function Concat(chunks: seq<string>): string {
    if chunks == [] then [] else Concat(chunks[..|chunks| - 1]) + chunks[|chunks| - 1]
  }

  function KeptText(chunks: seq<string>): string {
    if chunks == [] then [] else KeptText(chunks[..|chunks| - 1]) + Kept(chunks[|chunks| - 1])
  }

  // ---------------------------------------------------------------- the user's callbacks

  datatype Call = Call(channel: Channel, line: string, more: bool)

  /** The lines one stream's callback was given. */
  function LinesTo(log: seq<Call>, channel: Channel): seq<string> {
    if log == [] then [] else
      var last := log[|log| - 1];
      LinesTo(log[..|log| - 1], channel) + if last.channel == channel then [last.line] else []
  }

  predicate Stopped(log: seq<Call>) {
    log != [] && !log[|log| - 1].more
  }

  /** No callback ran after one that answered false. */
  predicate StopsAtFirstRefusal(log: seq<Call>) {
    forall i | 0 <= i < |log| - 1 :: log[i].more
  }

  lemma LogGrows(log: seq<Call>, call: Call)
    ensures LinesTo(log + [call], call.channel) == LinesTo(log, call.channel) + [call.line]
    ensures forall c | c != call.channel :: LinesTo(log + [call], c) == LinesTo(log, c)
  {
    assert (log + [call])[..|log|] == log;
  }

  /** The two user callbacks. What they answer is up to them: any answer is possible. */
  class Client {
    var log: seq<Call>

    constructor ()
      ensures log == []
    {
      log := [];
    }

    method Invoke(channel: Channel, line: string) returns (more: bool)
      modifies this
      ensures log == old(log) + [Call(channel, line, more)]
    {
      more := *;
      log := log + [Call(channel, line, more)];
    }
  }

  /** stdout_buffer or stderr_buffer: the string process_line takes by reference. */
  class LineBuffer {
    var text: string

    constructor ()
      ensures text == []
    {
      text := [];
    }
  }

  // ---------------------------------------------------------------- splitting at newlines

  function SkipNewlines(s: string): (r: string)
    ensures |r| <= |s|
  {
    if s != [] && s[0] == '\n' then SkipNewlines(s[1..]) else s
  }

  /** boost::split_iterator over a token_finder(is_any_of("\n"), token_compress_on): runs of
      newlines separate, and there is always at least one token. */
  function Tokens(s: string): (r: seq<string>)
    ensures r != []
    decreases |s|
  {
    var k := IndexOf(s, '\n');
    if k == |s| then [s] else [s[..k]] + Tokens(SkipNewlines(s[k + 1..]))
  }

  lemma SkippedNewlines(s: string, t: string)
    ensures CompletedLines([], s + t) == CompletedLines([], SkipNewlines(s) + t)
    ensures PendingAfter([], s + t) == PendingAfter([], SkipNewlines(s) + t)
  {
    if s != [] && s[0] == '\n' {
      assert (s + t)[1..] == s[1..] + t;
      SkippedNewlines(s[1..], t);
    }
  }

  /** Compressed or not, the tokens carry exactly the lines. */
  lemma {:induction false} TokensAreLines(pending: string, s: string)
    ensures CompletedLines(pending, s + "\n") == LinesOfPieces(pending, Tokens(s))
    ensures PendingAfter(pending, s + "\n") == []
    decreases |s|
  {
    var k := IndexOf(s, '\n');
    if k == |s| {
      OneLine(pending, s);
    } else {
      var rest := s[k + 1..];
      SplitAtNewline(s, k);
      FirstLine(pending, s[..k], rest + "\n");
      SkippedNewlines(rest, "\n");
      TokensAreLines([], SkipNewlines(rest));
    }
  }

  lemma SplitAtNewline(s: string, k: nat)
    requires k < |s| && s[k] == '\n'
    ensures s + "\n" == s[..k] + "\n" + (s[k + 1..] + "\n")
    ensures s == s[..k] + "\n" + s[k + 1..]
  {
  }

  // ---------------------------------------------------------------- process_line

  /** The calls made while feeding one chunk: the lines in order, all accepted, or a first
      part of them that ends with the refused one. */
  ghost predicate Delivered(calls: seq<Call>, channel: Channel, lines: seq<string>, more: bool) {
    && |calls| <= |lines|
    && (forall i | 0 <= i < |calls| :: calls[i].channel == channel && calls[i].line == lines[i])
    && (forall i | 0 <= i < |calls| - 1 :: calls[i].more)
    && (more ==> |calls| == |lines| && (calls != [] ==> calls[|calls| - 1].more))
    && (!more ==> calls != [] && !calls[|calls| - 1].more)
  }

  method ProcessLine(data: string, buffer: LineBuffer, client: Client, channel: Channel)
    returns (more: bool, ghost calls: seq<Call>)
    modifies buffer, client
    ensures client.log == old(client.log) + calls
    ensures Delivered(calls, channel, CompletedLines(old(buffer.text), Kept(data)), more)
    ensures buffer.text == if more then PendingAfter(old(buffer.text), Kept(data)) else []
  {
    if data == [] {
      return true, [];
    }
    var lastNewline := LastNewline(data);
    if lastNewline.None? {
      WithoutNewline(buffer.text, data);
      buffer.text := buffer.text + data;
      return true, [];
    }
    var head := data[..lastNewline.value];
    assert Kept(data) == head + "\n";
    TokensAreLines(buffer.text, head);
    more, calls := DeliverTokens(Tokens(head), buffer, client, channel);
  }

  /** The loop of process_line over the tokens. */
  method DeliverTokens(tokens: seq<string>, buffer: LineBuffer, client: Client, channel: Channel)
    returns (more: bool, ghost calls: seq<Call>)
    requires tokens != []
    modifies buffer, client
    ensures client.log == old(client.log) + calls
    ensures Delivered(calls, channel, LinesOfPieces(old(buffer.text), tokens), more)
    ensures buffer.text == []
  {
    calls := [];
    ghost var done, todo := [], LinesOfPieces(buffer.text, tokens);
    ghost var lines, log := todo, client.log;
    assert tokens[0..] == tokens;
    for i := 0 to |tokens|
      invariant i > 0 ==> buffer.text == []
      invariant client.log == log + calls
      invariant lines == done + todo && todo == LinesOfPieces(buffer.text, tokens[i..])
      invariant Delivered(calls, channel, done, true)
    {
      NextPiece(buffer.text, tokens, i);
      ghost var report := Report(buffer.text + tokens[i]);
      ghost var added;
      more, added := DeliverToken(tokens[i], buffer, client, channel);
      todo := LinesOfPieces([], tokens[i + 1..]);
      DeliveredStep(calls, added, channel, done, report, todo, more);
      Associative(log, calls, added);
      Associative(done, report, todo);
      calls, done := calls + added, done + report;
      if !more {
        return false, calls;
      }
    }
    assert done + [] == done;
    more := true;
  }

  lemma DeliveredStep(calls: seq<Call>, added: seq<Call>, channel: Channel,
                      done: seq<string>, report: seq<string>, todo: seq<string>, more: bool)
    requires Delivered(calls, channel, done, true) && |report| <= 1 && |added| == |report|
    requires added == if report == [] then [] else [Call(channel, report[0], more)]
    requires report == [] ==> more
    ensures Delivered(calls + added, channel, done + report, more)
    ensures !more ==> Delivered(calls + added, channel, done + report + todo, more)
  {
  }

  /** The body of that loop. */
  method DeliverToken(token: string, buffer: LineBuffer, client: Client, channel: Channel)
    returns (more: bool, ghost calls: seq<Call>)
    modifies buffer, client
    ensures var report := Report(old(buffer.text) + token);
            calls == if report == [] then [] else [Call(channel, report[0], more)]
    ensures calls == [] ==> more
    ensures client.log == old(client.log) + calls
    ensures buffer.text == []
  {
    calls := [];
    buffer.text := buffer.text + token;
    buffer.text := Trim(buffer.text);
    if buffer.text == [] {
      return true, [];
    }
    more := client.Invoke(channel, buffer.text);
    calls := [Call(channel, buffer.text, more)];
    buffer.text := [];
  }
}
