/** What a whole run of the line framer delivers, and exactly when that is what the child wrote. */
module Framing {
  import opened Text
  import opened Streams
  import opened Framer

  function Delivery(chunks: seq<string>): seq<string> {
    CompletedLines([], KeptText(chunks))
  }

  /** Feeding one more chunk extends the delivery by the lines that chunk completes. */
  lemma DeliveryGrows(chunks: seq<string>, chunk: string)
    ensures Delivery(chunks + [chunk])
         == Delivery(chunks) + CompletedLines(PendingAfter([], KeptText(chunks)), Kept(chunk))
    ensures PendingAfter([], KeptText(chunks + [chunk]))
         == PendingAfter(PendingAfter([], KeptText(chunks)), Kept(chunk))
  {
    assert (chunks + [chunk])[..|chunks|] == chunks;
    ReadInTwoParts([], KeptText(chunks), Kept(chunk));
  }

  // ---------------------------------------------------------------- independence of the chunking

  /** Every chunk is free of newlines or ends in one. */
  predicate Aligned(chunks: seq<string>) {
    forall c | c in chunks :: Dropped(c) == []
  }

  lemma AlignedKeepsAll(chunks: seq<string>)
    requires Aligned(chunks)
    ensures KeptText(chunks) == Concat(chunks)
  {
    if chunks != [] {
      var last := chunks[|chunks| - 1];
      assert last in chunks;
      assert last == Kept(last) + Dropped(last);
      AlignedKeepsAll(chunks[..|chunks| - 1]);
    }
  }

  /** Two line-aligned ways to cut the same text deliver the same lines. */
  lemma AlignedChunkingIrrelevant(chunks: seq<string>, chunks': seq<string>)
    requires Aligned(chunks) && Aligned(chunks') && Concat(chunks) == Concat(chunks')
    ensures Delivery(chunks) == Delivery(chunks') == CompletedLines([], Concat(chunks))
  {
    AlignedKeepsAll(chunks);
    AlignedKeepsAll(chunks');
  }

  // ---------------------------------------------------------------- exactly when nothing is lost

  /** Whatever is dropped behind a newline, and would have been finished by a later newline,
      is blank. */
  predicate NothingLost(chunks: seq<string>) {
    forall k, m | 0 <= k < m < |chunks| && '\n' in chunks[m] :: Blank(Dropped(chunks[k]))
  }

  function Volume(lines: seq<string>): nat {
    if lines == [] then 0 else |lines[0]| + Volume(lines[1..])
  }

  lemma VolumeAdds(a: seq<string>, b: seq<string>)
    ensures Volume(a + b) == Volume(a) + Volume(b)
  {
    if a == [] {
      assert a + b == b;
    } else {
      assert (a + b)[1..] == a[1..] + b;
      VolumeAdds(a[1..], b);
    }
  }

  lemma VolumeOfReport(raw: string)
    ensures Volume(Report(raw)) == |Trim(raw)|
  {
  }

  /** The dropped text that the next line should have started with. */
  function Carry(chunks: seq<string>): string {
    if chunks == [] then [] else
      var last := chunks[|chunks| - 1];
      if '\n' in last then Dropped(last) else Carry(chunks[..|chunks| - 1])
  }

  lemma DroppedIsUnterminated(chunk: string)
    ensures chunk == Kept(chunk) + Dropped(chunk) && '\n' !in Dropped(chunk)
    ensures '\n' in chunk ==> exists head :: Kept(chunk) == head + "\n"
    ensures '\n' !in chunk ==> Kept(chunk) == chunk && Dropped(chunk) == []
  {
    var k := LastNewline(chunk);
    if k.Some? {
      assert Kept(chunk) == chunk[..k.value] + "\n";
    }
  }

  /** Reading a whole chunk, against reading only what is kept of it. */
  lemma ReadChunk(p: string, chunk: string)
    ensures CompletedLines(p, chunk) == CompletedLines(p, Kept(chunk))
    ensures PendingAfter(p, chunk) == PendingAfter(p, Kept(chunk)) + Dropped(chunk)
    ensures '\n' in chunk ==> PendingAfter(p, Kept(chunk)) == []
    ensures '\n' !in chunk ==> CompletedLines(p, chunk) == [] && PendingAfter(p, chunk) == p + chunk
  {
    DroppedIsUnterminated(chunk);
    ReadInTwoParts(p, Kept(chunk), Dropped(chunk));
    WithoutNewline(PendingAfter(p, Kept(chunk)), Dropped(chunk));
    if '\n' in chunk {
      var head :| Kept(chunk) == head + "\n";
      ReadInTwoParts(p, head, "\n");
    } else {
      WithoutNewline(p, chunk);
    }
  }

  /** A prefix of the pending text changes at most the next line: it makes no difference when
      it is blank, and makes the delivery longer when it is not. */
  lemma PrefixChangesOneLine(d: string, p: string, text: string)
    requires '\n' in text
    ensures Blank(d) ==> CompletedLines(d + p, text) == CompletedLines(p, text)
    ensures !Blank(d) ==> Volume(CompletedLines(p, text)) < Volume(CompletedLines(d + p, text))
  {
    var k := IndexOf(text, '\n');
    assert text[..|text|] == text;
    SplitAtNewline(text, k);
    var line, rest := text[..k], CompletedLines([], text[k + 1..]);
    FirstLine(p, line, text[k + 1..]);
    FirstLine(d + p, line, text[k + 1..]);
    Associative(d, p, line);
    TrimWithPrefix(d, p + line);
    VolumeAdds(Report(p + line), rest);
    VolumeAdds(Report(d + (p + line)), rest);
    VolumeOfReport(p + line);
    VolumeOfReport(d + (p + line));
  }

  lemma Extend(before: seq<string>, last: string)
    ensures Concat(before + [last]) == Concat(before) + last
    ensures KeptText(before + [last]) == KeptText(before) + Kept(last)
    ensures Carry(before + [last]) == if '\n' in last then Dropped(last) else Carry(before)
  {
    assert (before + [last])[..|before|] == before;
  }

  /** What is pending of the whole text is the carry, then what is pending of the kept text. */
  lemma {:induction false} PendingOfWhole(chunks: seq<string>)
    ensures PendingAfter([], Concat(chunks)) == Carry(chunks) + PendingAfter([], KeptText(chunks))
  {
    if chunks != [] {
      var before, last := chunks[..|chunks| - 1], chunks[|chunks| - 1];
      assert chunks == before + [last];
      var d, p := Carry(before), PendingAfter([], KeptText(before));
      PendingOfWhole(before);
      Extend(before, last);
      ReadInTwoParts([], Concat(before), last);
      ReadInTwoParts([], KeptText(before), Kept(last));
      DroppedIsUnterminated(last);
      ReadChunk(d + p, last);
      ReadChunk(p, last);
      Associative(d, p, last);
    }
  }

  /** What one more chunk adds, on the kept text and on the whole text. */
  lemma ChunkAdds(before: seq<string>, last: string)
    ensures var p := PendingAfter([], KeptText(before));
            var kept, whole := CompletedLines(p, Kept(last)), CompletedLines(Carry(before) + p, last);
            && Delivery(before + [last]) == Delivery(before) + kept
            && CompletedLines([], Concat(before + [last])) == CompletedLines([], Concat(before)) + whole
            && ('\n' !in last || Blank(Carry(before)) ==> kept == whole)
            && ('\n' in last && !Blank(Carry(before)) ==> Volume(kept) < Volume(whole))
  {
    var p, d := PendingAfter([], KeptText(before)), Carry(before);
    Extend(before, last);
    DeliveryGrows(before, last);
    PendingOfWhole(before);
    ReadInTwoParts([], Concat(before), last);
    ReadChunk(p, last);
    ReadChunk(d + p, last);
    if '\n' in last {
      PrefixChangesOneLine(d, p, last);
    }
  }

  predicate AllDroppedBlank(chunks: seq<string>) {
    forall k | 0 <= k < |chunks| :: Blank(Dropped(chunks[k]))
  }

  lemma NothingLostExtends(before: seq<string>, last: string)
    ensures NothingLost(before + [last])
       <==> NothingLost(before) && ('\n' in last ==> AllDroppedBlank(before))
    ensures AllDroppedBlank(before + [last]) <==> AllDroppedBlank(before) && Blank(Dropped(last))
  {
    var chunks := before + [last];
    assert forall k | 0 <= k < |before| :: before[k] == chunks[k];
    assert chunks[|before|] == last;
    if NothingLost(chunks) && '\n' in last {
      forall k | 0 <= k < |before| ensures Blank(Dropped(before[k])) {
        assert '\n' in chunks[|before|];
      }
    }
  }

  lemma {:induction false} CarryBlank(chunks: seq<string>)
    requires NothingLost(chunks)
    ensures Blank(Carry(chunks)) <==> AllDroppedBlank(chunks)
  {
    if chunks != [] {
      var before, last := chunks[..|chunks| - 1], chunks[|chunks| - 1];
      assert chunks == before + [last];
      Extend(before, last);
      NothingLostExtends(before, last);
      DroppedIsUnterminated(last);
      CarryBlank(before);
    }
  }

  /** Nothing lost: the same lines. Something lost: strictly less text is delivered. */
  lemma {:induction false} WholeTextVolume(chunks: seq<string>)
    ensures NothingLost(chunks) ==> Delivery(chunks) == CompletedLines([], Concat(chunks))
    ensures Volume(Delivery(chunks)) <= Volume(CompletedLines([], Concat(chunks)))
    ensures !NothingLost(chunks) ==> Volume(Delivery(chunks)) < Volume(CompletedLines([], Concat(chunks)))
  {
    if chunks != [] {
      var before, last := chunks[..|chunks| - 1], chunks[|chunks| - 1];
      assert chunks == before + [last];
      WholeTextVolume(before);
      ChunkAdds(before, last);
      NothingLostExtends(before, last);
      var p := PendingAfter([], KeptText(before));
      VolumeAdds(Delivery(before), CompletedLines(p, Kept(last)));
      VolumeAdds(CompletedLines([], Concat(before)), CompletedLines(Carry(before) + p, last));
      if NothingLost(before) {
        CarryBlank(before);
      }
    }
  }

  /** The framer delivers the completed lines of everything the child wrote if and only if
      every dropped tail that a later newline finishes is blank. */
  lemma DeliversWholeTextIff(chunks: seq<string>)
    ensures Delivery(chunks) == CompletedLines([], Concat(chunks)) <==> NothingLost(chunks)
  {
    WholeTextVolume(chunks);
  }

  /** It delivers every line, the unterminated last one included, if and only if moreover
      nothing but blanks follows the last newline. */
  lemma DeliversEveryLineIff(chunks: seq<string>)
    ensures Delivery(chunks) == CompletedLines([], Concat(chunks) + "\n")
       <==> NothingLost(chunks) && Blank(PendingAfter([], Concat(chunks)))
  {
    var whole, p := CompletedLines([], Concat(chunks)), PendingAfter([], Concat(chunks));
    WholeTextVolume(chunks);
    ReadInTwoParts([], Concat(chunks), "\n");
    OneLine(p, []);
    assert p + [] == p && [] + "\n" == "\n";
    VolumeAdds(whole, Report(p));
    VolumeOfReport(p);
    TrimOfBlank(p);
    assert Report(p) == [] ==> whole + Report(p) == whole;
  }

  lemma KeptIs(head: string, tail: string)
    requires head != [] && head[|head| - 1] == '\n' && '\n' !in tail
    ensures Kept(head + tail) == head
  {
    var chunk := head + tail;
    var k := LastNewline(chunk);
    assert chunk[|head| - 1] == '\n' && chunk[..|head|] == head;
    assert forall i | |head| <= i < |chunk| :: chunk[i] == tail[i - |head|];
    assert forall i | k.value < i < |chunk| :: chunk[i] == chunk[k.value + 1..][i - k.value - 1];
  }

  /** In general the cut matters. Any chunk with text behind its last newline, and the newline
      that finishes this text in the next read: the line is lost, or loses its beginning, although
      the same text in one read is delivered whole. */
  lemma ChunkingMatters(chunk: string)
    requires !Blank(Dropped(chunk))
    ensures Concat([chunk, "\n"]) == Concat([chunk + "\n"])
    ensures Delivery([chunk, "\n"]) != Delivery([chunk + "\n"])
  {
    TextOfTwo(chunk, "\n");
    TextOfOne(chunk + "\n");
    LossInTwo(chunk, "\n");
    DeliversWholeTextIff([chunk, "\n"]);
    DeliversWholeTextIff([chunk + "\n"]);
  }

  /** Such chunks exist. */
  lemma LossyChunk()
    ensures !Blank(Dropped("a\nb"))
  {
    KeptIs("a\n", "b");
    assert "a\n" + "b" == "a\nb";
    assert Dropped("a\nb") == "b" && "b"[0] == 'b';
  }

  lemma TextOfOne(x: string)
    ensures Concat([x]) == x && NothingLost([x])
  {
    assert [] + x == x && [x][..0] == [];
  }

  lemma TextOfTwo(x: string, y: string)
    ensures Concat([x, y]) == x + y
  {
    TextOfOne(x);
    assert [x, y][..1] == [x];
  }

  lemma LossInTwo(x: string, y: string)
    ensures NothingLost([x, y]) <==> ('\n' in y ==> Blank(Dropped(x)))
  {
    var xs := [x, y];
    if NothingLost(xs) && '\n' in y {
      assert '\n' in xs[1];
      assert Blank(Dropped(xs[0]));
    }
  }

  // ---------------------------------------------------------------- one chunk in plain words

  /** The lines are the raw ones in their order, each without the blanks around it, blank ones
      left out. */
  ghost predicate AreTrims(raws: seq<string>, lines: seq<string>)
    decreases |raws|
  {
    if raws == [] then lines == []
    else if Blank(raws[0]) then AreTrims(raws[1..], lines)
    else lines != [] && Trims(raws[0], lines[0]) && AreTrims(raws[1..], lines[1..])
  }

  lemma {:induction false} PiecesAreTrims(pending: string, pieces: seq<string>)
    requires pieces != []
    ensures AreTrims([pending + pieces[0]] + pieces[1..], LinesOfPieces(pending, pieces))
    decreases |pieces|
  {
    var raw, rest := pending + pieces[0], pieces[1..];
    var raws := [raw] + rest;
    assert raws[1..] == rest;
    if rest != [] {
      PiecesAreTrims([], rest);
      assert [] + rest[0] == rest[0];
      assert [rest[0]] + rest[1..] == rest;
    }
    TrimOfBlank(raw);
    TrimTrims(raw);
    ReportFirst(raw, LinesOfPieces([], rest));
  }

  lemma ReportFirst(raw: string, later: seq<string>)
    ensures Trim(raw) == [] ==> Report(raw) + later == later
    ensures Trim(raw) != [] ==> var all := Report(raw) + later; all != [] && all[0] == Trim(raw) && all[1..] == later
  {
  }

  lemma {:induction false} CompletedPieces(pending: string, lines: seq<string>)
    requires lines != [] && forall l | l in lines :: '\n' !in l
    ensures CompletedLines(pending, Terminated(lines)) == LinesOfPieces(pending, lines)
    ensures PendingAfter(pending, Terminated(lines)) == []
  {
    FirstLine(pending, lines[0], Terminated(lines[1..]));
    CompletedLinesOfLines(lines[1..]);
  }

  lemma {:induction false} TerminatedEnds(lines: seq<string>)
    requires lines != []
    ensures var text := Terminated(lines); text != [] && text[|text| - 1] == '\n'
  {
    if |lines| > 1 {
      TerminatedEnds(lines[1..]);
    }
  }

  /** A chunk that consists of terminated lines and a rest without newline. Without a line it only
      adds the rest to what is pending. Otherwise its lines are handed out, the first one behind
      what was pending, and the rest is lost. */
  lemma ChunkLaw(pending: string, lines: seq<string>, rest: string)
    requires '\n' !in rest && forall l | l in lines :: '\n' !in l
    ensures var chunk := Terminated(lines) + rest;
            var (out, left) := (CompletedLines(pending, Kept(chunk)), PendingAfter(pending, Kept(chunk)));
            if lines == [] then out == [] && left == pending + rest
            else AreTrims([pending + lines[0]] + lines[1..], out) && left == []
  {
    if lines == [] {
      assert Terminated(lines) + rest == rest;
      WithoutNewline(pending, rest);
    } else {
      TerminatedEnds(lines);
      KeptIs(Terminated(lines), rest);
      CompletedPieces(pending, lines);
      PiecesAreTrims(pending, lines);
    }
  }

  /** A text with blanks around it. */
  lemma TabAndReturn(line: string)
    requires '\n' !in line && Trimmed(line) && line != []
    ensures CompletedLines([], "\t" + line + "\r\n") == [line]
  {
    var raw := "\t" + line + "\r";
    assert "\t" + line + "\r\n" == raw + "\n";
    OneLine([], raw);
    assert [] + raw == raw;
    Associative("\t", line, "\r");
    TrimLeftBlankPrefix("\t", line + "\r");
    TrimLeftKeepsSuffix(line, "\r");
    TrimRightBlankSuffix(line, "\r");
    TrimOfTrimmed(line);
  }

  // ---------------------------------------------------------------- texts that no cut can harm

  /** The lines completed behind the first newline. */
  function LaterLines(text: string): seq<string> {
    var k := IndexOf(text, '\n');
    if k == |text| then [] else CompletedLines([], text[k + 1..])
  }

  lemma LaterLinesAre(line: string, rest: string)
    requires '\n' !in line
    ensures LaterLines(line + ("\n" + rest)) == CompletedLines([], rest)
  {
    IndexOfIs(line, "\n" + rest, '\n');
    TakeDrop(line, "\n" + rest);
    assert (line + ("\n" + rest))[|line| + 1..] == rest;
  }

  lemma FirstNewline(text: string) returns (line: string, rest: string)
    requires '\n' in text
    ensures text == line + ("\n" + rest) && '\n' !in line
  {
    var k := IndexOf(text, '\n');
    assert text[..|text|] == text;
    line, rest := text[..k], text[k + 1..];
    assert text == line + ("\n" + rest);
  }

  lemma LaterLinesGrow(a: string, b: string)
    requires '\n' in a
    ensures LaterLines(a + b) == LaterLines(a) + CompletedLines(PendingAfter([], a), b)
  {
    var line, rest := FirstNewline(a);
    Associative(line, "\n", rest);
    FirstLine([], line, rest);
    ReadInTwoParts([], rest, b);
    Associative(line, "\n" + rest, b);
    Associative("\n", rest, b);
    LaterLinesAre(line, rest);
    LaterLinesAre(line, rest + b);
  }

  lemma NoNewlineNoLaterLines(text: string)
    requires '\n' !in text
    ensures LaterLines(text) == []
  {
    IndexOfIs(text, [], '\n');
    assert text + [] == text;
  }

  lemma {:induction false} NoNewlineNoCarry(chunks: seq<string>)
    requires '\n' !in Concat(chunks)
    ensures Carry(chunks) == []
  {
    if chunks != [] {
      var before, last := chunks[..|chunks| - 1], chunks[|chunks| - 1];
      assert '\n' !in last by {
        assert forall i | 0 <= i < |last| :: Concat(chunks)[|Concat(before)| + i] == last[i];
      }
      NoNewlineNoCarry(before);
    }
  }

  /** No cut of such a text loses anything. */
  lemma {:induction false} HarmlessCut(chunks: seq<string>)
    requires LaterLines(Concat(chunks)) == []
    ensures Delivery(chunks) == CompletedLines([], Concat(chunks))
  {
    if chunks != [] {
      var before, last := chunks[..|chunks| - 1], chunks[|chunks| - 1];
      assert chunks == before + [last];
      Extend(before, last);
      ChunkAdds(before, last);
      var p := PendingAfter([], KeptText(before));
      var kept, whole := CompletedLines(p, Kept(last)), CompletedLines(Carry(before) + p, last);
      if '\n' in Concat(before) {
        LaterLinesGrow(Concat(before), last);
        PendingOfWhole(before);
        assert whole == [] && Volume(whole) == 0;
      } else {
        NoNewlineNoLaterLines(Concat(before));
        NoNewlineNoCarry(before);
      }
      HarmlessCut(before);
    }
  }

  /** Otherwise some nonblank text between two newlines can be cut off from the second one. */
  lemma {:induction false} LaterLine(text: string) returns (a: string, b: string)
    requires LaterLines(text) != []
    ensures text == a + ("\n" + b) && '\n' in a && !Blank(PendingAfter([], a))
  {
    var before, c := text[..|text| - 1], text[|text| - 1];
    assert text == before + [c];
    if LaterLines(before) != [] {
      var b';
      a, b' := LaterLine(before);
      b := b' + [c];
    } else {
      if '\n' !in before {
        OnlyLastNewline(before, c);
      }
      a, b := before, [];
      LaterLinesGrow(before, [c]);
      CompletedByOne(PendingAfter([], before), c);
    }
  }

  lemma OnlyLastNewline(before: string, c: char)
    requires '\n' !in before
    ensures LaterLines(before + [c]) == []
  {
    var text := before + [c];
    if c == '\n' {
      LaterLinesAre(before, []);
      assert [c] == "\n" + [];
    } else {
      NoNewlineNoLaterLines(text);
    }
  }

  lemma CompletedByOne(pending: string, c: char)
    requires CompletedLines(pending, [c]) != []
    ensures c == '\n' && !Blank(pending)
  {
    assert [c][1..] == [];
    TrimOfBlank(pending);
  }

  lemma HarmfulCut(a: string, b: string)
    requires '\n' in a && !Blank(PendingAfter([], a))
    ensures Concat([a, "\n" + b]) == a + ("\n" + b)
    ensures Delivery([a, "\n" + b]) != CompletedLines([], a + ("\n" + b))
  {
    TextOfTwo(a, "\n" + b);
    ReadChunk([], a);
    assert Dropped(a) == PendingAfter([], a);
    assert ("\n" + b)[0] == '\n';
    LossInTwo(a, "\n" + b);
    DeliversWholeTextIff([a, "\n" + b]);
  }

  predicate Nonempty(chunks: seq<string>) {
    forall c | c in chunks :: c != []
  }

  ghost predicate EveryCutDelivers(text: string) {
    forall chunks | Concat(chunks) == text && Nonempty(chunks) :: Delivery(chunks) == CompletedLines([], text)
  }

  /** A condition on the output alone: every way to cut it into reads delivers its completed lines
      if and only if all lines completed behind its first newline are blank. */
  lemma EveryCutDeliversIff(text: string)
    ensures EveryCutDelivers(text) <==> LaterLines(text) == []
  {
    if LaterLines(text) == [] {
      HarmlessText(text);
    } else {
      HarmfulText(text);
    }
  }

  lemma HarmlessText(text: string)
    requires LaterLines(text) == []
    ensures EveryCutDelivers(text)
  {
    forall chunks | Concat(chunks) == text && Nonempty(chunks) ensures Delivery(chunks) == CompletedLines([], text) {
      HarmlessCut(chunks);
    }
  }

  lemma HarmfulText(text: string)
    requires LaterLines(text) != []
    ensures !EveryCutDelivers(text)
  {
    var a, b := LaterLine(text);
    HarmfulCut(a, b);
    assert Nonempty([a, "\n" + b]);
  }
}
