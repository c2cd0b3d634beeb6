/** Whole dumps: a fabric written out in the syntax of the four patterns and collected again. */
module Dump {
  import opened Text
  import opened FirstWins
  import opened Regex
  import opened Streams
  import opened Infiniband

  // ---------------------------------------------------------------- a written record is one line

  /** No literal of the form has a line break in it. */
  predicate OneLine(p: Pattern) {
    match p
    case End => true
    case Lit(text, next) => '\n' !in text && OneLine(next)
    case Slot(_, _, next) => OneLine(next)
    case Gap(next) => OneLine(next)
    case Group(next) => OneLine(next)
  }

  lemma {:induction false} WriteOneLine(p: Pattern, fields: seq<string>, gaps: seq<string>)
    requires |fields| == Fields(p) && |gaps| == Gaps(p) && OneLine(p) && NoBreaks(fields) && NoBreaks(gaps)
    ensures '\n' !in Write(p, fields, gaps)
  {
    match p
    case End =>
    case Lit(_, next) => WriteOneLine(next, fields, gaps);
    case Slot(_, _, next) => WriteOneLine(next, fields[1..], gaps);
    case Gap(next) => WriteOneLine(next, fields, gaps[1..]);
    case Group(next) => WriteOneLine(next, fields[1..], gaps);
  }

  lemma QuotedOneLine(cls: Class, next: Pattern)
    requires OneLine(next)
    ensures OneLine(Quoted(cls, next))
  {
    assert OneLine(Slot(cls, 1, Lit("\"", next)));
  }

  lemma BracketedOneLine(next: Pattern)
    requires OneLine(next)
    ensures OneLine(Bracketed(next))
  {
    assert OneLine(Slot(Digit, 1, Lit("]", next)));
  }

  lemma KeywordOneLine(word: string, next: Pattern)
    requires OneLine(next) && '\n' !in word
    ensures OneLine(Keyword(word, next))
  {
    assert OneLine(Lit(word, Gap(next)));
  }

  lemma EndOneLine()
    ensures OneLine(LID_AND_SPEED)
  {
    var number := Slot(Digit, 1, Gap(Slot(AnyChar, 0, End)));
    assert OneLine(Slot(AnyChar, 0, End));
    KeywordOneLine("lid", number);
  }

  lemma HeadersOneLine()
    ensures OneLine(SWITCH) && OneLine(HOST)
  {
    var last := Slot(Word, 1, Slot(AnyChar, 0, End));
    assert OneLine(last.next);
    QuotedOneLine(NotQuote, Gap(last));
    KeywordOneLine("#", Quoted(NotQuote, Gap(last)));
    QuotedOneLine(WordOrHyphen, Keyword("#", Quoted(NotQuote, Gap(last))));
    QuotedOneLine(NotQuote, End);
    KeywordOneLine("#", Quoted(NotQuote, End));
    QuotedOneLine(WordOrHyphen, Keyword("#", Quoted(NotQuote, End)));
    assert OneLine(SWITCH.next.next) && OneLine(HOST.next.next);
  }

  lemma SwitchPortOneLine()
    ensures OneLine(SWITCH_PORT)
  {
    EndOneLine();
    QuotedOneLine(NotQuote, LID_AND_SPEED);
    var described := Keyword("#", Quoted(NotQuote, LID_AND_SPEED));
    KeywordOneLine("#", Quoted(NotQuote, LID_AND_SPEED));
    BracketedOneLine(Group(described));
    QuotedOneLine(WordOrHyphen, Bracketed(Group(described)));
    BracketedOneLine(Gap(Quoted(WordOrHyphen, Bracketed(Group(described)))));
  }

  lemma HostPortOneLine()
    ensures OneLine(HOST_PORT)
  {
    EndOneLine();
    var peer := Gap(Quoted(NotQuote, LID_AND_SPEED));
    QuotedOneLine(NotQuote, LID_AND_SPEED);
    var lmc := Keyword("lmc", Slot(Digit, 1, peer));
    KeywordOneLine("lmc", Slot(Digit, 1, peer));
    var lid := Lit("lid", Gap(Slot(Digit, 1, lmc)));
    assert OneLine(lid.next);
    KeywordOneLine("#", lid);
    BracketedOneLine(Keyword("#", lid));
    QuotedOneLine(NotQuote, Bracketed(Keyword("#", lid)));
    assert OneLine(HOST_PORT.next.next.next);
  }

  lemma LineHasNoBreak(r: Record, layout: Layout)
    requires Fits(r, layout) && NoBreaks(FieldsOf(r, layout.rest)) && NoBreaks(layout.gaps)
    ensures '\n' !in LineOf(r, layout)
  {
    FieldsFit(r, layout.rest);
    HeadersOneLine();
    SwitchPortOneLine();
    HostPortOneLine();
    WriteOneLine(FormOf(r), FieldsOf(r, layout.rest), layout.gaps);
  }

  // ---------------------------------------------------------------- a dump of records

  /** A line of a dump: a record in some layout, or a line that has none of the four forms. */
  datatype Line = Written(record: Record, layout: Layout) | Noise(text: string)

  /** A record whose texts are in their classes, with numbers that fit an int. */
  predicate Printable(line: Line) {
    match line
    case Written(r, layout) =>
      Fits(r, layout) && InRange(r) && NoBreaks(FieldsOf(r, layout.rest)) && NoBreaks(layout.gaps)
    case Noise(text) => Read(text) == Other && '\n' !in text
  }

  predicate AllPrintable(dump: seq<Line>) {
    forall l | l in dump :: Printable(l)
  }

  function TextOf(line: Line): string
    requires Printable(line)
  {
    if line.Written? then LineOf(line.record, line.layout) else line.text
  }

  function Texts(dump: seq<Line>): seq<string>
    requires AllPrintable(dump)
  {
    seq(|dump|, i requires 0 <= i < |dump| => TextOf(dump[i]))
  }

  /** What the dump was made from, texts trimmed. */
  function Records(dump: seq<Line>): seq<Record> {
    seq(|dump|, i requires 0 <= i < |dump| => if dump[i].Written? then TrimmedTexts(dump[i].record) else Other)
  }

  /** Reading the lines of a printed dump recovers its records, line by line. */
  lemma DumpRead(dump: seq<Line>)
    requires AllPrintable(dump)
    ensures ReadAll(LinesOf(Terminated(Texts(dump)))) == Records(dump)
  {
    var texts := Texts(dump);
    forall i | 0 <= i < |texts| ensures '\n' !in texts[i] && Read(texts[i]) == Records(dump)[i] {
      assert dump[i] in dump;
      if dump[i].Written? {
        LineHasNoBreak(dump[i].record, dump[i].layout);
        ReadWritten(dump[i].record, dump[i].layout);
      }
    }
    LinesRoundTrip(texts);
  }

  // ---------------------------------------------------------------- listing a fabric

  /** The records list the fabric: its switches and hosts and no others, in any order and any
      number of times, and its connections in order, each below a header of its origin. */
  ghost predicate Lists(records: seq<Record>, f: Fabric) {
    && (forall r | r in records :: Belongs(r, f))
    && (forall g | g in f.switches :: SwitchRecord(f.switches[g]) in records)
    && (forall g | g in f.hosts :: HostRecord(f.hosts[g]) in records)
    && ConnectionsMatch(records, f.connections)
  }

  predicate Belongs(r: Record, f: Fabric) {
    match r
    case SwitchRecord(s) => Get(f.switches, s.guid) == Some(s)
    case HostRecord(h) => Get(f.hosts, h.guid) == Some(h)
    case Overflow => false
    case _ => true
  }

  /** Every key is the guid of its record. */
  predicate Keyed(f: Fabric) {
    && (forall g | g in f.switches :: f.switches[g].guid == g)
    && (forall g | g in f.hosts :: f.hosts[g].guid == g)
  }

  lemma {:induction false} ScanDefined(records: seq<Record>)
    ensures Scan(records).Some? <==> Overflow !in records
  {
    if records != [] {
      var before, last := records[..|records| - 1], records[|records| - 1];
      assert records == before + [last];
      ScanDefined(before);
    }
  }

  lemma {:induction false} SwitchPairsAre(records: seq<Record>, pair: (string, Switch))
    ensures pair in SwitchPairs(records) <==> pair.0 == pair.1.guid && SwitchRecord(pair.1) in records
  {
    if records != [] {
      var before, last := records[..|records| - 1], records[|records| - 1];
      assert records == before + [last];
      SwitchPairsAre(before, pair);
    }
  }

  lemma {:induction false} HostPairsAre(records: seq<Record>, pair: (string, Host))
    ensures pair in HostPairs(records) <==> pair.0 == pair.1.guid && HostRecord(pair.1) in records
  {
    if records != [] {
      var before, last := records[..|records| - 1], records[|records| - 1];
      assert records == before + [last];
      HostPairsAre(before, pair);
    }
  }

  /** A scan of any listing of a fabric collects the fabric. */
  lemma ListingCollected(records: seq<Record>, f: Fabric)
    requires Lists(records, f) && Keyed(f)
    ensures Scan(records).Some? && Scan(records).value.fabric == f
  {
    ScanDefined(records);
    ScanLaw(records);
    SwitchesCollected(records, f);
    HostsCollected(records, f);
    ConnectionsCollected(records, f.connections, Scan(records).value.fabric.connections);
  }

  lemma SwitchesCollected(records: seq<Record>, f: Fabric)
    requires Lists(records, f) && Keyed(f)
    ensures EmplaceAll(map[], SwitchPairs(records)) == f.switches
  {
    forall p | p in SwitchPairs(records) ensures Get(f.switches, p.0) == Some(p.1) {
      SwitchPairsAre(records, p);
      assert Belongs(SwitchRecord(p.1), f);
    }
    forall g | g in f.switches ensures (g, f.switches[g]) in SwitchPairs(records) {
      SwitchPairsAre(records, (g, f.switches[g]));
    }
    EmplaceAllCovers(f.switches, SwitchPairs(records));
  }

  lemma HostsCollected(records: seq<Record>, f: Fabric)
    requires Lists(records, f) && Keyed(f)
    ensures EmplaceAll(map[], HostPairs(records)) == f.hosts
  {
    forall p | p in HostPairs(records) ensures Get(f.hosts, p.0) == Some(p.1) {
      HostPairsAre(records, p);
      assert Belongs(HostRecord(p.1), f);
    }
    forall g | g in f.hosts ensures (g, f.hosts[g]) in HostPairs(records) {
      HostPairsAre(records, (g, f.hosts[g]));
    }
    EmplaceAllCovers(f.hosts, HostPairs(records));
  }

  lemma ConnectionsCollected(records: seq<Record>, a: seq<Connection>, b: seq<Connection>)
    requires ConnectionsMatch(records, a) && ConnectionsMatch(records, b)
    ensures a == b
  {
    var positions := PortPositions(records);
    forall j | 0 <= j < |a| ensures a[j] == b[j] {
      assert IsConnectionAt(records, positions[j], a[j]) && IsConnectionAt(records, positions[j], b[j]);
    }
  }

  /** Printing a listing of a fabric, with any blanks and any other lines in between, and running
      the line loop over the text recovers the fabric. */
  lemma FabricRoundTrip(dump: seq<Line>, f: Fabric)
    requires AllPrintable(dump) && Lists(Records(dump), f) && Keyed(f)
    ensures var scan := Scan(ReadAll(LinesOf(Terminated(Texts(dump)))));
            scan.Some? && scan.value.fabric == f
  {
    DumpRead(dump);
    ListingCollected(Records(dump), f);
  }

  // ---------------------------------------------------------------- the records that lines stand for

  /** A trimmed text of the class, in one line. */
  predicate Clean(s: string, cls: Class) {
    AllIn(s, cls) && Trimmed(s) && '\n' !in s
  }

  /** Guids of nodes and port types are words, other texts clean, numbers fit an int. */
  predicate Normal(r: Record) {
    InRange(r) &&
    match r
    case SwitchRecord(s) => Filled(s.guid, WordOrHyphen) && Clean(s.description, NotQuote) && Filled(s.portType, Word)
    case HostRecord(h) => Filled(h.guid, WordOrHyphen) && Clean(h.description, NotQuote)
    case PortRecord(SwitchPort(_, guid, _, portGuid, description, _, speed)) =>
      Filled(guid, WordOrHyphen) && Clean(portGuid, NotParen) && Clean(description, NotQuote) && Clean(speed, AnyChar)
    case PortRecord(HostPort(_, portGuid, guid, _, _, _, description, _, speed)) =>
      Clean(portGuid, NotParen) && Clean(guid, NotQuote) && Clean(description, NotQuote) && Clean(speed, AnyChar)
    case _ => false
  }

  lemma TrimClean(s: string, cls: Class)
    requires AllIn(s, cls) && '\n' !in s
    ensures Clean(Trim(s), cls)
  {
    TrimIs(s);
    forall i | 0 <= i < |Trim(s)| ensures In(Trim(s)[i], cls) {
      assert Trim(s)[i] in s;
      var k :| 0 <= k < |s| && s[k] == Trim(s)[i];
    }
  }

  lemma TrimWord(s: string, cls: Class)
    requires Filled(s, cls) && cls in {Word, WordOrHyphen}
    ensures Trim(s) == s && Clean(s, cls)
  {
    assert In(s[0], cls) && In(s[|s| - 1], cls);
    TrimOfTrimmed(s);
    assert forall i | 0 <= i < |s| :: In(s[i], cls);
  }

  /** A capture list, slot by slot. */
  lemma CaptureAt(p: Pattern, m: seq<string>, slots: seq<(Class, nat)>, i: nat)
    requires Capturable(p, m) && NoBreaks(m) && slots == Slots(p) && i < |slots|
    ensures |m| == |slots| && AllIn(m[i], slots[i].0) && slots[i].1 <= |m[i]|
    ensures Clean(Trim(m[i]), slots[i].0)
    ensures slots[i].0 in {Word, WordOrHyphen} && slots[i].1 == 1 ==> Filled(Trim(m[i]), slots[i].0)
  {
    TrimClean(m[i], slots[i].0);
    if slots[i].0 in {Word, WordOrHyphen} && slots[i].1 == 1 {
      TrimWord(m[i], slots[i].0);
    }
  }

  lemma SwitchNormal(m: seq<string>)
    requires Capturable(SWITCH, m) && NoBreaks(m) && |m| == 5
    ensures AssembleSwitch(m).SwitchRecord? ==> Normal(AssembleSwitch(m))
  {
    AboutSwitch();
    var slots := [(Digit, 1), (WordOrHyphen, 1), (NotQuote, 1), (Word, 1), (AnyChar, 0)];
    CaptureAt(SWITCH, m, slots, 1);
    CaptureAt(SWITCH, m, slots, 2);
    CaptureAt(SWITCH, m, slots, 3);
  }

  lemma HostNormal(m: seq<string>)
    requires Capturable(HOST, m) && NoBreaks(m) && |m| == 3
    ensures AssembleHost(m).HostRecord? ==> Normal(AssembleHost(m))
  {
    AboutHost();
    var slots := [(Digit, 1), (WordOrHyphen, 1), (NotQuote, 1)];
    CaptureAt(HOST, m, slots, 1);
    CaptureAt(HOST, m, slots, 2);
  }

  lemma SwitchPortNormal(m: seq<string>)
    requires Capturable(SWITCH_PORT, m) && NoBreaks(m) && |m| == 7
    ensures AssembleSwitchPort(m).PortRecord? ==> Normal(AssembleSwitchPort(m))
  {
    AboutSwitchPort();
    var slots := [(Digit, 1), (WordOrHyphen, 1), (Digit, 1), (NotParen, 0), (NotQuote, 1), (Digit, 1), (AnyChar, 0)];
    CaptureAt(SWITCH_PORT, m, slots, 1);
    CaptureAt(SWITCH_PORT, m, slots, 3);
    CaptureAt(SWITCH_PORT, m, slots, 4);
    CaptureAt(SWITCH_PORT, m, slots, 6);
  }

  lemma HostPortNormal(m: seq<string>)
    requires Capturable(HOST_PORT, m) && NoBreaks(m) && |m| == 9
    ensures AssembleHostPort(m).PortRecord? ==> Normal(AssembleHostPort(m))
  {
    AboutHostPort();
    var slots := [(Digit, 1), (NotParen, 1), (NotQuote, 1), (Digit, 1), (Digit, 1), (Digit, 1), (NotQuote, 1), (Digit, 1),
                  (AnyChar, 0)];
    CaptureAt(HOST_PORT, m, slots, 1);
    CaptureAt(HOST_PORT, m, slots, 2);
    CaptureAt(HOST_PORT, m, slots, 6);
    CaptureAt(HOST_PORT, m, slots, 8);
  }

  lemma FormNormal(p: Pattern, line: string)
    requires Match(p, line).Some? && '\n' !in line
    ensures Capturable(p, Match(p, line).value) && NoBreaks(Match(p, line).value)
  {
    MatchCaptures(p, line);
  }

  /** Whatever is read from a line is normal. */
  lemma ReadIsNormal(line: string)
    requires '\n' !in line
    ensures Read(line) in {Other, Overflow} || Normal(Read(line))
  {
    CaptureCounts();
    if Match(SWITCH, line).Some? {
      FormNormal(SWITCH, line);
      SwitchNormal(Match(SWITCH, line).value);
    } else if Match(SWITCH_PORT, line).Some? {
      FormNormal(SWITCH_PORT, line);
      SwitchPortNormal(Match(SWITCH_PORT, line).value);
    } else if Match(HOST, line).Some? {
      FormNormal(HOST, line);
      HostNormal(Match(HOST, line).value);
    } else if Match(HOST_PORT, line).Some? {
      FormNormal(HOST_PORT, line);
      HostPortNormal(Match(HOST_PORT, line).value);
    }
  }

  // ---------------------------------------------------------------- a line for every such record

  /** A place that must not be empty can hold a blank instead. */
  function OrBlank(s: string): string {
    if s == [] then [' '] else s
  }

  function Raw(r: Record): Record {
    match r
    case SwitchRecord(s) => SwitchRecord(s.(description := OrBlank(s.description)))
    case HostRecord(h) => HostRecord(h.(description := OrBlank(h.description)))
    case PortRecord(SwitchPort(local, guid, port, portGuid, description, lid, speed)) =>
      PortRecord(SwitchPort(local, guid, port, portGuid, OrBlank(description), lid, speed))
    case PortRecord(HostPort(local, portGuid, guid, port, localLid, lmc, description, lid, speed)) =>
      PortRecord(HostPort(local, OrBlank(portGuid), OrBlank(guid), port, localLid, lmc, OrBlank(description), lid, speed))
    case _ => r
  }

  lemma OrBlankClean(s: string, cls: Class)
    requires Clean(s, cls) && cls in {NotQuote, NotParen}
    ensures Filled(OrBlank(s), cls) && '\n' !in OrBlank(s) && Trim(OrBlank(s)) == s
  {
    if s == [] {
      TrimOfBlank([' ']);
    } else {
      TrimOfTrimmed(s);
    }
  }

  lemma CleanSpeed(s: string)
    requires Clean(s, AnyChar)
    ensures AllIn(s, AnyChar) && Apart(s, Space) && Trim(s) == s
  {
    TrimOfTrimmed(s);
  }

  lemma NumberHasNoBreak(n: nat)
    ensures '\n' !in Decimal(n)
  {
  }

  predicate Restores(r: Record) {
    Writable(Raw(r), []) && InRange(Raw(r)) && TrimmedTexts(Raw(r)) == r && NoBreaks(FieldsOf(Raw(r), []))
  }

  lemma SwitchRestores(s: Switch)
    requires Normal(SwitchRecord(s))
    ensures Restores(SwitchRecord(s))
  {
    TrimWord(s.guid, WordOrHyphen);
    OrBlankClean(s.description, NotQuote);
    TrimWord(s.portType, Word);
    NumberHasNoBreak(s.numPorts);
  }

  lemma HostRestores(h: Host)
    requires Normal(HostRecord(h))
    ensures Restores(HostRecord(h))
  {
    TrimWord(h.guid, WordOrHyphen);
    OrBlankClean(h.description, NotQuote);
    NumberHasNoBreak(h.numPorts);
  }

  lemma SwitchPortRestores(p: Port)
    requires p.SwitchPort? && Normal(PortRecord(p))
    ensures Restores(PortRecord(p))
  {
    TrimWord(p.peerGuid, WordOrHyphen);
    TrimOfTrimmed(p.peerPortGuid);
    OrBlankClean(p.peerDescription, NotQuote);
    CleanSpeed(p.speed);
    NumberHasNoBreak(p.localPort);
    NumberHasNoBreak(p.peerPort);
    NumberHasNoBreak(p.peerLid);
  }

  lemma HostPortRestores(p: Port)
    requires p.HostPort? && Normal(PortRecord(p))
    ensures Restores(PortRecord(p))
  {
    OrBlankClean(p.peerPortGuid, NotParen);
    OrBlankClean(p.peerGuid, NotQuote);
    OrBlankClean(p.peerDescription, NotQuote);
    CleanSpeed(p.speed);
    NumberHasNoBreak(p.localPort);
    NumberHasNoBreak(p.peerPort);
    NumberHasNoBreak(p.localLid);
    NumberHasNoBreak(p.localLmc);
    NumberHasNoBreak(p.peerLid);
  }

  lemma NormalRestores(r: Record)
    requires Normal(r)
    ensures Restores(r) && (IsHeader(Raw(r)) || Raw(r).PortRecord?)
  {
    match r
    case SwitchRecord(s) => SwitchRestores(s);
    case HostRecord(h) => HostRestores(h);
    case PortRecord(p) => if p.SwitchPort? { SwitchPortRestores(p); } else { HostPortRestores(p); }
  }

  function SingleBlanks(n: nat): seq<string> {
    seq(n, _ => [' '])
  }

  /** The record with single blanks between its fields. */
  function LineFor(r: Record): Line
    requires Normal(r)
  {
    NormalRestores(r);
    Written(Raw(r), Layout(SingleBlanks(Gaps(FormOf(Raw(r)))), []))
  }

  lemma LineForPrints(r: Record)
    requires Normal(r)
    ensures Printable(LineFor(r)) && TrimmedTexts(LineFor(r).record) == r
  {
    NormalRestores(r);
  }

  function DumpOf(records: seq<Record>): seq<Line>
    requires forall r | r in records :: Normal(r)
  {
    seq(|records|, i requires 0 <= i < |records| => LineFor(records[i]))
  }

  lemma DumpOfPrints(records: seq<Record>)
    requires forall r | r in records :: Normal(r)
    ensures AllPrintable(DumpOf(records)) && Records(DumpOf(records)) == records
  {
    var dump := DumpOf(records);
    forall i | 0 <= i < |records| ensures Printable(dump[i]) && dump[i].Written? && TrimmedTexts(dump[i].record) == records[i] {
      LineForPrints(records[i]);
    }
  }

  // ---------------------------------------------------------------- a listing of every fabric

  /** Connections without an origin come before all others, which start at a known node. */
  predicate OrphansFirst(f: Fabric) {
    && (forall i | 0 <= i < |f.connections| :: f.connections[i].fromGuid == [] || Known(f, f.connections[i].fromGuid))
    && (forall i, j | 0 <= i < j < |f.connections| && f.connections[j].fromGuid == [] :: f.connections[i].fromGuid == [])
  }

  ghost predicate AllNormal(f: Fabric) {
    && (forall g | g in f.switches :: Normal(SwitchRecord(f.switches[g])))
    && (forall g | g in f.hosts :: Normal(HostRecord(f.hosts[g])))
    && (forall i | 0 <= i < |f.connections| :: Normal(PortRecord(f.connections[i].port)))
  }

  ghost predicate Sound(f: Fabric) {
    Keyed(f) && AllNormal(f) && OrphansFirst(f)
  }

  /** A record with this guid. */
  function HeaderFor(f: Fabric, guid: string): Record
    requires Known(f, guid)
  {
    if guid in f.switches then SwitchRecord(f.switches[guid]) else HostRecord(f.hosts[guid])
  }

  /** The first n connections, those with an origin each below a header of it. */
  function Listing(f: Fabric, n: nat): seq<Record>
    requires n <= |f.connections| && OrphansFirst(f)
  {
    if n == 0 then [] else
      var c, before := f.connections[n - 1], Listing(f, n - 1);
      (if c.fromGuid == [] then before else before + [HeaderFor(f, c.fromGuid)]) + [PortRecord(c.port)]
  }

  ghost function SwitchHeaders(f: Fabric): seq<Record> {
    var keys := Ordered(f.switches.Keys);
    seq(|keys|, i requires 0 <= i < |keys| => assert keys[i] in f.switches.Keys; SwitchRecord(f.switches[keys[i]]))
  }

  ghost function HostHeaders(f: Fabric): seq<Record> {
    var keys := Ordered(f.hosts.Keys);
    seq(|keys|, i requires 0 <= i < |keys| => assert keys[i] in f.hosts.Keys; HostRecord(f.hosts[keys[i]]))
  }

  ghost function Headers(f: Fabric): seq<Record> {
    SwitchHeaders(f) + HostHeaders(f)
  }

  lemma SwitchHeadersAre(f: Fabric, r: Record)
    ensures r in SwitchHeaders(f) <==> exists g :: g in f.switches && r == SwitchRecord(f.switches[g])
  {
    var keys := Ordered(f.switches.Keys);
    if r in SwitchHeaders(f) {
      var i :| 0 <= i < |keys| && SwitchHeaders(f)[i] == r;
      assert keys[i] in f.switches.Keys;
    }
    if g :| g in f.switches && r == SwitchRecord(f.switches[g]) {
      assert g in f.switches.Keys;
      var i :| 0 <= i < |keys| && keys[i] == g;
      assert SwitchHeaders(f)[i] == r;
    }
  }

  lemma HostHeadersAre(f: Fabric, r: Record)
    ensures r in HostHeaders(f) <==> exists g :: g in f.hosts && r == HostRecord(f.hosts[g])
  {
    var keys := Ordered(f.hosts.Keys);
    if r in HostHeaders(f) {
      var i :| 0 <= i < |keys| && HostHeaders(f)[i] == r;
      assert keys[i] in f.hosts.Keys;
    }
    if g :| g in f.hosts && r == HostRecord(f.hosts[g]) {
      assert g in f.hosts.Keys;
      var i :| 0 <= i < |keys| && keys[i] == g;
      assert HostHeaders(f)[i] == r;
    }
  }

  /** What may stand in a listing of the fabric. */
  predicate Listable(r: Record, f: Fabric) {
    Belongs(r, f) && Normal(r)
  }

  lemma HeaderListable(f: Fabric, r: Record)
    requires Keyed(f) && AllNormal(f) && r in Headers(f)
    ensures Listable(r, f) && IsHeader(r)
  {
    SwitchHeadersAre(f, r);
    HostHeadersAre(f, r);
    assert r in SwitchHeaders(f) || r in HostHeaders(f);
  }

  lemma HeadersComplete(f: Fabric)
    ensures forall g | g in f.switches :: SwitchRecord(f.switches[g]) in Headers(f)
    ensures forall g | g in f.hosts :: HostRecord(f.hosts[g]) in Headers(f)
  {
    forall g | g in f.switches ensures SwitchRecord(f.switches[g]) in Headers(f) {
      SwitchHeadersAre(f, SwitchRecord(f.switches[g]));
    }
    forall g | g in f.hosts ensures HostRecord(f.hosts[g]) in Headers(f) {
      HostHeadersAre(f, HostRecord(f.hosts[g]));
    }
  }

  lemma HeaderForListable(f: Fabric, guid: string)
    requires Keyed(f) && AllNormal(f) && Known(f, guid)
    ensures Listable(HeaderFor(f, guid), f) && IsHeader(HeaderFor(f, guid)) && HeaderGuid(HeaderFor(f, guid)) == guid
  {
  }

  lemma {:induction false} ListingListable(f: Fabric, n: nat)
    requires n <= |f.connections| && Sound(f)
    ensures forall r | r in Listing(f, n) :: Listable(r, f)
  {
    if n > 0 {
      var c := f.connections[n - 1];
      ListingListable(f, n - 1);
      if c.fromGuid != [] {
        HeaderForListable(f, c.fromGuid);
      }
    }
  }

  // ---------------------------------------------------------------- its connections

  lemma MatchPort(before: seq<Record>, port: Port, connections: seq<Connection>)
    requires ConnectionsMatch(before, connections)
    ensures ConnectionsMatch(before + [PortRecord(port)], connections + [Connection(NearestGuid(before), port)])
  {
    MatchStep(before, PortRecord(port), State(NearestGuid(before), Fabric(map[], map[], connections)));
  }

  lemma MatchHeader(before: seq<Record>, r: Record, connections: seq<Connection>)
    requires ConnectionsMatch(before, connections) && IsHeader(r)
    ensures ConnectionsMatch(before + [r], connections) && NearestGuid(before + [r]) == HeaderGuid(r)
  {
    MatchStep(before, r, State(NearestGuid(before), Fabric(map[], map[], connections)));
    assert (before + [r])[..|before|] == before;
  }

  lemma {:induction false} MatchHeaders(before: seq<Record>, headers: seq<Record>, connections: seq<Connection>)
    requires ConnectionsMatch(before, connections) && forall r | r in headers :: IsHeader(r)
    ensures ConnectionsMatch(before + headers, connections)
  {
    if headers == [] {
      assert before + headers == before;
    } else {
      var n := |headers| - 1;
      MatchHeaders(before, headers[..n], connections);
      MatchHeader(before + headers[..n], headers[n], connections);
      assert before + headers == before + headers[..n] + [headers[n]];
    }
  }

  lemma {:induction false} NoHeaderNoGuid(records: seq<Record>)
    requires NoHeader(records)
    ensures NearestGuid(records) == []
  {
    if records != [] {
      NoHeaderNoGuid(records[..|records| - 1]);
    }
  }

  lemma OrphanStep(before: seq<Record>, connections: seq<Connection>, c: Connection)
    requires ConnectionsMatch(before, connections) && NoHeader(before) && c.fromGuid == []
    ensures ConnectionsMatch(before + [PortRecord(c.port)], connections + [c]) && NoHeader(before + [PortRecord(c.port)])
  {
    NoHeaderNoGuid(before);
    MatchPort(before, c.port, connections);
    assert c == Connection(c.fromGuid, c.port);
  }

  lemma HeadedStep(before: seq<Record>, header: Record, connections: seq<Connection>, c: Connection)
    requires ConnectionsMatch(before, connections) && IsHeader(header) && HeaderGuid(header) == c.fromGuid
    ensures ConnectionsMatch(before + [header] + [PortRecord(c.port)], connections + [c])
  {
    MatchHeader(before, header, connections);
    MatchPort(before + [header], c.port, connections);
    assert c == Connection(c.fromGuid, c.port);
  }

  lemma EarlierOrphan(f: Fabric, n: nat)
    requires OrphansFirst(f) && 0 < n <= |f.connections| && f.connections[n - 1].fromGuid == []
    ensures n == 1 || f.connections[n - 2].fromGuid == []
  {
  }

  lemma {:induction false} ListingMatches(f: Fabric, n: nat)
    requires n <= |f.connections| && Sound(f)
    ensures ConnectionsMatch(Listing(f, n), f.connections[..n])
    ensures n == 0 || f.connections[n - 1].fromGuid == [] ==> NoHeader(Listing(f, n))
  {
    if n > 0 {
      var c, before := f.connections[n - 1], Listing(f, n - 1);
      ListingMatches(f, n - 1);
      TakeOneMore(f.connections, n - 1);
      if c.fromGuid == [] {
        EarlierOrphan(f, n);
        OrphanStep(before, f.connections[..n - 1], c);
      } else {
        HeaderForListable(f, c.fromGuid);
        HeadedStep(before, HeaderFor(f, c.fromGuid), f.connections[..n - 1], c);
      }
    }
  }

  /** All connections, then all headers. */
  ghost function WholeListing(f: Fabric): seq<Record>
    requires OrphansFirst(f)
  {
    Listing(f, |f.connections|) + Headers(f)
  }

  lemma WholeListingLists(f: Fabric)
    requires Sound(f)
    ensures Lists(WholeListing(f), f) && forall r | r in WholeListing(f) :: Normal(r)
  {
    var n := |f.connections|;
    ListingListable(f, n);
    ListingMatches(f, n);
    TakeAll(f.connections);
    HeadersComplete(f);
    forall r | r in Headers(f) ensures Listable(r, f) && IsHeader(r) {
      HeaderListable(f, r);
    }
    MatchHeaders(Listing(f, n), Headers(f), f.connections);
    assert forall r | r in WholeListing(f) :: Listable(r, f);
  }

  // ---------------------------------------------------------------- exactly which fabrics are collected

  ghost predicate CollectedFrom(text: string, f: Fabric) {
    var scan := Scan(ReadAll(LinesOf(text)));
    scan.Some? && scan.value.fabric == f
  }

  /** The text of a sound fabric: its listing with single blanks. */
  ghost function Printout(f: Fabric): string
    requires Sound(f)
  {
    WholeListingLists(f);
    DumpOfPrints(WholeListing(f));
    Terminated(Texts(DumpOf(WholeListing(f))))
  }

  /** Printing any sound fabric and collecting the text recovers its switches, hosts and
      connections. */
  lemma PrintoutCollected(f: Fabric)
    requires Sound(f)
    ensures CollectedFrom(Printout(f), f)
  {
    WholeListingLists(f);
    DumpOfPrints(WholeListing(f));
    FabricRoundTrip(DumpOf(WholeListing(f)), f);
  }

  lemma CollectedNormal(text: string, f: Fabric)
    requires CollectedFrom(text, f)
    ensures Keyed(f) && AllNormal(f)
  {
    var records := ReadAll(LinesOf(text));
    AllReadNormal(LinesOf(text), text);
    forall g | g in f.switches ensures f.switches[g].guid == g && Normal(SwitchRecord(f.switches[g])) {
      KeysAreGuids(records, g);
      FirstOfIs(SwitchPairs(records), g);
      SwitchPairsAre(records, (g, f.switches[g]));
    }
    forall g | g in f.hosts ensures f.hosts[g].guid == g && Normal(HostRecord(f.hosts[g])) {
      KeysAreGuids(records, g);
      FirstOfIs(HostPairs(records), g);
      HostPairsAre(records, (g, f.hosts[g]));
    }
    ScanLaw(records);
    forall i | 0 <= i < |f.connections| ensures Normal(PortRecord(f.connections[i].port)) {
      assert IsConnectionAt(records, PortPositions(records)[i], f.connections[i]);
    }
  }

  lemma AllReadNormal(lines: seq<string>, text: string)
    requires lines == LinesOf(text)
    ensures forall r | r in ReadAll(lines) :: r in {Other, Overflow} || Normal(r)
  {
    var records := ReadAll(lines);
    LinesHaveNoBreak(text);
    forall r | r in records ensures r in {Other, Overflow} || Normal(r) {
      var i :| 0 <= i < |records| && records[i] == r;
      assert lines[i] in lines;
      ReadIsNormal(lines[i]);
    }
  }

  /** Where a connection of a collected fabric starts. */
  lemma Origin(records: seq<Record>, f: Fabric, i: nat)
    requires GuidsGiven(records) && Scan(records).Some? && Scan(records).value.fabric == f && i < |f.connections|
    ensures |PortPositions(records)| == |f.connections| && PortPositions(records)[i] <= |records|
    ensures if NoHeader(records[..PortPositions(records)[i]]) then f.connections[i].fromGuid == []
            else f.connections[i].fromGuid != [] && Known(f, f.connections[i].fromGuid)
  {
    ScanLaw(records);
    var k := PortPositions(records)[i];
    assert IsConnectionAt(records, k, f.connections[i]);
    FromHeader(records, k);
    if NoHeader(records[..k]) {
      NoHeaderNoGuid(records[..k]);
    } else if Known(f, []) {
      OnlyHeadersAreKnown(records, []);
    }
  }

  lemma CollectedOrphansFirst(text: string, f: Fabric)
    requires CollectedFrom(text, f)
    ensures OrphansFirst(f)
  {
    var records := ReadAll(LinesOf(text));
    ReadGuidsGiven(LinesOf(text));
    PortPositionsAre(records);
    forall i | 0 <= i < |f.connections| ensures f.connections[i].fromGuid == [] || Known(f, f.connections[i].fromGuid) {
      Origin(records, f, i);
    }
    forall i, j | 0 <= i < j < |f.connections| && f.connections[j].fromGuid == [] ensures f.connections[i].fromGuid == [] {
      Origin(records, f, i);
      Origin(records, f, j);
      var k, l := PortPositions(records)[i], PortPositions(records)[j];
      assert forall h | 0 <= h < k :: records[..k][h] == records[..l][h];
    }
  }

  /** The fabrics that texts are collected to are exactly the sound ones: keys are the guids of
      their records, texts are clean and numbers in range, and connections without an origin come
      first. */
  lemma CollectedFabrics(f: Fabric)
    ensures Sound(f) <==> exists text :: CollectedFrom(text, f)
  {
    if Sound(f) {
      PrintoutCollected(f);
    }
    if text :| CollectedFrom(text, f) {
      CollectedNormal(text, f);
      CollectedOrphansFirst(text, f);
    }
  }

  /** A text that is a single connectivity line: its connection starts nowhere. */
  lemma Orphan() returns (text: string, f: Fabric)
    ensures CollectedFrom(text, f) && !AllResolved(f)
  {
    var port := SwitchPort(1, ['S'], 1, [], [], 1, []);
    f := Fabric(map[], map[], [Connection([], port)]);
    assert In('S', WordOrHyphen);
    assert Normal(PortRecord(port));
    PrintoutCollected(f);
    text := Printout(f);
    assert f.connections[0] in f.connections;
  }
}
