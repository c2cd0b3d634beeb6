/** collect_ibnetdiscover (lib/src/linux/infiniband_extractor.cc): from the lines of an
    ibnetdiscover dump to switches, hosts and connections. */
module Infiniband {
  import opened Text
  import opened FirstWins
  import opened Regex
  import opened Streams

  datatype Switch = Switch(numPorts: nat, guid: string, description: string, portType: string)
  datatype Host = Host(numPorts: nat, guid: string, description: string)

  /** What a connectivity line says; a line of a switch and one of a host set different fields. */
  datatype Port =
    | SwitchPort(localPort: nat, peerGuid: string, peerPort: nat, peerPortGuid: string,
                 peerDescription: string, peerLid: nat, speed: string)
    | HostPort(localPort: nat, peerPortGuid: string, peerGuid: string, peerPort: nat,
               localLid: nat, localLmc: nat, peerDescription: string, peerLid: nat, speed: string)

  datatype Connection = Connection(fromGuid: string, port: Port)
  datatype Fabric = Fabric(switches: map<string, Switch>, hosts: map<string, Host>, connections: seq<Connection>)

  // ---------------------------------------------------------------- the four patterns

  /** `\"(cls+)\"` */
  function Quoted(cls: Class, next: Pattern): Pattern {
    Lit("\"", Slot(cls, 1, Lit("\"", next)))
  }

  /** `\[(\d+)\]` */
  function Bracketed(next: Pattern): Pattern {
    Lit("[", Slot(Digit, 1, Lit("]", next)))
  }

  /** `\s+word\s+` */
  function Keyword(word: string, next: Pattern): Pattern {
    Gap(Lit(word, Gap(next)))
  }

  /** `lid\s+(\d+)\s+(.*)$` behind blanks: the end of every connectivity line. */
  const LID_AND_SPEED := Keyword("lid", Slot(Digit, 1, Gap(Slot(AnyChar, 0, End))))

  /** Lines 22-28. */
  const SWITCH := Lit("Switch", Gap(Slot(Digit, 1, Gap(Quoted(WordOrHyphen, Keyword("#", Quoted(NotQuote,
                  Gap(Slot(Word, 1, Slot(AnyChar, 0, End))))))))))

  const SWITCH_PORT := Bracketed(Gap(Quoted(WordOrHyphen, Bracketed(Group(Keyword("#", Quoted(NotQuote, LID_AND_SPEED)))))))

  const HOST := Lit("Ca", Gap(Slot(Digit, 1, Gap(Quoted(WordOrHyphen, Keyword("#", Quoted(NotQuote, End)))))))

  const HOST_PORT := Lit("[", Slot(Digit, 1, Lit("](", Slot(NotParen, 1, Lit(")", Gap(Quoted(NotQuote, Bracketed(
                     Keyword("#", Lit("lid", Gap(Slot(Digit, 1, Keyword("lmc", Slot(Digit, 1, Gap(Quoted(NotQuote,
                     LID_AND_SPEED))))))))))))))))

  // What the patterns are made of: captures, stretches of blanks, and that nowhere a repetition
  // can be continued by what follows it.

  lemma AboutQuoted(cls: Class, next: Pattern)
    ensures Slots(Quoted(cls, next)) == [(cls, 1)] + Slots(next) && Gaps(Quoted(cls, next)) == Gaps(next)
    ensures cls in {WordOrHyphen, NotQuote} && NoChoice(next) ==> NoChoice(Quoted(cls, next))
    ensures BeforeRest(Quoted(cls, next)) == BeforeRest(next)
  {
    var inner := Slot(cls, 1, Lit("\"", next));
    assert Slots(inner) == [(cls, 1)] + Slots(next) && Gaps(inner) == Gaps(next) && BeforeRest(inner) == BeforeRest(next);
  }

  lemma AboutBracketed(next: Pattern)
    ensures Slots(Bracketed(next)) == [(Digit, 1)] + Slots(next) && Gaps(Bracketed(next)) == Gaps(next)
    ensures NoChoice(next) ==> NoChoice(Bracketed(next))
    ensures BeforeRest(Bracketed(next)) == BeforeRest(next)
  {
    var inner := Slot(Digit, 1, Lit("]", next));
    assert Slots(inner) == [(Digit, 1)] + Slots(next) && Gaps(inner) == Gaps(next) && BeforeRest(inner) == BeforeRest(next);
  }

  lemma AboutKeyword(word: string, next: Pattern)
    requires next.Lit? || (next.Slot? && !next.cls.AnyChar?)
    ensures Slots(Keyword(word, next)) == Slots(next) && Gaps(Keyword(word, next)) == 2 + Gaps(next)
    ensures word != [] && !IsSpace(word[0]) && Stops(next, Space) && NoChoice(next) ==> NoChoice(Keyword(word, next))
    ensures BeforeRest(Keyword(word, next)) == BeforeRest(next)
  {
    var inner := Lit(word, Gap(next));
    assert Slots(inner) == Slots(next) && Gaps(inner) == 1 + Gaps(next) && BeforeRest(inner) == BeforeRest(next);
  }

  lemma AboutNumber(next: Pattern)
    requires next.Gap?
    ensures Slots(Slot(Digit, 1, next)) == [(Digit, 1)] + Slots(next) && Gaps(Slot(Digit, 1, next)) == Gaps(next)
    ensures NoChoice(next) ==> NoChoice(Slot(Digit, 1, next))
    ensures BeforeRest(Slot(Digit, 1, next)) == BeforeRest(next)
  {
  }

  lemma AboutEnd()
    ensures Slots(LID_AND_SPEED) == [(Digit, 1), (AnyChar, 0)] && Gaps(LID_AND_SPEED) == 3
    ensures NoChoice(LID_AND_SPEED) && BeforeRest(LID_AND_SPEED) == Some(Space)
  {
    var rest := Gap(Slot(AnyChar, 0, End));
    assert Slots(rest) == [(AnyChar, 0)] + Slots(End);
    AboutNumber(rest);
    AboutKeyword("lid", Slot(Digit, 1, rest));
  }

  lemma AboutSwitch()
    ensures Slots(SWITCH) == [(Digit, 1), (WordOrHyphen, 1), (NotQuote, 1), (Word, 1), (AnyChar, 0)] && Gaps(SWITCH) == 5
    ensures NoChoice(SWITCH) && BeforeRest(SWITCH) == Some(Word)
  {
    var last := Slot(Word, 1, Slot(AnyChar, 0, End));
    assert Slots(last) == [(Word, 1)] + ([(AnyChar, 0)] + Slots(End));
    var description := Quoted(NotQuote, Gap(last));
    AboutQuoted(NotQuote, Gap(last));
    AboutKeyword("#", description);
    AboutQuoted(WordOrHyphen, Keyword("#", description));
    AboutNumber(Gap(Quoted(WordOrHyphen, Keyword("#", description))));
  }

  lemma AboutSwitchPort()
    ensures Slots(SWITCH_PORT)
         == [(Digit, 1), (WordOrHyphen, 1), (Digit, 1), (NotParen, 0), (NotQuote, 1), (Digit, 1), (AnyChar, 0)]
    ensures Gaps(SWITCH_PORT) == 6 && NoChoice(SWITCH_PORT) && BeforeRest(SWITCH_PORT) == Some(Space)
  {
    AboutEnd();
    AboutQuoted(NotQuote, LID_AND_SPEED);
    var described := Keyword("#", Quoted(NotQuote, LID_AND_SPEED));
    AboutKeyword("#", Quoted(NotQuote, LID_AND_SPEED));
    AboutBracketed(Group(described));
    AboutQuoted(WordOrHyphen, Bracketed(Group(described)));
    AboutBracketed(Gap(Quoted(WordOrHyphen, Bracketed(Group(described)))));
  }

  lemma AboutHost()
    ensures Slots(HOST) == [(Digit, 1), (WordOrHyphen, 1), (NotQuote, 1)] && Gaps(HOST) == 4
    ensures NoChoice(HOST) && BeforeRest(HOST).None?
  {
    AboutQuoted(NotQuote, End);
    AboutKeyword("#", Quoted(NotQuote, End));
    AboutQuoted(WordOrHyphen, Keyword("#", Quoted(NotQuote, End)));
    AboutNumber(Gap(Quoted(WordOrHyphen, Keyword("#", Quoted(NotQuote, End)))));
  }

  lemma AboutHostPort()
    ensures Slots(HOST_PORT) == [(Digit, 1), (NotParen, 1), (NotQuote, 1), (Digit, 1), (Digit, 1), (Digit, 1),
                                 (NotQuote, 1), (Digit, 1), (AnyChar, 0)]
    ensures Gaps(HOST_PORT) == 10 && NoChoice(HOST_PORT) && BeforeRest(HOST_PORT) == Some(Space)
  {
    AboutEnd();
    var peer := Gap(Quoted(NotQuote, LID_AND_SPEED));
    AboutQuoted(NotQuote, LID_AND_SPEED);
    AboutNumber(peer);
    var lmc := Keyword("lmc", Slot(Digit, 1, peer));
    AboutKeyword("lmc", Slot(Digit, 1, peer));
    AboutNumber(lmc);
    var lid := Lit("lid", Gap(Slot(Digit, 1, lmc)));
    AboutKeyword("#", lid);
    AboutBracketed(Keyword("#", lid));
    AboutQuoted(NotQuote, Bracketed(Keyword("#", lid)));
    var guid := Slot(NotParen, 1, Lit(")", Gap(Quoted(NotQuote, Bracketed(Keyword("#", lid))))));
    assert NoChoice(guid) && Slots(guid) == [(NotParen, 1)] + Slots(Quoted(NotQuote, Bracketed(Keyword("#", lid))));
  }

  // ---------------------------------------------------------------- at most one pattern matches

  lemma LitFirst(text: string, next: Pattern, s: string)
    requires text != [] && Match(Lit(text, next), s).Some?
    ensures s != [] && s[0] == text[0]
  {
    assert text <= s;
  }

  lemma SwitchPortShape(line: string)
    requires Match(SWITCH_PORT, line).Some?
    ensures line != [] && var s := line[1..]; var n := Regex.Run(Digit, s); n + 1 < |s| && IsSpace(s[n + 1])
  {
    var s := line[1..];
    var n := Regex.Run(Digit, s);
    SlotEndsRun(Digit, 1, "]", SWITCH_PORT.next.next.next, s, n);
    assert 0 < Regex.Run(Space, s[n + 1..]);
    assert In(s[n + 1..][0], Space);
  }

  lemma HostPortShape(line: string)
    requires Match(HOST_PORT, line).Some?
    ensures line != [] && var s := line[1..]; var n := Regex.Run(Digit, s); n + 1 < |s| && s[n + 1] == '('
  {
    var s := line[1..];
    var n := Regex.Run(Digit, s);
    SlotEndsRun(Digit, 1, "](", HOST_PORT.next.next.next, s, n);
    assert s[n..][1] == "]("[1];
  }

  /** Behind `[digits]` the next character decides between the two connectivity forms. */
  lemma PortFormsDiffer(line: string)
    ensures Match(SWITCH_PORT, line).None? || Match(HOST_PORT, line).None?
  {
    if Match(SWITCH_PORT, line).Some? {
      SwitchPortShape(line);
      if Match(HOST_PORT, line).Some? {
        HostPortShape(line);
      }
    }
  }

  /** No line matches two of the four patterns, so the order of the tests is irrelevant. */
  lemma AtMostOneForm(line: string, p: Pattern, q: Pattern)
    requires p in {SWITCH, SWITCH_PORT, HOST, HOST_PORT} && q in {SWITCH, SWITCH_PORT, HOST, HOST_PORT} && p != q
    ensures Match(p, line).None? || Match(q, line).None?
  {
    PortFormsDiffer(line);
    if Match(p, line).Some? { LitFirst(p.text, p.next, line); }
    if Match(q, line).Some? { LitFirst(q.text, q.next, line); }
  }

  // ---------------------------------------------------------------- reading one line

  /** std::stoi on a capture of digits: std::out_of_range (None) beyond the int range. */
  function Stoi(s: string): Option<nat> {
    if s != [] && Digits(s) && DecimalValue(s) < 0x8000_0000 then Some(DecimalValue(s)) else None
  }

  datatype Record =
    | SwitchRecord(sw: Switch)
    | HostRecord(host: Host)
    | PortRecord(port: Port)
    | Other           // no pattern matches
    | Overflow        // a number is out of range, std::stoi throws

  /** assemble_switch */
  function AssembleSwitch(m: seq<string>): Record
    requires |m| == 5
  {
    var num := Stoi(Trim(m[0]));
    if num.None? then Overflow else SwitchRecord(Switch(num.value, Trim(m[1]), Trim(m[2]), Trim(m[3])))
  }

  /** assemble_host */
  function AssembleHost(m: seq<string>): Record
    requires |m| == 3
  {
    var num := Stoi(Trim(m[0]));
    if num.None? then Overflow else HostRecord(Host(num.value, Trim(m[1]), Trim(m[2])))
  }

  /** assemble_connection for Peer_Type::Switch */
  function AssembleSwitchPort(m: seq<string>): Record
    requires |m| == 7
  {
    var (local, port, lid) := (Stoi(Trim(m[0])), Stoi(Trim(m[2])), Stoi(Trim(m[5])));
    if local.None? || port.None? || lid.None? then Overflow else
      PortRecord(SwitchPort(local.value, Trim(m[1]), port.value, Trim(m[3]), Trim(m[4]), lid.value, Trim(m[6])))
  }

  /** assemble_connection for Peer_Type::Host */
  function AssembleHostPort(m: seq<string>): Record
    requires |m| == 9
  {
    var (local, port, lid, lmc, peerLid) := (Stoi(Trim(m[0])), Stoi(Trim(m[3])), Stoi(Trim(m[4])), Stoi(Trim(m[5])), Stoi(Trim(m[7])));
    if local.None? || port.None? || lid.None? || lmc.None? || peerLid.None? then Overflow else
      PortRecord(HostPort(local.value, Trim(m[1]), Trim(m[2]), port.value, lid.value, lmc.value, Trim(m[6]),
                          peerLid.value, Trim(m[8])))
  }

  lemma CaptureCounts()
    ensures Fields(SWITCH) == 5 && Fields(SWITCH_PORT) == 7 && Fields(HOST) == 3 && Fields(HOST_PORT) == 9
  {
    AboutSwitch();
    AboutSwitchPort();
    AboutHost();
    AboutHostPort();
  }

  /** The tests of lines 32-48, in their order. */
  function Read(line: string): Record {
    CaptureCounts();
    var switch_, switchPort, host, hostPort := Match(SWITCH, line), Match(SWITCH_PORT, line), Match(HOST, line), Match(HOST_PORT, line);
    if switch_.Some? then AssembleSwitch(switch_.value)
    else if switchPort.Some? then AssembleSwitchPort(switchPort.value)
    else if host.Some? then AssembleHost(host.value)
    else if hostPort.Some? then AssembleHostPort(hostPort.value)
    else Other
  }

  // ---------------------------------------------------------------- the state machine

  /** connection_guid and result. */
  datatype State = State(guid: string, fabric: Fabric)

  const START := State([], Fabric(map[], map[], []))

  /** The callback on one line; None when std::stoi throws. */
  function Step(st: State, r: Record): Option<State> {
    var f := st.fabric;
    match r
    case SwitchRecord(sw) => Some(State(sw.guid, f.(switches := Emplace(f.switches, sw.guid, sw))))
    case HostRecord(host) => Some(State(host.guid, f.(hosts := Emplace(f.hosts, host.guid, host))))
    case PortRecord(port) => Some(State(st.guid, f.(connections := f.connections + [Connection(st.guid, port)])))
    case Other => Some(st)
    case Overflow => None
  }

  function Scan(records: seq<Record>): Option<State> {
    if records == [] then Some(START) else
      var before := Scan(records[..|records| - 1]);
      if before.None? then None else Step(before.value, records[|records| - 1])
  }

  function ReadAll(lines: seq<string>): seq<Record> {
    seq(|lines|, i requires 0 <= i < |lines| => Read(lines[i]))
  }

  /** collect_ibnetdiscover over the text of the file. */
  method Collect(text: string) returns (result: Option<Fabric>)
    ensures var scan := Scan(ReadAll(LinesOf(text)));
            result == if scan.None? then None else Some(scan.value.fabric)
  {
    var input := new InputStream(text);
    var guid, fabric := START.guid, START.fabric;
    ghost var done, lines := [], LinesOf(text);
    while true
      invariant lines == done + LinesOf(input.rest)
      invariant Scan(ReadAll(done)) == Some(State(guid, fabric))
      decreases |input.rest|
    {
      ghost var before := LinesOf(input.rest);
      var ok, line := input.GetLine();
      if !ok {
        break;
      }
      Associative(done, [line], LinesOf(input.rest));
      ScanMore(done, line);
      match Read(line) {
        case SwitchRecord(sw) =>
          guid := sw.guid;
          fabric := fabric.(switches := Emplace(fabric.switches, sw.guid, sw));
        case HostRecord(host) =>
          guid := host.guid;
          fabric := fabric.(hosts := Emplace(fabric.hosts, host.guid, host));
        case PortRecord(port) =>
          fabric := fabric.(connections := fabric.connections + [Connection(guid, port)]);
        case Other =>
        case Overflow =>
          ScanStopped(ReadAll(done + [line]), ReadAll(lines));
          return None;
      }
      done := done + [line];
    }
    assert done + [] == done;
    result := Some(fabric);
  }

  lemma ScanOneMore(records: seq<Record>, r: Record)
    ensures Scan(records + [r]) == if Scan(records).None? then None else Step(Scan(records).value, r)
  {
    assert (records + [r])[..|records|] == records;
  }

  lemma ScanMore(done: seq<string>, line: string)
    ensures Scan(ReadAll(done + [line]))
         == if Scan(ReadAll(done)).None? then None else Step(Scan(ReadAll(done)).value, Read(line))
  {
    assert ReadAll(done + [line]) == ReadAll(done) + [Read(line)];
    ScanOneMore(ReadAll(done), Read(line));
  }

  /** A number out of range ends the scan for good. */
  lemma {:induction false} ScanStopped(records: seq<Record>, all: seq<Record>)
    requires Scan(records).None? && records <= all
    ensures Scan(all).None?
    decreases |all|
  {
    if records != all {
      ScanStopped(records, all[..|all| - 1]);
    }
  }

  // ---------------------------------------------------------------- what the state machine keeps

  predicate IsHeader(r: Record) {
    r.SwitchRecord? || r.HostRecord?
  }

  function HeaderGuid(r: Record): string
    requires IsHeader(r)
  {
    if r.SwitchRecord? then r.sw.guid else r.host.guid
  }

  /** The guid of the last header, or the empty string when there is none. */
  function NearestGuid(above: seq<Record>): string {
    if above == [] then []
    else if IsHeader(above[|above| - 1]) then HeaderGuid(above[|above| - 1])
    else NearestGuid(above[..|above| - 1])
  }

  /** It is the guid of a header below which there is none. */
  lemma {:induction false} NearestGuidIs(above: seq<Record>)
    ensures (exists j :: 0 <= j < |above| && IsHeader(above[j]) && HeaderGuid(above[j]) == NearestGuid(above)
                         && NoHeader(above[j + 1..]))
         || (NoHeader(above) && NearestGuid(above) == [])
  {
    if above != [] && !IsHeader(above[|above| - 1]) {
      var before, last := above[..|above| - 1], above[|above| - 1];
      NearestGuidIs(before);
      assert above == before + [last];
      if j :| 0 <= j < |before| && IsHeader(before[j]) && HeaderGuid(before[j]) == NearestGuid(before) && NoHeader(before[j + 1..]) {
        assert above[j + 1..] == before[j + 1..] + [last];
        assert IsHeader(above[j]) && NoHeader(above[j + 1..]);
      }
    } else if above != [] {
      assert NoHeader(above[|above|..]);
    }
  }

  predicate NoHeader(records: seq<Record>) {
    forall j | 0 <= j < |records| :: !IsHeader(records[j])
  }

  /** The positions of the connectivity lines, in order. */
  function PortPositions(records: seq<Record>): seq<nat> {
    if records == [] then [] else
      var n := |records| - 1;
      PortPositions(records[..n]) + if records[n].PortRecord? then [n] else []
  }

  lemma {:induction false} PortPositionsAre(records: seq<Record>)
    ensures forall i | 0 <= i < |PortPositions(records)| :: PortPositions(records)[i] < |records|
    ensures forall i, j | 0 <= i < j < |PortPositions(records)| :: PortPositions(records)[i] < PortPositions(records)[j]
    ensures forall k :: k in PortPositions(records) <==> 0 <= k < |records| && records[k].PortRecord?
  {
    if records != [] {
      PortPositionsAre(records[..|records| - 1]);
    }
  }

  /** The (guid, record) pairs of the header lines, in order. */
  function SwitchPairs(records: seq<Record>): seq<(string, Switch)> {
    if records == [] then [] else
      var last := records[|records| - 1];
      SwitchPairs(records[..|records| - 1]) + if last.SwitchRecord? then [(last.sw.guid, last.sw)] else []
  }

  function HostPairs(records: seq<Record>): seq<(string, Host)> {
    if records == [] then [] else
      var last := records[|records| - 1];
      HostPairs(records[..|records| - 1]) + if last.HostRecord? then [(last.host.guid, last.host)] else []
  }

  /** The connections are the connectivity lines, one to one and in order, each from the guid of
      the nearest header above it. */
  ghost predicate ConnectionsMatch(records: seq<Record>, connections: seq<Connection>) {
    var positions := PortPositions(records);
    |connections| == |positions| && forall j | 0 <= j < |connections| :: IsConnectionAt(records, positions[j], connections[j])
  }

  predicate IsConnectionAt(records: seq<Record>, k: nat, c: Connection) {
    k < |records| && records[k].PortRecord? && c == Connection(NearestGuid(records[..k]), records[k].port)
  }

  /** What a scan has collected: the current guid, the connections, and per guid the first switch
      and the first host with it. */
  ghost predicate Collected(records: seq<Record>, st: State) {
    && st.guid == NearestGuid(records)
    && ConnectionsMatch(records, st.fabric.connections)
    && st.fabric.switches == EmplaceAll(map[], SwitchPairs(records))
    && st.fabric.hosts == EmplaceAll(map[], HostPairs(records))
  }

  lemma {:induction false} ScanLaw(records: seq<Record>)
    ensures Scan(records).Some? ==> Collected(records, Scan(records).value)
  {
    if records != [] && Scan(records).Some? {
      var before, last := records[..|records| - 1], records[|records| - 1];
      ScanLaw(before);
      CollectedStep(before, last, Scan(before).value);
      assert records == before + [last];
    }
  }

  lemma CollectedStep(before: seq<Record>, r: Record, st: State)
    requires Collected(before, st) && Step(st, r).Some?
    ensures Collected(before + [r], Step(st, r).value)
  {
    assert (before + [r])[..|before|] == before;
    PairsStep(before, r);
    MatchStep(before, r, st);
  }

  lemma PairsStep(before: seq<Record>, r: Record)
    ensures EmplaceAll(map[], SwitchPairs(before + [r])) == if r.SwitchRecord?
              then Emplace(EmplaceAll(map[], SwitchPairs(before)), r.sw.guid, r.sw) else EmplaceAll(map[], SwitchPairs(before))
    ensures EmplaceAll(map[], HostPairs(before + [r])) == if r.HostRecord?
              then Emplace(EmplaceAll(map[], HostPairs(before)), r.host.guid, r.host) else EmplaceAll(map[], HostPairs(before))
  {
    assert (before + [r])[..|before|] == before;
    if r.SwitchRecord? { EmplaceOneMore(SwitchPairs(before), (r.sw.guid, r.sw)); }
    if r.HostRecord? { EmplaceOneMore(HostPairs(before), (r.host.guid, r.host)); }
    assert SwitchPairs(before) + [] == SwitchPairs(before) && HostPairs(before) + [] == HostPairs(before);
  }

  lemma EmplaceOneMore<V>(pairs: seq<(string, V)>, pair: (string, V))
    ensures EmplaceAll(map[], pairs + [pair]) == Emplace(EmplaceAll(map[], pairs), pair.0, pair.1)
  {
    assert (pairs + [pair])[..|pairs|] == pairs;
  }

  lemma MatchStep(before: seq<Record>, r: Record, st: State)
    requires ConnectionsMatch(before, st.fabric.connections) && st.guid == NearestGuid(before)
    requires Step(st, r).Some?
    ensures ConnectionsMatch(before + [r], Step(st, r).value.fabric.connections)
  {
    var records, done := before + [r], st.fabric.connections;
    assert records[..|before|] == before;
    var positions := PortPositions(records);
    forall j | 0 <= j < |done| ensures IsConnectionAt(records, positions[j], done[j]) {
      var k := PortPositions(before)[j];
      assert positions[j] == k && IsConnectionAt(before, k, done[j]);
      assert records[..k] == before[..k];
    }
    if r.PortRecord? {
      assert IsConnectionAt(records, |before|, Connection(st.guid, r.port));
    }
  }

  /** Every key is the guid of its record, and the record is the first with this guid. */
  lemma KeysAreGuids(records: seq<Record>, guid: string)
    requires Scan(records).Some?
    ensures var f := Scan(records).value.fabric;
            && Get(f.switches, guid) == FirstOf(SwitchPairs(records), guid)
            && Get(f.hosts, guid) == FirstOf(HostPairs(records), guid)
            && (guid in f.switches ==> f.switches[guid].guid == guid)
            && (guid in f.hosts ==> f.hosts[guid].guid == guid)
  {
    ScanLaw(records);
    EmplaceAllIs(map[], SwitchPairs(records), guid);
    EmplaceAllIs(map[], HostPairs(records), guid);
    FirstOfIs(SwitchPairs(records), guid);
    FirstOfIs(HostPairs(records), guid);
    PairsAreKeyed(records);
  }

  lemma {:induction false} PairsAreKeyed(records: seq<Record>)
    ensures forall p | p in SwitchPairs(records) :: p.0 == p.1.guid
    ensures forall p | p in HostPairs(records) :: p.0 == p.1.guid
  {
    if records != [] {
      PairsAreKeyed(records[..|records| - 1]);
    }
  }

  predicate Known(f: Fabric, guid: string) {
    guid in f.switches || guid in f.hosts
  }

  lemma {:induction false} HeadersAreKnown(records: seq<Record>, j: nat)
    requires Scan(records).Some? && j < |records| && IsHeader(records[j])
    ensures Known(Scan(records).value.fabric, HeaderGuid(records[j]))
  {
    var n := |records| - 1;
    if j < n {
      HeadersAreKnown(records[..n], j);
    }
  }

  lemma {:induction false} OnlyHeadersAreKnown(records: seq<Record>, guid: string)
    requires Scan(records).Some? && Known(Scan(records).value.fabric, guid)
    ensures exists r :: r in records && IsHeader(r) && HeaderGuid(r) == guid
  {
    var before, last := records[..|records| - 1], records[|records| - 1];
    if Known(Scan(before).value.fabric, guid) {
      OnlyHeadersAreKnown(before, guid);
      var r :| r in before && IsHeader(r) && HeaderGuid(r) == guid;
      assert r in records;
    } else {
      assert last in records && IsHeader(last);
    }
  }

  ghost predicate AllResolved(f: Fabric) {
    forall c | c in f.connections :: Known(f, c.fromGuid)
  }

  /** Every connection starts at a known switch or host if and only if no connectivity line comes
      before the first header (header guids are never empty). */
  lemma ResolvedIff(records: seq<Record>)
    requires Scan(records).Some? && forall r | r in records && IsHeader(r) :: HeaderGuid(r) != []
    ensures AllResolved(Scan(records).value.fabric)
       <==> forall k | 0 <= k < |records| && records[k].PortRecord? :: !NoHeader(records[..k])
  {
    var f := Scan(records).value.fabric;
    ScanLaw(records);
    PortPositionsAre(records);
    var positions := PortPositions(records);
    forall k | 0 <= k < |records| && records[k].PortRecord?
      ensures Known(f, NearestGuid(records[..k])) <==> !NoHeader(records[..k])
    {
      FromHeader(records, k);
    }
    if AllResolved(f) {
      forall k | 0 <= k < |records| && records[k].PortRecord? ensures !NoHeader(records[..k]) {
        assert k in positions;
        var j :| 0 <= j < |positions| && positions[j] == k;
        assert IsConnectionAt(records, k, f.connections[j]);
      }
    }
    if forall k | 0 <= k < |records| && records[k].PortRecord? :: !NoHeader(records[..k]) {
      forall c | c in f.connections ensures Known(f, c.fromGuid) {
        var j :| 0 <= j < |f.connections| && f.connections[j] == c;
        assert IsConnectionAt(records, positions[j], c);
      }
    }
  }

  lemma FromHeader(records: seq<Record>, k: nat)
    requires Scan(records).Some? && k <= |records|
    requires forall r | r in records && IsHeader(r) :: HeaderGuid(r) != []
    ensures Known(Scan(records).value.fabric, NearestGuid(records[..k])) <==> !NoHeader(records[..k])
  {
    var above := records[..k];
    NearestGuidIs(above);
    if NoHeader(above) {
      assert NearestGuid(above) == [] by {
        if j :| 0 <= j < |above| && IsHeader(above[j]) && HeaderGuid(above[j]) == NearestGuid(above) {
          assert false;
        }
      }
      if Known(Scan(records).value.fabric, []) {
        OnlyHeadersAreKnown(records, []);
      }
    } else {
      var j :| 0 <= j < |above| && IsHeader(above[j]) && HeaderGuid(above[j]) == NearestGuid(above);
      assert above[j] == records[j];
      HeadersAreKnown(records, j);
    }
  }

  lemma ReadFrom(line: string)
    ensures Read(line).SwitchRecord? ==> Match(SWITCH, line).Some?
                                         && Read(line).sw.guid == (CaptureCounts(); Trim(Match(SWITCH, line).value[1]))
    ensures Read(line).HostRecord? ==> Match(HOST, line).Some?
                                       && Read(line).host.guid == (CaptureCounts(); Trim(Match(HOST, line).value[1]))
  {
  }

  /** Headers that were read from lines do have a guid. */
  lemma ReadGuids(line: string)
    ensures IsHeader(Read(line)) ==> HeaderGuid(Read(line)) != []
  {
    ReadFrom(line);
    if Read(line).SwitchRecord? {
      AboutSwitch();
      GuidCapture(SWITCH, line);
    } else if Read(line).HostRecord? {
      AboutHost();
      GuidCapture(HOST, line);
    }
  }

  predicate HeaderFirst(records: seq<Record>) {
    forall k | 0 <= k < |records| && records[k].PortRecord? :: !NoHeader(records[..k])
  }

  predicate GuidsGiven(records: seq<Record>) {
    forall r | r in records && IsHeader(r) :: HeaderGuid(r) != []
  }

  lemma ReadGuidsGiven(lines: seq<string>)
    ensures GuidsGiven(ReadAll(lines))
  {
    var records := ReadAll(lines);
    forall r | r in records && IsHeader(r) ensures HeaderGuid(r) != [] {
      var i :| 0 <= i < |records| && records[i] == r;
      ReadGuids(lines[i]);
    }
  }

  /** Of a text that is collected: every connection starts at a known switch or host if and only if
      no connectivity line comes before the first header. */
  lemma CollectedResolvedIff(text: string)
    requires Scan(ReadAll(LinesOf(text))).Some?
    ensures AllResolved(Scan(ReadAll(LinesOf(text))).value.fabric) <==> HeaderFirst(ReadAll(LinesOf(text)))
  {
    ReadGuidsGiven(LinesOf(text));
    ResolvedIff(ReadAll(LinesOf(text)));
  }

  lemma GuidCapture(p: Pattern, line: string)
    requires Match(p, line).Some? && |Slots(p)| > 1 && Slots(p)[1] == (WordOrHyphen, 1)
    ensures Trim(Match(p, line).value[1]) != []
  {
    MatchCaptures(p, line);
    var guid := Match(p, line).value[1];
    assert AllIn(guid, Slots(p)[1].0) && |guid| >= Slots(p)[1].1;
    assert In(guid[0], WordOrHyphen) && In(guid[|guid| - 1], WordOrHyphen);
    TrimOfTrimmed(guid);
  }

  // ---------------------------------------------------------------- writing records as lines

  function FormOf(r: Record): Pattern
    requires IsHeader(r) || r.PortRecord?
  {
    match r
    case SwitchRecord(_) => SWITCH
    case HostRecord(_) => HOST
    case PortRecord(SwitchPort(_, _, _, _, _, _, _)) => SWITCH_PORT
    case PortRecord(HostPort(_, _, _, _, _, _, _, _, _)) => HOST_PORT
  }

  /** What stands in the places of a line; rest is what follows the port type of a switch. */
  function FieldsOf(r: Record, rest: string): seq<string>
    requires IsHeader(r) || r.PortRecord?
  {
    match r
    case SwitchRecord(s) => [Decimal(s.numPorts), s.guid, s.description, s.portType, rest]
    case HostRecord(h) => [Decimal(h.numPorts), h.guid, h.description]
    case PortRecord(SwitchPort(local, guid, port, portGuid, description, lid, speed)) =>
      [Decimal(local), guid, Decimal(port), portGuid, description, Decimal(lid), speed]
    case PortRecord(HostPort(local, portGuid, guid, port, localLid, lmc, description, lid, speed)) =>
      [Decimal(local), portGuid, guid, Decimal(port), Decimal(localLid), Decimal(lmc), description, Decimal(lid), speed]
  }

  /** The numbers std::stoi can return. */
  predicate InRange(r: Record) {
    match r
    case SwitchRecord(s) => s.numPorts < 0x8000_0000
    case HostRecord(h) => h.numPorts < 0x8000_0000
    case PortRecord(SwitchPort(local, _, port, _, _, lid, _)) => local < 0x8000_0000 && port < 0x8000_0000 && lid < 0x8000_0000
    case PortRecord(HostPort(local, _, _, port, localLid, lmc, _, lid, _)) =>
      local < 0x8000_0000 && port < 0x8000_0000 && localLid < 0x8000_0000 && lmc < 0x8000_0000 && lid < 0x8000_0000
    case _ => true
  }

  /** The record with every text trimmed. */
  function TrimmedTexts(r: Record): Record {
    match r
    case SwitchRecord(s) => SwitchRecord(Switch(s.numPorts, Trim(s.guid), Trim(s.description), Trim(s.portType)))
    case HostRecord(h) => HostRecord(Host(h.numPorts, Trim(h.guid), Trim(h.description)))
    case PortRecord(SwitchPort(local, guid, port, portGuid, description, lid, speed)) =>
      PortRecord(SwitchPort(local, Trim(guid), port, Trim(portGuid), Trim(description), lid, Trim(speed)))
    case PortRecord(HostPort(local, portGuid, guid, port, localLid, lmc, description, lid, speed)) =>
      PortRecord(HostPort(local, Trim(portGuid), Trim(guid), port, localLid, lmc, Trim(description), lid, Trim(speed)))
    case _ => r
  }

  predicate Filled(s: string, cls: Class) {
    s != [] && AllIn(s, cls)
  }

  /** The texts of the record can stand where its form wants them. */
  predicate Writable(r: Record, rest: string) {
    match r
    case SwitchRecord(s) => Filled(s.guid, WordOrHyphen) && Filled(s.description, NotQuote) && Filled(s.portType, Word)
                            && AllIn(rest, AnyChar) && Apart(rest, Word)
    case HostRecord(h) => Filled(h.guid, WordOrHyphen) && Filled(h.description, NotQuote)
    case PortRecord(SwitchPort(_, guid, _, portGuid, description, _, speed)) =>
      Filled(guid, WordOrHyphen) && AllIn(portGuid, NotParen) && Filled(description, NotQuote)
      && AllIn(speed, AnyChar) && Apart(speed, Space)
    case PortRecord(HostPort(_, portGuid, guid, _, _, _, description, _, speed)) =>
      Filled(portGuid, NotParen) && Filled(guid, NotQuote) && Filled(description, NotQuote)
      && AllIn(speed, AnyChar) && Apart(speed, Space)
    case _ => false
  }

  lemma NumberField(n: nat)
    ensures Filled(Decimal(n), Digit)
    ensures Stoi(Trim(Decimal(n))) == if n < 0x8000_0000 then Some(n) else None
  {
    var s := Decimal(n);
    assert IsDigit(s[0]) && IsDigit(s[|s| - 1]);
    TrimOfTrimmed(s);
    DecimalRoundTrip(n);
    assert forall i | 0 <= i < |s| :: In(s[i], Digit);
  }

  lemma DigitField(n: nat)
    ensures Filled(Decimal(n), Digit)
  {
    NumberField(n);
  }

  /** A field list is capturable when each field is, one by one. */
  lemma {:induction false} EachCapturable(p: Pattern, fields: seq<string>, slots: seq<(Class, nat)>)
    requires slots == Slots(p) && |fields| == |slots|
    requires forall i | 0 <= i < |fields| :: AllIn(fields[i], slots[i].0) && slots[i].1 <= |fields[i]|
    requires BeforeRest(p).Some? && fields != [] ==> Apart(fields[|fields| - 1], BeforeRest(p).value)
    ensures Capturable(p, fields) && RestApart(p, fields)
  {
  }

  lemma SwitchFields(s: Switch, rest: string)
    requires Writable(SwitchRecord(s), rest)
    ensures Capturable(SWITCH, FieldsOf(SwitchRecord(s), rest)) && RestApart(SWITCH, FieldsOf(SwitchRecord(s), rest))
  {
    DigitField(s.numPorts);
    AboutSwitch();
    EachCapturable(SWITCH, FieldsOf(SwitchRecord(s), rest),
                   [(Digit, 1), (WordOrHyphen, 1), (NotQuote, 1), (Word, 1), (AnyChar, 0)]);
  }

  lemma HostFields(h: Host)
    requires Writable(HostRecord(h), [])
    ensures Capturable(HOST, FieldsOf(HostRecord(h), [])) && RestApart(HOST, FieldsOf(HostRecord(h), []))
  {
    DigitField(h.numPorts);
    AboutHost();
    EachCapturable(HOST, FieldsOf(HostRecord(h), []), [(Digit, 1), (WordOrHyphen, 1), (NotQuote, 1)]);
  }

  lemma SwitchPortFields(p: Port)
    requires p.SwitchPort? && Writable(PortRecord(p), [])
    ensures Capturable(SWITCH_PORT, FieldsOf(PortRecord(p), [])) && RestApart(SWITCH_PORT, FieldsOf(PortRecord(p), []))
  {
    DigitField(p.localPort);
    DigitField(p.peerPort);
    DigitField(p.peerLid);
    AboutSwitchPort();
    EachCapturable(SWITCH_PORT, FieldsOf(PortRecord(p), []),
                   [(Digit, 1), (WordOrHyphen, 1), (Digit, 1), (NotParen, 0), (NotQuote, 1), (Digit, 1), (AnyChar, 0)]);
  }

  lemma HostPortFields(p: Port)
    requires p.HostPort? && Writable(PortRecord(p), [])
    ensures Capturable(HOST_PORT, FieldsOf(PortRecord(p), [])) && RestApart(HOST_PORT, FieldsOf(PortRecord(p), []))
  {
    DigitField(p.localPort);
    DigitField(p.peerPort);
    DigitField(p.localLid);
    DigitField(p.localLmc);
    DigitField(p.peerLid);
    AboutHostPort();
    EachCapturable(HOST_PORT, FieldsOf(PortRecord(p), []),
                   [(Digit, 1), (NotParen, 1), (NotQuote, 1), (Digit, 1), (Digit, 1), (Digit, 1), (NotQuote, 1), (Digit, 1),
                    (AnyChar, 0)]);
  }

  /** The free choices in writing a line: the blanks, and what follows the port type of a switch. */
  datatype Layout = Layout(gaps: seq<string>, rest: string)

  predicate Fits(r: Record, layout: Layout) {
    && Writable(r, layout.rest)
    && |layout.gaps| == Gaps(FormOf(r)) && Blanks(layout.gaps)
  }

  lemma FieldsFit(r: Record, rest: string)
    requires Writable(r, rest)
    ensures Capturable(FormOf(r), FieldsOf(r, rest)) && RestApart(FormOf(r), FieldsOf(r, rest))
  {
    match r
    case SwitchRecord(s) => SwitchFields(s, rest);
    case HostRecord(h) => HostFields(h);
    case PortRecord(p) => if p.SwitchPort? { SwitchPortFields(p); } else { HostPortFields(p); }
  }

  function LineOf(r: Record, layout: Layout): string
    requires Fits(r, layout)
  {
    FieldsFit(r, layout.rest);
    Write(FormOf(r), FieldsOf(r, layout.rest), layout.gaps)
  }

  lemma FormNoChoice(r: Record)
    requires IsHeader(r) || r.PortRecord?
    ensures NoChoice(FormOf(r))
  {
    match r
    case SwitchRecord(_) => AboutSwitch();
    case HostRecord(_) => AboutHost();
    case PortRecord(p) => if p.SwitchPort? { AboutSwitchPort(); } else { AboutHostPort(); }
  }

  lemma FormMatches(r: Record, layout: Layout)
    requires Fits(r, layout)
    ensures Match(FormOf(r), LineOf(r, layout)) == Some(FieldsOf(r, layout.rest))
  {
    FieldsFit(r, layout.rest);
    FormNoChoice(r);
    MatchWritten(FormOf(r), FieldsOf(r, layout.rest), layout.gaps);
  }

  /** What the function that belongs to the form makes of the fields. */
  function Assembled(r: Record, rest: string): Record
    requires IsHeader(r) || r.PortRecord?
  {
    match r
    case SwitchRecord(_) => AssembleSwitch(FieldsOf(r, rest))
    case HostRecord(_) => AssembleHost(FieldsOf(r, rest))
    case PortRecord(SwitchPort(_, _, _, _, _, _, _)) => AssembleSwitchPort(FieldsOf(r, rest))
    case PortRecord(HostPort(_, _, _, _, _, _, _, _, _)) => AssembleHostPort(FieldsOf(r, rest))
  }

  lemma SwitchPortAssembled(p: Port)
    requires p.SwitchPort?
    ensures AssembleSwitchPort(FieldsOf(PortRecord(p), [])) == if InRange(PortRecord(p)) then TrimmedTexts(PortRecord(p)) else Overflow
  {
    NumberField(p.localPort);
    NumberField(p.peerPort);
    NumberField(p.peerLid);
  }

  lemma HostPortAssembled(p: Port)
    requires p.HostPort?
    ensures AssembleHostPort(FieldsOf(PortRecord(p), [])) == if InRange(PortRecord(p)) then TrimmedTexts(PortRecord(p)) else Overflow
  {
    NumberField(p.localPort);
    NumberField(p.peerPort);
    NumberField(p.localLid);
    NumberField(p.localLmc);
    NumberField(p.peerLid);
  }

  lemma AssembledIs(r: Record, rest: string)
    requires IsHeader(r) || r.PortRecord?
    ensures Assembled(r, rest) == if InRange(r) then TrimmedTexts(r) else Overflow
  {
    match r
    case SwitchRecord(s) => NumberField(s.numPorts);
    case HostRecord(h) => NumberField(h.numPorts);
    case PortRecord(p) => if p.SwitchPort? { SwitchPortAssembled(p); } else { HostPortAssembled(p); }
  }

  /** Only the form of the record matches, so reading goes the right way. */
  lemma ReadChooses(r: Record, rest: string, line: string)
    requires (IsHeader(r) || r.PortRecord?) && Match(FormOf(r), line) == Some(FieldsOf(r, rest))
    ensures Read(line) == Assembled(r, rest)
  {
    PortFormsDiffer(line);
    LitFirst(FormOf(r).text, FormOf(r).next, line);
    if Match(SWITCH, line).Some? { LitFirst(SWITCH.text, SWITCH.next, line); }
    if Match(HOST, line).Some? { LitFirst(HOST.text, HOST.next, line); }
    if Match(SWITCH_PORT, line).Some? { LitFirst(SWITCH_PORT.text, SWITCH_PORT.next, line); }
    if Match(HOST_PORT, line).Some? { LitFirst(HOST_PORT.text, HOST_PORT.next, line); }
  }

  /** Writing a record and reading the line gives the record back, texts trimmed; when a number is
      too large for an int it raises an error instead. */
  lemma ReadWritten(r: Record, layout: Layout)
    requires Fits(r, layout)
    ensures Read(LineOf(r, layout)) == if InRange(r) then TrimmedTexts(r) else Overflow
  {
    FormMatches(r, layout);
    ReadChooses(r, layout.rest, LineOf(r, layout));
    AssembledIs(r, layout.rest);
  }
}
