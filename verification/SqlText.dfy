/** The text of the SQL scripts (lib/src/extractor_set.cc, lines 94-133): writing and reading back. */
module SqlText {
  import opened Text
  import opened Store
  import opened History

  // ---------------------------------------------------------------- templates with quoted values

  /** Literal pieces with values between them. */
  function Fill(pieces: seq<string>, values: seq<string>): string
    requires |pieces| == |values| + 1
  {
    if values == [] then pieces[0] else pieces[0] + (values[0] + Fill(pieces[1..], values[1..]))
  }

  /** Reading such a text: a value extends to the next single quote. */
  function Match(pieces: seq<string>, text: string): (r: Option<(seq<string>, string)>)
    requires pieces != []
    ensures r.Some? ==> |r.value.0| == |pieces| - 1
  {
    if !(pieces[0] <= text) then None
    else
      var rest := text[|pieces[0]|..];
      if |pieces| == 1 then Some(([], rest))
      else
        var k := IndexOf(rest, '\'');
        var r := Match(pieces[1..], rest[k..]);
        if r.None? then None else Some(([rest[..k]] + r.value.0, r.value.1))
  }

  predicate QuoteFree(values: seq<string>) {
    forall i | 0 <= i < |values| :: '\'' !in values[i]
  }

  /** Every piece after the first starts with the quote that closes the value before it. */
  predicate Closing(pieces: seq<string>) {
    forall i | 0 < i < |pieces| :: pieces[i] != [] && pieces[i][0] == '\''
  }

  lemma MatchStep(pieces: seq<string>, text: string, rest: string, k: nat)
    requires |pieces| > 1 && pieces[0] <= text && rest == text[|pieces[0]|..] && k == IndexOf(rest, '\'')
    ensures var r := Match(pieces[1..], rest[k..]);
            Match(pieces, text) == if r.None? then None else Some(([rest[..k]] + r.value.0, r.value.1))
  {
  }

  lemma MatchNext(pieces: seq<string>, value: string, rest: string, values: seq<string>, tail: string)
    requires |pieces| > 1 && '\'' !in value && rest != [] && rest[0] == '\''
    requires Match(pieces[1..], rest) == Some((values, tail))
    ensures Match(pieces, pieces[0] + (value + rest)) == Some(([value] + values, tail))
  {
    TakeDrop(pieces[0], value + rest);
    TakeDrop(value, rest);
    IndexOfIs(value, rest, '\'');
    MatchStep(pieces, pieces[0] + (value + rest), value + rest, |value|);
  }

  lemma {:induction false} MatchFilled(pieces: seq<string>, values: seq<string>, tail: string)
    requires |pieces| == |values| + 1 && Closing(pieces) && QuoteFree(values)
    ensures Match(pieces, Fill(pieces, values) + tail) == Some((values, tail))
  {
    if values == [] {
      TakeDrop(pieces[0], tail);
    } else {
      var filled := Fill(pieces[1..], values[1..]);
      FilledStart(pieces[1..], values[1..]);
      Associative(pieces[0], values[0] + filled, tail);
      Associative(values[0], filled, tail);
      MatchFilled(pieces[1..], values[1..], tail);
      MatchNext(pieces, values[0], filled + tail, values[1..], tail);
      assert values == [values[0]] + values[1..];
    }
  }

  lemma {:induction false} MatchedIsQuoteFree(pieces: seq<string>, text: string)
    requires pieces != []
    ensures Match(pieces, text).Some? ==> QuoteFree(Match(pieces, text).value.0)
  {
    if Match(pieces, text).Some? && |pieces| > 1 {
      var rest := text[|pieces[0]|..];
      MatchedIsQuoteFree(pieces[1..], rest[IndexOf(rest, '\'')..]);
    }
  }

  // ---------------------------------------------------------------- the four statements

  /** The wording of the statements; each form is its literal pieces behind the verb. */
  datatype Wording = Wording(ignore: string, into: string,
                             host: seq<string>, extractor: seq<string>, data: seq<string>, link: seq<string>)

  /** What makes a wording readable: values are quoted, the first letters of the three tables
      behind the first verb differ, and the two verbs differ. */
  predicate Readable(w: Wording) {
    && |w.host| == 2 && |w.extractor| == 2 && |w.data| == 3 && |w.link| == 5
    && Closing(w.host) && Closing(w.extractor) && Closing(w.data) && Closing(w.link)
    && w.host[0] != [] && w.extractor[0] != [] && w.data[0] != []
    && w.host[0][0] == 'H' && w.extractor[0][0] == 'E' && w.data[0][0] == 'D'
    && |w.into| > 7 && |w.ignore| > 7 && w.into[7] != w.ignore[7]
  }

  /** The wording of extractor_set.cc; the table names and the closing quotes stand by themselves,
      since reading depends on them. */
  const SYSMAP := Wording(
    "insert or ignore into ",
    "insert into ",
    ["Hosttable" + " (Hostname) values ('", "'" + ");\n"],
    ["Extractortable" + " (name) values ('", "'" + ");\n"],
    ["Datatable" + " (EID, Data) values ((select EID from Extractortable where Name = '", "'" + "), '", "'" + ");\n"],
    ["Host2Data (HostID, DID) select (select HostID from Hosttable where Hostname = '",
     "'" + "), (select DID from Datatable where Data = '",
     "'" + ") where not exists (select 1 from Host2Data where HostID = (select HostID from Hosttable where Hostname = '",
     "'" + ") AND DID = (select DID from Datatable where Data = '",
     "'" + "));\n"])

  lemma SysmapReadable()
    ensures Readable(SYSMAP)
  {
  }

  function Pieces(w: Wording, s: Statement): seq<string> {
    match s
    case InsertHost(_) => w.host
    case InsertExtractor(_) => w.extractor
    case InsertData(_, _) => w.data
    case InsertLink(_, _) => w.link
  }

  function Values(s: Statement): seq<string> {
    match s
    case InsertHost(host) => [host]
    case InsertExtractor(name) => [name]
    case InsertData(extractor, data) => [extractor, data]
    case InsertLink(host, data) => [host, data, host, data]
  }

  function Verb(w: Wording, s: Statement): string {
    if s.InsertLink? then w.into else w.ignore
  }

  function Render(w: Wording, s: Statement): string
    requires Readable(w)
  {
    Verb(w, s) + Fill(Pieces(w, s), Values(s))
  }

  function RenderAll(w: Wording, statements: seq<Statement>): string
    requires Readable(w)
  {
    if statements == [] then [] else RenderAll(w, statements[..|statements| - 1]) + Render(w, statements[|statements| - 1])
  }

  function ParseHost(w: Wording, text: string): Option<(Statement, string)>
    requires Readable(w)
  {
    var r := Match(w.host, text);
    if r.None? then None else Some((InsertHost(r.value.0[0]), r.value.1))
  }

  function ParseExtractor(w: Wording, text: string): Option<(Statement, string)>
    requires Readable(w)
  {
    var r := Match(w.extractor, text);
    if r.None? then None else Some((InsertExtractor(r.value.0[0]), r.value.1))
  }

  function ParseData(w: Wording, text: string): Option<(Statement, string)>
    requires Readable(w)
  {
    var r := Match(w.data, text);
    if r.None? then None else Some((InsertData(r.value.0[0], r.value.0[1]), r.value.1))
  }

  /** The host and the payload are written twice and must agree. */
  function ParseLink(w: Wording, text: string): Option<(Statement, string)>
    requires Readable(w)
  {
    var r := Match(w.link, text);
    if r.None? || r.value.0[0] != r.value.0[2] || r.value.0[1] != r.value.0[3] then None else
      Some((InsertLink(r.value.0[0], r.value.0[1]), r.value.1))
  }

  /** Reading one statement: the verb and the first letter of the table decide. */
  function ParseOne(w: Wording, text: string): Option<(Statement, string)>
    requires Readable(w)
  {
    if w.ignore <= text then
      var rest := text[|w.ignore|..];
      if rest == [] then None
      else if rest[0] == 'H' then ParseHost(w, rest)
      else if rest[0] == 'E' then ParseExtractor(w, rest)
      else ParseData(w, rest)
    else if w.into <= text then ParseLink(w, text[|w.into|..])
    else None
  }

  function Parse(w: Wording, text: string): Option<seq<Statement>>
    requires Readable(w)
    decreases |text|
  {
    if text == [] then Some([]) else
      var first := ParseOne(w, text);
      if first.None? || |first.value.1| >= |text| then None else
        var rest := Parse(w, first.value.1);
        if rest.None? then None else Some([first.value.0] + rest.value)
  }

  lemma ParsePieces(w: Wording, s: Statement, tail: string)
    requires Readable(w) && QuoteFree(Values(s))
    ensures Match(Pieces(w, s), Fill(Pieces(w, s), Values(s)) + tail) == Some((Values(s), tail))
  {
    assert Closing(Pieces(w, s));
    MatchFilled(Pieces(w, s), Values(s), tail);
  }

  lemma FilledStart(pieces: seq<string>, values: seq<string>)
    requires |pieces| == |values| + 1 && pieces[0] != []
    ensures Fill(pieces, values) != [] && Fill(pieces, values)[0] == pieces[0][0]
  {
  }

  lemma ParseRendered(w: Wording, s: Statement, tail: string)
    requires Readable(w) && QuoteFree(Values(s))
    ensures ParseOne(w, Render(w, s) + tail) == Some((s, tail))
    ensures |Render(w, s)| > 0
  {
    var filled := Fill(Pieces(w, s), Values(s));
    var text, rest := Render(w, s) + tail, filled + tail;
    Associative(Verb(w, s), filled, tail);
    assert text == Verb(w, s) + rest && text[|Verb(w, s)|..] == rest;
    ParseBody(w, s, tail);
    if s.InsertLink? {
      assert text[7] == w.into[7];
    }
  }

  /** The statement behind its verb. */
  lemma ParseBody(w: Wording, s: Statement, tail: string)
    requires Readable(w) && QuoteFree(Values(s))
    ensures var rest := Fill(Pieces(w, s), Values(s)) + tail;
            match s
            case InsertHost(_) => rest != [] && rest[0] == 'H' && ParseHost(w, rest) == Some((s, tail))
            case InsertExtractor(_) => rest != [] && rest[0] == 'E' && ParseExtractor(w, rest) == Some((s, tail))
            case InsertData(_, _) => rest != [] && rest[0] == 'D' && ParseData(w, rest) == Some((s, tail))
            case InsertLink(_, _) => ParseLink(w, rest) == Some((s, tail))
  {
    ParsePieces(w, s, tail);
    if !s.InsertLink? {
      FilledStart(Pieces(w, s), Values(s));
    }
  }

  predicate AllQuoteFree(statements: seq<Statement>) {
    forall i | 0 <= i < |statements| :: QuoteFree(Values(statements[i]))
  }

  lemma {:induction false} RenderAllFirst(w: Wording, s: Statement, rest: seq<Statement>)
    requires Readable(w)
    ensures RenderAll(w, [s] + rest) == Render(w, s) + RenderAll(w, rest)
  {
    if rest == [] {
      assert [s] + rest == [s] && [s][..0] == [];
    } else {
      var n := |rest| - 1;
      LastOfConcat([s], rest);
      RenderAllFirst(w, s, rest[..n]);
      Associative(Render(w, s), RenderAll(w, rest[..n]), Render(w, rest[n]));
    }
  }

  lemma {:induction false} ParseRenderedAll(w: Wording, statements: seq<Statement>)
    requires Readable(w) && AllQuoteFree(statements)
    ensures Parse(w, RenderAll(w, statements)) == Some(statements)
    decreases |statements|
  {
    if statements != [] {
      var s, rest := statements[0], statements[1..];
      assert statements == [s] + rest;
      RenderAllFirst(w, s, rest);
      ParseRendered(w, s, RenderAll(w, rest));
      ParseRenderedAll(w, rest);
    }
  }

  lemma ParsedIsQuoteFree(w: Wording, text: string)
    requires Readable(w)
    ensures ParseOne(w, text).Some? ==> QuoteFree(Values(ParseOne(w, text).value.0))
  {
    if w.ignore <= text {
      var rest := text[|w.ignore|..];
      MatchedIsQuoteFree(w.host, rest);
      MatchedIsQuoteFree(w.extractor, rest);
      MatchedIsQuoteFree(w.data, rest);
    } else if w.into <= text {
      MatchedIsQuoteFree(w.link, text[|w.into|..]);
    }
  }

  lemma {:induction false} ParsedAllIsQuoteFree(w: Wording, text: string)
    requires Readable(w)
    ensures Parse(w, text).Some? ==> AllQuoteFree(Parse(w, text).value)
    decreases |text|
  {
    if text != [] && Parse(w, text).Some? {
      ParsedIsQuoteFree(w, text);
      ParsedAllIsQuoteFree(w, ParseOne(w, text).value.1);
    }
  }

  /** Reading the text of any statements gives them back if and only if no value contains a
      single quote. */
  lemma TextRoundTripIff(w: Wording, statements: seq<Statement>)
    requires Readable(w)
    ensures Parse(w, RenderAll(w, statements)) == Some(statements) <==> AllQuoteFree(statements)
  {
    if AllQuoteFree(statements) {
      ParseRenderedAll(w, statements);
    }
    ParsedAllIsQuoteFree(w, RenderAll(w, statements));
  }

  // ---------------------------------------------------------------- whole scripts

  lemma {:induction false} InfosCount(host: string, infos: seq<Info>)
    ensures |InfosStatements(host, infos)| == 3 * |infos|
  {
    if infos != [] {
      InfosCount(host, infos[..|infos| - 1]);
    }
  }

  /** No hostname, extractor name or payload of the script contains a single quote. */
  predicate ScriptQuoteFree(s: Script) {
    '\'' !in s.host && forall i | 0 <= i < |s.infos| :: '\'' !in s.infos[i].name && '\'' !in s.infos[i].payload
  }

  lemma {:induction false} InfosQuoteFree(host: string, infos: seq<Info>)
    ensures '\'' !in host ==>
      (AllQuoteFree(InfosStatements(host, infos))
       <==> forall i | 0 <= i < |infos| :: '\'' !in infos[i].name && '\'' !in infos[i].payload)
  {
    if infos != [] {
      var before, info := infos[..|infos| - 1], infos[|infos| - 1];
      InfosQuoteFree(host, before);
      var a, b := InfosStatements(host, before), InfoStatements(host, info);
      AllQuoteFreeOfTwo(a, b);
      CStrQuoteFree(info.name);
      InfoQuoteFree(host, info);
      assert forall i | 0 <= i < |before| :: before[i] == infos[i];
    }
  }

  lemma AllQuoteFreeOfTwo(a: seq<Statement>, b: seq<Statement>)
    ensures AllQuoteFree(a + b) <==> AllQuoteFree(a) && AllQuoteFree(b)
  {
    assert forall i | 0 <= i < |a| :: (a + b)[i] == a[i];
    assert forall i | 0 <= i < |b| :: (a + b)[|a| + i] == b[i];
  }

  lemma CStrQuoteFree(s: string)
    ensures '\'' !in s ==> '\'' !in CStr(s)
  {
  }

  lemma InfoQuoteFree(host: string, info: Info)
    ensures '\'' !in host ==>
      (AllQuoteFree(InfoStatements(host, info)) <==> '\'' !in info.name && '\'' !in info.payload)
  {
    CStrQuoteFree(info.name);
    var three := InfoStatements(host, info);
    assert AllQuoteFree(three) <==> QuoteFree(Values(three[0])) && QuoteFree(Values(three[1])) && QuoteFree(Values(three[2]));
    var v := Values(three[1]);
    assert QuoteFree(v) <==> '\'' !in v[0] && '\'' !in v[1];
  }

  /** The text toSQL writes for one host reads back as exactly 1 + 3 * |infos| statements with the
      original strings, if and only if none of these contains a single quote. */
  lemma ScriptRoundTripIff(s: Script)
    ensures Readable(SYSMAP) && |Statements(s)| == 1 + 3 * |s.infos|
    ensures Parse(SYSMAP, RenderAll(SYSMAP, Statements(s))) == Some(Statements(s)) <==> ScriptQuoteFree(s)
  {
    SysmapReadable();
    InfosCount(s.host, s.infos);
    TextRoundTripIff(SYSMAP, Statements(s));
    ScriptValues(s);
  }

  /** A quote in the hostname is enough. */
  lemma QuoteInHostname(infos: seq<Info>)
    ensures Readable(SYSMAP)
    ensures var s := Script("o'brien", infos); Parse(SYSMAP, RenderAll(SYSMAP, Statements(s))) != Some(Statements(s))
  {
    assert "o'brien"[1] == '\'';
    ScriptRoundTripIff(Script("o'brien", infos));
  }

  lemma ScriptValues(s: Script)
    ensures AllQuoteFree(Statements(s)) <==> ScriptQuoteFree(s)
  {
    var first := InsertHost(s.host);
    InfosQuoteFree(s.host, s.infos);
    AllQuoteFreeOfTwo([first], InfosStatements(s.host, s.infos));
    assert Values(first) == [s.host];
    assert AllQuoteFree([first]) <==> '\'' !in s.host by {
      assert [first][0] == first && [s.host][0] == s.host;
    }
  }
}
