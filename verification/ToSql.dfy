/** Extractor_Set::toSQL (lib/src/extractor_set.cc, lines 94-133): from the infomap to the text of
    a script, and from there back to what is stored. */
module ToSql {
  import opened Text
  import opened Store
  import opened History
  import opened Json
  import opened SqlText

  /** The script of a host: its findings in key order, each as JSON text. `jsonText` is the text
      rapidjson produces for an event stream. */
  ghost function ScriptOf(host: string, infomap: map<string, Value>, jsonText: seq<Event> -> string): Script {
    var keys := Ordered(infomap.Keys);
    Script(host, seq(|keys|, i requires 0 <= i < |keys| => Info(keys[i], jsonText(Events(infomap[keys[i]])))))
  }

  // ---------------------------------------------------------------- the text in full

  function HostText(host: string): string {
    "insert or ignore into " + "Hosttable" + " (Hostname) values ('" + host + "'" + ");\n"
  }

  function ExtractorText(name: string): string {
    "insert or ignore into " + "Extractortable" + " (name) values ('" + name + "'" + ");\n"
  }

  function DataText(name: string, payload: string): string {
    "insert or ignore into " + "Datatable" + " (EID, Data) values ((select EID from Extractortable where Name = '" + name
    + "'" + "), '" + payload + "'" + ");\n"
  }

  function LinkText(host: string, payload: string): string {
    "insert into " + "Host2Data (HostID, DID) select (select HostID from Hosttable where Hostname = '" + host
    + "'" + "), (select DID from Datatable where Data = '" + payload
    + "'" + ") where not exists (select 1 from Host2Data where HostID = (select HostID from Hosttable where Hostname = '" + host
    + "'" + ") AND DID = (select DID from Datatable where Data = '" + payload + "'" + "));\n"
  }

  /** The three statements of a finding; the extractor is stored under its name as a C string. */
  function FindingText(host: string, name: string, payload: string): string {
    ExtractorText(CStr(name)) + DataText(name, payload) + LinkText(host, payload)
  }

  function Glue(texts: seq<string>): string {
    if texts == [] then [] else Glue(texts[..|texts| - 1]) + texts[|texts| - 1]
  }

  function TextFor(host: string): (string, string) -> string {
    (name, payload) => FindingText(host, name, payload)
  }

  /** The host's statement and then the findings in ascending order of their names. */
  ghost predicate IsScriptText(text: string, host: string, infomap: map<string, Value>, jsonText: seq<Event> -> string) {
    exists keys: seq<string>, texts: seq<string> ::
      text == HostText(host) + Glue(texts) && AreTexts(infomap, jsonText, TextFor(host), keys, texts)
  }

  /** One text per finding, of its name and its JSON text. */
  ghost predicate AreTexts(infomap: map<string, Value>, jsonText: seq<Event> -> string, textFor: (string, string) -> string,
                           keys: seq<string>, texts: seq<string>) {
    && Ascending(keys) && (forall k :: k in keys <==> k in infomap) && |texts| == |keys|
    && forall i | 0 <= i < |keys| :: keys[i] in infomap && texts[i] == textFor(keys[i], jsonText(Events(infomap[keys[i]])))
  }

  // The same, statement by statement, for a wording cut into pieces.

  lemma FlatOne(v: string, a: string, b: string, x: string, c: string, d: string)
    ensures v + Fill([a + b, c + d], [x]) == v + a + b + x + c + d
  {
    assert [a + b, c + d][1..] == [c + d] && [x][1..] == [];
    Associative(v, a, b);
    Associative(v + a + b, x, c);
    Associative(v + a + b, x + c, d);
    Associative(x, c, d);
    Associative(v, a + b, x + (c + d));
    Associative(v + a + b, x, c + d);
  }

  lemma FlatTwo(v: string, a: string, b: string, x: string, c: string, d: string, y: string, e: string, f: string)
    ensures v + Fill([a + b, c + d, e + f], [x, y]) == v + a + b + x + c + d + y + e + f
  {
    assert [a + b, c + d, e + f][1..] == [c + d, e + f] && [x, y][1..] == [y];
    var head := v + a + b + x;
    FlatOne(head, c, d, y, e, f);
    Associative(v, a, b);
    Associative(v, a + b, x + Fill([c + d, e + f], [y]));
    Associative(v + a + b, x, Fill([c + d, e + f], [y]));
  }

  /** A first piece that is one literal. */
  lemma FlatFour(v: string, a: string, x: string, b: string, c: string, y: string, d: string, e: string,
                 z: string, f: string, g: string, u: string, h: string, i: string)
    ensures v + Fill([a, b + c, d + e, f + g, h + i], [x, y, z, u])
         == v + a + x + b + c + y + d + e + z + f + g + u + h + i
  {
    assert [a, b + c, d + e, f + g, h + i][1..] == [b + c, d + e, f + g, h + i] && [x, y, z, u][1..] == [y, z, u];
    assert [b + c, d + e, f + g, h + i][1..] == [d + e, f + g, h + i] && [y, z, u][1..] == [z, u];
    var one, two := Fill([b + c, d + e, f + g, h + i], [y, z, u]), Fill([d + e, f + g, h + i], [z, u]);
    var head := v + a + x;
    FlatTwo(head + b + c + y, d, e, z, f, g, u, h, i);
    Associative(v, a, x + one);
    Associative(v + a, x, one);
    Associative(head, b, c);
    Associative(head, b + c, y + two);
    Associative(head + b + c, y, two);
  }

  lemma RenderedInFull(s: Statement)
    ensures Readable(SYSMAP)
    ensures match s
            case InsertHost(host) => Render(SYSMAP, s) == HostText(host)
            case InsertExtractor(name) => Render(SYSMAP, s) == ExtractorText(name)
            case InsertData(name, payload) => Render(SYSMAP, s) == DataText(name, payload)
            case InsertLink(host, payload) => Render(SYSMAP, s) == LinkText(host, payload)
  {
    SysmapReadable();
    match s
    case InsertHost(host) =>
      FlatOne("insert or ignore into ", "Hosttable", " (Hostname) values ('", host, "'", ");\n");
    case InsertExtractor(name) =>
      FlatOne("insert or ignore into ", "Extractortable", " (name) values ('", name, "'", ");\n");
    case InsertData(name, payload) =>
      FlatTwo("insert or ignore into ", "Datatable", " (EID, Data) values ((select EID from Extractortable where Name = '",
              name, "'", "), '", payload, "'", ");\n");
    case InsertLink(host, payload) =>
      FlatFour("insert into ", "Host2Data (HostID, DID) select (select HostID from Hosttable where Hostname = '", host,
               "'", "), (select DID from Datatable where Data = '", payload,
               "'", ") where not exists (select 1 from Host2Data where HostID = (select HostID from Hosttable where Hostname = '",
               host, "'", ") AND DID = (select DID from Datatable where Data = '", payload, "'", "));\n");
  }

  lemma InfoInFull(host: string, info: Info)
    ensures Readable(SYSMAP) && InfoText(SYSMAP, host, info) == FindingText(host, info.name, info.payload)
  {
    RenderedInFull(InsertExtractor(CStr(info.name)));
    RenderedInFull(InsertData(info.name, info.payload));
    RenderedInFull(InsertLink(host, info.payload));
  }

  lemma {:induction false} TextInFull(host: string, infos: seq<Info>, texts: seq<string>)
    requires |texts| == |infos|
    requires forall i | 0 <= i < |infos| :: texts[i] == TextFor(host)(infos[i].name, infos[i].payload)
    ensures Readable(SYSMAP) && TextOf(SYSMAP, host, infos) == HostText(host) + Glue(texts)
  {
    RenderedInFull(InsertHost(host));
    if infos == [] {
      assert HostText(host) + [] == HostText(host);
    } else {
      var n := |infos| - 1;
      TextInFull(host, infos[..n], texts[..n]);
      InfoInFull(host, infos[n]);
      Associative(HostText(host), Glue(texts[..n]), texts[n]);
    }
  }

  lemma FindingTexts(host: string, infomap: map<string, Value>, jsonText: seq<Event> -> string, textFor: (string, string) -> string)
    returns (keys: seq<string>, texts: seq<string>)
    ensures AreTexts(infomap, jsonText, textFor, keys, texts)
    ensures var infos := ScriptOf(host, infomap, jsonText).infos;
            |texts| == |infos| && forall i | 0 <= i < |infos| :: texts[i] == textFor(infos[i].name, infos[i].payload)
  {
    var infos := ScriptOf(host, infomap, jsonText).infos;
    keys := Ordered(infomap.Keys);
    KeysCover(infomap);
    texts := seq(|infos|, i requires 0 <= i < |infos| => textFor(infos[i].name, infos[i].payload));
    forall i | 0 <= i < |keys| ensures keys[i] in infomap
                                    && infos[i] == Info(keys[i], jsonText(Events(infomap[keys[i]]))) {
      assert keys[i] in keys;
    }
  }

  lemma ScriptInFull(host: string, infomap: map<string, Value>, jsonText: seq<Event> -> string)
    ensures Readable(SYSMAP)
    ensures IsScriptText(TextOf(SYSMAP, host, ScriptOf(host, infomap, jsonText).infos), host, infomap, jsonText)
  {
    var keys, texts := FindingTexts(host, infomap, jsonText, TextFor(host));
    TextInFull(host, ScriptOf(host, infomap, jsonText).infos, texts);
  }

  // ---------------------------------------------------------------- toSQL

  /** toSQL; the hostname is what get_hostname found. */
  method WriteScript(host: string, infomap: map<string, Value>, jsonText: seq<Event> -> string) returns (text: string)
    ensures Readable(SYSMAP)
    ensures text == RenderAll(SYSMAP, Statements(ScriptOf(host, infomap, jsonText)))
    ensures IsScriptText(text, host, infomap, jsonText)
  {
    SysmapReadable();
    text := WriteStatements(SYSMAP, host, infomap, jsonText);
    ScriptInFull(host, infomap, jsonText);
    TextIsRendered(SYSMAP, host, ScriptOf(host, infomap, jsonText).infos);
  }

  /** The text so far, finding by finding. */
  function TextOf(w: Wording, host: string, infos: seq<Info>): string
    requires Readable(w)
  {
    if infos == [] then Render(w, InsertHost(host)) else
      TextOf(w, host, infos[..|infos| - 1]) + InfoText(w, host, infos[|infos| - 1])
  }

  function InfoText(w: Wording, host: string, info: Info): string
    requires Readable(w)
  {
    Render(w, InsertExtractor(CStr(info.name))) + Render(w, InsertData(info.name, info.payload))
    + Render(w, InsertLink(host, info.payload))
  }

  method WriteStatements(w: Wording, host: string, infomap: map<string, Value>, jsonText: seq<Event> -> string) returns (text: string)
    requires Readable(w)
    ensures text == RenderAll(w, Statements(ScriptOf(host, infomap, jsonText)))
  {
    ghost var script, done := ScriptOf(host, infomap, jsonText), [];
    text := Render(w, InsertHost(host));
    var keys := InOrder(infomap.Keys);
    for i := 0 to |keys|
      invariant |keys| == |script.infos| && done == script.infos[..i]
      invariant text == TextOf(w, host, done)
    {
      text := WriteInfo(w, host, keys[i], infomap[keys[i]], jsonText, text);
      TakeOneMore(script.infos, i);
      done := done + [script.infos[i]];
      assert done[..|done| - 1] == script.infos[..i];
    }
    TakeAll(script.infos);
    TextIsRendered(w, host, script.infos);
    assert script == Script(host, script.infos);
  }

  /** The body of the loop: three statements for one finding. */
  method WriteInfo(w: Wording, host: string, key: string, value: Value, jsonText: seq<Event> -> string, before: string)
    returns (text: string)
    requires Readable(w)
    ensures text == before + InfoText(w, host, Info(key, jsonText(Events(value))))
    ensures w == SYSMAP ==> text == before + FindingText(host, key, jsonText(Events(value)))
  {
    InfoInFull(host, Info(key, jsonText(Events(value))));
    var writer := new Writer();
    ToJson(value, writer);
    assert [] + Events(value) == Events(value);
    var payload := jsonText(writer.events);
    text := before + (Render(w, InsertExtractor(CStr(key))) + Render(w, InsertData(key, payload))
                      + Render(w, InsertLink(host, payload)));
  }

  lemma {:induction false} TextIsRendered(w: Wording, host: string, infos: seq<Info>)
    requires Readable(w)
    ensures TextOf(w, host, infos) == RenderAll(w, Statements(Script(host, infos)))
  {
    var all := Statements(Script(host, infos));
    if infos == [] {
      assert all == [InsertHost(host)] && all[..0] == [];
      assert [] + Render(w, InsertHost(host)) == Render(w, InsertHost(host));
    } else {
      var before, info := infos[..|infos| - 1], infos[|infos| - 1];
      var three := InfoStatements(host, info);
      TextIsRendered(w, host, before);
      Associative([InsertHost(host)], InfosStatements(host, before), three);
      RenderTwoParts(w, Statements(Script(host, before)), three);
      RenderThree(w, three[0], three[1], three[2]);
    }
  }

  lemma {:induction false} RenderTwoParts(w: Wording, a: seq<Statement>, b: seq<Statement>)
    requires Readable(w)
    ensures RenderAll(w, a + b) == RenderAll(w, a) + RenderAll(w, b)
  {
    if b == [] {
      assert a + b == a;
    } else {
      var n := |b| - 1;
      LastOfConcat(a, b);
      RenderTwoParts(w, a, b[..n]);
      Associative(RenderAll(w, a), RenderAll(w, b[..n]), Render(w, b[n]));
    }
  }

  lemma RenderThree(w: Wording, x: Statement, y: Statement, z: Statement)
    requires Readable(w)
    ensures RenderAll(w, [x, y, z]) == Render(w, x) + Render(w, y) + Render(w, z)
  {
    assert [x, y, z][..2] == [x, y] && [x, y][..1] == [x] && [x][..0] == [];
    assert RenderAll(w, [x]) == [] + Render(w, x) == Render(w, x);
    assert RenderAll(w, [x, y]) == Render(w, x) + Render(w, y);
  }

  /** The files of all hosts, as fillDB.sh concatenates them. */
  function Files(w: Wording, history: seq<Script>): string
    requires Readable(w)
  {
    if history == [] then [] else
      Files(w, history[..|history| - 1]) + RenderAll(w, Statements(history[|history| - 1]))
  }

  lemma OneMoreFile(w: Wording, history: seq<Script>, i: nat)
    requires Readable(w) && i < |history|
    ensures Files(w, history[..i + 1]) == Files(w, history[..i]) + RenderAll(w, Statements(history[i]))
  {
    assert history[..i + 1][..i] == history[..i];
  }

  lemma {:induction false} FilesAreOneText(w: Wording, history: seq<Script>)
    requires Readable(w)
    ensures Files(w, history) == RenderAll(w, AllStatements(history))
  {
    if history != [] {
      var n := |history| - 1;
      FilesAreOneText(w, history[..n]);
      RenderTwoParts(w, AllStatements(history[..n]), Statements(history[n]));
    }
  }

  /** Concatenating the scripts of any number of hosts reads back as all their statements in order,
      if and only if no string contains a single quote. */
  lemma FilesRoundTripIff(history: seq<Script>)
    ensures Readable(SYSMAP)
    ensures Parse(SYSMAP, Files(SYSMAP, history)) == Some(AllStatements(history))
       <==> forall s | s in history :: ScriptQuoteFree(s)
  {
    SysmapReadable();
    FilesAreOneText(SYSMAP, history);
    AllScriptsQuoteFree(history);
    TextRoundTripIff(SYSMAP, AllStatements(history));
  }

  lemma {:induction false} AllScriptsQuoteFree(history: seq<Script>)
    ensures AllQuoteFree(AllStatements(history)) <==> forall s | s in history :: ScriptQuoteFree(s)
  {
    if history != [] {
      var n := |history| - 1;
      assert history == history[..n] + [history[n]];
      AllScriptsQuoteFree(history[..n]);
      ScriptValues(history[n]);
      AllQuoteFreeOfTwo(AllStatements(history[..n]), Statements(history[n]));
    }
  }

  /** rapidjson writes values with different event streams differently. */
  ghost predicate TellsValuesApart(jsonText: seq<Event> -> string) {
    forall a: Value, b: Value | jsonText(Events(a)) == jsonText(Events(b)) :: Events(a) == Events(b)
  }

  /** Two findings share one row of Datatable exactly when they mean the same JSON document. */
  lemma SharedPayloadIff(v: Value, v': Value, jsonText: seq<Event> -> string)
    requires TellsValuesApart(jsonText)
    ensures jsonText(Events(v)) == jsonText(Events(v')) <==> Meaning(v) == Meaning(v')
  {
    WrittenAlikeIff(v, v');
  }
}
