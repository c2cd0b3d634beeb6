/** From what the extractors of all nodes found to what a query returns: toSQL, fillDB.sh and
    sysquery in a row. */
module EndToEnd {
  import opened Text
  import opened Store
  import opened History
  import Json
  import SqlText
  import ToSql
  import opened Query
  import opened Database
  import opened Archive

  /** A node with the findings of its extractors. */
  datatype Node = Node(host: string, infomap: map<string, Json.Value>)

  ghost function Scripts(nodes: seq<Node>, jsonText: seq<Json.Event> -> string): seq<Script> {
    seq(|nodes|, i requires 0 <= i < |nodes| => ToSql.ScriptOf(nodes[i].host, nodes[i].infomap, jsonText))
  }

  /** The entry is the JSON text of a finding of this host. */
  ghost predicate Found(nodes: seq<Node>, jsonText: seq<Json.Event> -> string, host: string, x: Entry) {
    exists n, k :: n in nodes && n.host == host && k in n.infomap && x == Entry(k, jsonText(Json.Events(n.infomap[k])))
  }

  /** Every host's object holds exactly its findings, each once. */
  ghost predicate ReturnsFindings(nodes: seq<Node>, jsonText: seq<Json.Event> -> string, answer: seq<HostAnswer>) {
    && (forall h :: HasObject(answer, h) <==> exists n :: n in nodes && n.host == h)
    && forall i, x | 0 <= i < |answer| ::
         multiset(answer[i].entries)[x] == if Found(nodes, jsonText, answer[i].host, x) then 1 else 0
  }

  /** No two names carry values that mean the same document. */
  ghost predicate OneNamePerMeaning(nodes: seq<Node>) {
    forall n, k, n', k' | n in nodes && k in n.infomap && n' in nodes && k' in n'.infomap ::
      Json.Meaning(n.infomap[k]) == Json.Meaning(n'.infomap[k']) ==> k == k'
  }

  /** No hostname, name or JSON text has a single quote, and no name a NUL. */
  ghost predicate Importable(nodes: seq<Node>, jsonText: seq<Json.Event> -> string) {
    forall n | n in nodes :: '\'' !in n.host && forall k | k in n.infomap ::
      '\'' !in k && '\0' !in k && '\'' !in jsonText(Json.Events(n.infomap[k]))
  }

  /** The JSON text of a value is never empty and tells values with different streams apart. */
  ghost predicate WritesJson(jsonText: seq<Json.Event> -> string) {
    ToSql.TellsValuesApart(jsonText) && forall v: Json.Value :: jsonText(Json.Events(v)) != []
  }

  // ---------------------------------------------------------------- findings and scripts

  lemma InfosAreFindings(n: Node, jsonText: seq<Json.Event> -> string, info: Info)
    ensures info in ToSql.ScriptOf(n.host, n.infomap, jsonText).infos
       <==> info.name in n.infomap && info.payload == jsonText(Json.Events(n.infomap[info.name]))
  {
    var keys, infos := Ordered(n.infomap.Keys), ToSql.ScriptOf(n.host, n.infomap, jsonText).infos;
    if info in infos {
      var i :| 0 <= i < |infos| && infos[i] == info;
      assert keys[i] in keys;
    }
    if info.name in n.infomap && info.payload == jsonText(Json.Events(n.infomap[info.name])) {
      assert info.name in n.infomap.Keys;
      var i :| 0 <= i < |keys| && keys[i] == info.name;
      assert infos[i] == info;
    }
  }

  lemma ScriptOfNode(nodes: seq<Node>, jsonText: seq<Json.Event> -> string, s: Script)
    ensures s in Scripts(nodes, jsonText)
       <==> exists n :: n in nodes && s == ToSql.ScriptOf(n.host, n.infomap, jsonText)
  {
    var scripts := Scripts(nodes, jsonText);
    if s in scripts {
      var i :| 0 <= i < |scripts| && scripts[i] == s;
      assert nodes[i] in nodes;
    }
    if n :| n in nodes && s == ToSql.ScriptOf(n.host, n.infomap, jsonText) {
      var i :| 0 <= i < |nodes| && nodes[i] == n;
      assert scripts[i] == s;
    }
  }

  lemma WrittenIsFound(nodes: seq<Node>, jsonText: seq<Json.Event> -> string, host: string, x: Entry)
    ensures Written(Scripts(nodes, jsonText), host, x) <==> Found(nodes, jsonText, host, x)
  {
    var scripts, info := Scripts(nodes, jsonText), Info(x.extractor, x.data);
    if Written(scripts, host, x) {
      var s, k :| s in scripts && s.host == host && 0 <= k < |s.infos| && s.infos[k] == info;
      ScriptOfNode(nodes, jsonText, s);
      var n :| n in nodes && s == ToSql.ScriptOf(n.host, n.infomap, jsonText);
      InfosAreFindings(n, jsonText, info);
      assert n.host == host && x.extractor in n.infomap;
    }
    if Found(nodes, jsonText, host, x) {
      var n, k :| n in nodes && n.host == host && k in n.infomap && x == Entry(k, jsonText(Json.Events(n.infomap[k])));
      var s := ToSql.ScriptOf(n.host, n.infomap, jsonText);
      ScriptOfNode(nodes, jsonText, s);
      InfosAreFindings(n, jsonText, info);
      var i :| 0 <= i < |s.infos| && s.infos[i] == info;
      assert s in scripts && s.host == host;
    }
  }

  lemma InfoOfScript(nodes: seq<Node>, jsonText: seq<Json.Event> -> string, s: Script, i: nat) returns (n: Node)
    requires s in Scripts(nodes, jsonText) && i < |s.infos|
    ensures n in nodes && s == ToSql.ScriptOf(n.host, n.infomap, jsonText)
    ensures s.infos[i].name in n.infomap && s.infos[i].payload == jsonText(Json.Events(n.infomap[s.infos[i].name]))
  {
    ScriptOfNode(nodes, jsonText, s);
    n :| n in nodes && s == ToSql.ScriptOf(n.host, n.infomap, jsonText);
    InfosAreFindings(n, jsonText, s.infos[i]);
  }

  lemma FindingInScript(nodes: seq<Node>, jsonText: seq<Json.Event> -> string, n: Node, k: string) returns (s: Script, i: nat)
    requires n in nodes && k in n.infomap
    ensures s in Scripts(nodes, jsonText) && i < |s.infos|
    ensures s.infos[i] == Info(k, jsonText(Json.Events(n.infomap[k])))
  {
    s := ToSql.ScriptOf(n.host, n.infomap, jsonText);
    ScriptOfNode(nodes, jsonText, s);
    InfosAreFindings(n, jsonText, Info(k, jsonText(Json.Events(n.infomap[k]))));
    i :| 0 <= i < |s.infos| && s.infos[i] == Info(k, jsonText(Json.Events(n.infomap[k])));
  }

  /** One name per meaning is one name per payload. */
  lemma OneNameIff(nodes: seq<Node>, jsonText: seq<Json.Event> -> string)
    requires WritesJson(jsonText)
    ensures OneNameEach(Scripts(nodes, jsonText)) <==> OneNamePerMeaning(nodes)
  {
    var scripts := Scripts(nodes, jsonText);
    if OneNameEach(scripts) {
      forall n, k, n', k' | n in nodes && k in n.infomap && n' in nodes && k' in n'.infomap
                            && Json.Meaning(n.infomap[k]) == Json.Meaning(n'.infomap[k'])
        ensures k == k'
      {
        ToSql.SharedPayloadIff(n.infomap[k], n'.infomap[k'], jsonText);
        var s, i := FindingInScript(nodes, jsonText, n, k);
        var s', i' := FindingInScript(nodes, jsonText, n', k');
        assert s.infos[i].payload == s'.infos[i'].payload;
      }
    }
    if OneNamePerMeaning(nodes) {
      forall s, i, s', i' | s in scripts && 0 <= i < |s.infos| && s' in scripts && 0 <= i' < |s'.infos|
                            && s.infos[i].payload == s'.infos[i'].payload
        ensures s.infos[i].name == s'.infos[i'].name
      {
        var n := InfoOfScript(nodes, jsonText, s, i);
        var n' := InfoOfScript(nodes, jsonText, s', i');
        ToSql.SharedPayloadIff(n.infomap[s.infos[i].name], n'.infomap[s'.infos[i'].name], jsonText);
      }
    }
  }

  lemma ScriptsAreSound(nodes: seq<Node>, jsonText: seq<Json.Event> -> string)
    requires WritesJson(jsonText) && Importable(nodes, jsonText)
    ensures WellNamed(Scripts(nodes, jsonText)) && forall s | s in Scripts(nodes, jsonText) :: SqlText.ScriptQuoteFree(s)
    ensures forall s, i | s in Scripts(nodes, jsonText) && 0 <= i < |s.infos| :: s.infos[i].payload != []
  {
    forall s | s in Scripts(nodes, jsonText)
      ensures '\'' !in s.host
      ensures forall i | 0 <= i < |s.infos| :: '\'' !in s.infos[i].name && '\0' !in s.infos[i].name
                                               && '\'' !in s.infos[i].payload && s.infos[i].payload != []
    {
      ScriptOfNode(nodes, jsonText, s);
      forall i | 0 <= i < |s.infos|
        ensures '\'' !in s.infos[i].name && '\0' !in s.infos[i].name && '\'' !in s.infos[i].payload && s.infos[i].payload != []
      {
        var n := InfoOfScript(nodes, jsonText, s, i);
      }
    }
  }

  lemma HostsOfNodes(nodes: seq<Node>, jsonText: seq<Json.Event> -> string, h: string)
    ensures h in Hosts(Scripts(nodes, jsonText)) <==> exists n :: n in nodes && n.host == h
  {
    var scripts := Scripts(nodes, jsonText);
    if h in Hosts(scripts) {
      var s :| s in scripts && s.host == h;
      ScriptOfNode(nodes, jsonText, s);
    }
    if n :| n in nodes && n.host == h {
      var s := ToSql.ScriptOf(n.host, n.infomap, jsonText);
      ScriptOfNode(nodes, jsonText, s);
      assert s in scripts && s.host == h;
    }
  }

  // ---------------------------------------------------------------- the whole way

  /** The files of any nodes, read, imported by any run and queried unfiltered, return every
      finding's JSON text under its name, once, for its host, and nothing else, if and only if no
      two names carry values that mean the same document. */
  lemma FindingsReturnIff(nodes: seq<Node>, jsonText: seq<Json.Event> -> string,
                          statements: seq<Statement>, states: seq<Tables>, answer: seq<HostAnswer>)
    requires WritesJson(jsonText) && Importable(nodes, jsonText) && SqlText.Readable(SqlText.SYSMAP)
    requires SqlText.Parse(SqlText.SYSMAP, ToSql.Files(SqlText.SYSMAP, Scripts(nodes, jsonText))) == Some(statements)
    requires IsRun(statements, states) && states[0] == EMPTY && Answers(Final(states), [], [], answer)
    ensures ReturnsFindings(nodes, jsonText, answer) <==> OneNamePerMeaning(nodes)
  {
    var scripts := Scripts(nodes, jsonText);
    ScriptsAreSound(nodes, jsonText);
    ToSql.FilesRoundTripIff(scripts);
    RoundTripIff(scripts, states, answer);
    OneNameIff(nodes, jsonText);
    FirstWriterAnswer(scripts, states, answer);
    ReturnedIsWritten(nodes, jsonText, answer);
  }

  lemma ReturnedIsWritten(nodes: seq<Node>, jsonText: seq<Json.Event> -> string, answer: seq<HostAnswer>)
    requires WritesJson(jsonText) && forall h :: HasObject(answer, h) <==> h in Hosts(Scripts(nodes, jsonText))
    ensures ReturnsFindings(nodes, jsonText, answer) <==> ReturnsWhatWasWritten(Scripts(nodes, jsonText), answer)
  {
    forall h ensures HasObject(answer, h) <==> exists n :: n in nodes && n.host == h {
      HostsOfNodes(nodes, jsonText, h);
    }
    forall host: string, x: Entry
      ensures x.data != [] && Written(Scripts(nodes, jsonText), host, x) <==> Found(nodes, jsonText, host, x)
    {
      WrittenIsFound(nodes, jsonText, host, x);
    }
  }

  /** sysmap on every node, and the files concatenated. */
  method Export(nodes: seq<Node>, jsonText: seq<Json.Event> -> string) returns (files: string)
    requires SqlText.Readable(SqlText.SYSMAP)
    ensures files == ToSql.Files(SqlText.SYSMAP, Scripts(nodes, jsonText))
  {
    ghost var scripts := Scripts(nodes, jsonText);
    files := [];
    for i := 0 to |nodes|
      invariant files == ToSql.Files(SqlText.SYSMAP, scripts[..i])
    {
      ToSql.OneMoreFile(SqlText.SYSMAP, scripts, i);
      var script := ToSql.WriteScript(nodes[i].host, nodes[i].infomap, jsonText);
      files := files + script;
    }
    TakeAll(scripts);
  }

  /** All of it in a row. */
  method Gathered(nodes: seq<Node>, jsonText: seq<Json.Event> -> string) returns (output: seq<Output>)
    requires WritesJson(jsonText) && Importable(nodes, jsonText) && SqlText.Readable(SqlText.SYSMAP)
    ensures exists answer :: Shows(output, answer) && (ReturnsFindings(nodes, jsonText, answer) <==> OneNamePerMeaning(nodes))
  {
    var files := Export(nodes, jsonText);
    FilesParse(nodes, jsonText);
    var statements := SqlText.Parse(SqlText.SYSMAP, files).value;
    var db := new Sqlite();
    var states := db.Import(statements);
    ImportedKeys(nodes, jsonText, states);
    output := db.Answer([], []);
    ghost var answer :| Answers(db.Content(), [], [], answer) && Shows(output, answer);
    FindingsReturnIff(nodes, jsonText, statements, states, answer);
  }

  lemma FilesParse(nodes: seq<Node>, jsonText: seq<Json.Event> -> string)
    requires WritesJson(jsonText) && Importable(nodes, jsonText) && SqlText.Readable(SqlText.SYSMAP)
    ensures SqlText.Parse(SqlText.SYSMAP, ToSql.Files(SqlText.SYSMAP, Scripts(nodes, jsonText)))
         == Some(AllStatements(Scripts(nodes, jsonText)))
  {
    ScriptsAreSound(nodes, jsonText);
    ToSql.FilesRoundTripIff(Scripts(nodes, jsonText));
  }

  lemma ImportedKeys(nodes: seq<Node>, jsonText: seq<Json.Event> -> string, states: seq<Tables>)
    requires WritesJson(jsonText) && Importable(nodes, jsonText)
    requires IsRun(AllStatements(Scripts(nodes, jsonText)), states) && states[0] == EMPTY
    ensures Keys(Final(states))
  {
    ScriptsAreSound(nodes, jsonText);
    ImportSaysAccount(Scripts(nodes, jsonText), states);
  }
}
