/** collect_kernel_config (lib/src/linux/kernel_extractor.cc) and the loading of its result
    (lib/src/extractors/kernel_extractor.cc). */
module KernelConfig {
  import opened Text
  import opened Streams
  import opened FirstWins
  import Json

  datatype Config = Config(name: string, value: string)

  /** What one line contributes: comments, empty lines and lines without '=' nothing, any other
      line what is before and after its first '='. */
  function Parse(line: string): Option<Config> {
    var k := IndexOf(line, '=');
    if line == [] || line[0] == '#' || k == |line| then None else Some(Config(line[..k], line[k + 1..]))
  }

  function Configs(lines: seq<string>): seq<Config> {
    if lines == [] then [] else
      var last := Parse(lines[|lines| - 1]);
      Configs(lines[..|lines| - 1]) + if last.Some? then [last.value] else []
  }

  lemma ConfigsMore(done: seq<string>, line: string)
    ensures Configs(done + [line]) == Configs(done) + if Parse(line).Some? then [Parse(line).value] else []
  {
    assert (done + [line])[..|done|] == done;
  }

  /** The line loop over the configuration file. */
  method CollectKernelConfig(text: string) returns (result: seq<Config>)
    ensures result == Configs(LinesOf(text))
  {
    result := [];
    var input := new InputStream(text);
    ghost var done := [];
    while true
      invariant LinesOf(text) == done + LinesOf(input.rest)
      invariant result == Configs(done)
      decreases |input.rest|
    {
      var ok, line := input.GetLine();
      if !ok {
        break;
      }
      Associative(done, [line], LinesOf(input.rest));
      ConfigsMore(done, line);
      done := done + [line];
      if !(['#'] <= line) && line != [] {
        var position := IndexOf(line, '=');
        var name := line[..position];
        if position < |line| {
          result := result + [Config(name, line[position + 1..])];
        }
      }
    }
    assert done + [] == done;
  }

  /** A line gives an entry exactly when it is the name, the first equals sign and the value, and
      the name does not begin a comment. */
  lemma ParseIs(line: string, c: Config)
    ensures Parse(line) == Some(c)
       <==> line == c.name + "=" + c.value && '=' !in c.name && (c.name == [] || c.name[0] != '#')
  {
    var k := IndexOf(line, '=');
    Associative(c.name, "=", c.value);
    if line == c.name + "=" + c.value && '=' !in c.name {
      IndexOfIs(c.name, "=" + c.value, '=');
      TakeDrop(c.name, "=" + c.value);
      assert line[|c.name| + 1..] == c.value;
      assert c.name != [] ==> line[0] == c.name[0];
    }
    if Parse(line) == Some(c) {
      assert line == line[..k] + ("=" + line[k + 1..]);
    }
  }

  // ---------------------------------------------------------------- printing and reading back

  function Printed(c: Config): string {
    c.name + "=" + c.value
  }

  /** The names that survive: without '=' and not looking like a comment. */
  predicate PlainName(name: string) {
    '=' !in name && !(['#'] <= name)
  }

  /** An entry is read back if and only if its name is plain; the value may be anything. */
  lemma EntryRoundTripIff(c: Config)
    ensures Parse(Printed(c)) == Some(c) <==> PlainName(c.name)
  {
    var line := Printed(c);
    Associative(c.name, "=", c.value);
    if '=' !in c.name {
      IndexOfIs(c.name, "=" + c.value, '=');
      assert line[..|c.name|] == c.name && line[|c.name| + 1..] == c.value;
      assert c.name != [] ==> line[0] == c.name[0];
    } else {
      assert Parse(line).Some? ==> Parse(line).value.name != c.name;
    }
  }

  /** A line of a configuration file: an entry, or a line that contributes nothing. */
  datatype Line = Entry(config: Config) | Skipped(text: string)

  function TextOf(line: Line): string {
    if line.Entry? then Printed(line.config) else line.text
  }

  /** Skipped lines are empty, start with '#' or have no '='; no line has a line break in it. */
  predicate Fits(line: Line) {
    '\n' !in TextOf(line) && (line.Skipped? ==> line.text == [] || line.text[0] == '#' || '=' !in line.text)
  }

  function Texts(lines: seq<Line>): seq<string> {
    seq(|lines|, i requires 0 <= i < |lines| => TextOf(lines[i]))
  }

  function Entries(lines: seq<Line>): seq<Config> {
    if lines == [] then [] else
      var last := lines[|lines| - 1];
      Entries(lines[..|lines| - 1]) + if last.Entry? then [last.config] else []
  }

  predicate PlainLine(line: Line) {
    line.Entry? ==> PlainName(line.config.name)
  }

  /** What one line gives back: nothing, or its entry if and only if the name is plain. */
  lemma LineParsed(line: Line)
    requires Fits(line)
    ensures line.Skipped? ==> Parse(TextOf(line)).None?
    ensures line.Entry? ==> (Parse(TextOf(line)) == Some(line.config) <==> PlainLine(line))
  {
    if line.Entry? {
      EntryRoundTripIff(line.config);
    } else {
      var k := IndexOf(line.text, '=');
      assert k < |line.text| ==> line.text[k] in line.text;
    }
  }

  predicate AllPlain(lines: seq<Line>) {
    forall l | l in lines :: PlainLine(l)
  }

  lemma OneMoreLine(before: seq<Line>, last: Line)
    ensures AllPlain(before + [last]) <==> AllPlain(before) && PlainLine(last)
    ensures Texts(before + [last]) == Texts(before) + [TextOf(last)]
    ensures Entries(before + [last]) == Entries(before) + if last.Entry? then [last.config] else []
  {
    assert (before + [last])[..|before|] == before;
    assert forall l :: l in before + [last] <==> l in before || l == last;
  }

  lemma {:induction false} ParsedEntries(lines: seq<Line>)
    requires forall l | l in lines :: Fits(l)
    ensures |Configs(Texts(lines))| <= |Entries(lines)|
    ensures Configs(Texts(lines)) == Entries(lines) <==> AllPlain(lines)
  {
    if lines != [] {
      var before, last := lines[..|lines| - 1], lines[|lines| - 1];
      assert Fits(last) && lines == before + [last];
      ParsedEntries(before);
      OneMoreLine(before, last);
      ConfigsMore(Texts(before), TextOf(last));
      LineParsed(last);
      if last.Entry? {
        LastEntry(Configs(Texts(before)), Parse(TextOf(last)), Entries(before), last.config);
      } else {
        assert Configs(Texts(before)) + [] == Configs(Texts(before)) && Entries(before) + [] == Entries(before);
      }
    }
  }

  lemma LastEntry(got: seq<Config>, parsed: Option<Config>, want: seq<Config>, c: Config)
    requires |got| <= |want|
    ensures |got + (if parsed.Some? then [parsed.value] else [])| <= |want + [c]|
    ensures got + (if parsed.Some? then [parsed.value] else []) == want + [c] <==> got == want && parsed == Some(c)
  {
    var all := got + if parsed.Some? then [parsed.value] else [];
    if all == want + [c] {
      assert all[..|want|] == want && all[|want|] == c;
    }
  }

  /** Printing entries among comments and other lines and collecting the text gives the entries in
      their order if and only if all names are plain. */
  lemma ConfigRoundTripIff(lines: seq<Line>)
    requires forall l | l in lines :: Fits(l)
    ensures Configs(LinesOf(Terminated(Texts(lines)))) == Entries(lines)
       <==> AllPlain(lines)
  {
    ParsedEntries(lines);
    forall t | t in Texts(lines) ensures '\n' !in t {
      var i :| 0 <= i < |lines| && Texts(lines)[i] == t;
      assert lines[i] in lines;
    }
    LinesRoundTrip(Texts(lines));
  }

  // ---------------------------------------------------------------- loading

  function Pairs(configs: seq<Config>): seq<(string, Json.Value)> {
    seq(|configs|, i requires 0 <= i < |configs| => (configs[i].name, Json.StringValue(configs[i].value)))
  }

  /** Kernel_Extractor::load fills the map value of "kernelinfo". */
  method LoadConfig(configs: seq<Config>) returns (kernel: Json.Value)
    ensures kernel == Json.MapValue(EmplaceAll(map[], Pairs(configs)))
  {
    var builder := new Json.MapBuilder();
    for i := 0 to |configs|
      invariant builder.elements == EmplaceAll(map[], Pairs(configs[..i]))
    {
      builder.Add(configs[i].name, Some(Json.StringValue(configs[i].value)));
      assert Pairs(configs[..i + 1])[..i] == Pairs(configs[..i]);
    }
    TakeAll(configs);
    kernel := Json.MapValue(builder.elements);
  }

  /** The first configuration with this name. */
  function FirstConfig(configs: seq<Config>, name: string): Option<string> {
    if configs == [] then None
    else if configs[0].name == name then Some(configs[0].value)
    else FirstConfig(configs[1..], name)
  }

  /** The loaded map binds each name to its first value and nothing else. */
  lemma LoadedFirst(configs: seq<Config>, name: string)
    ensures Get(EmplaceAll(map[], Pairs(configs)), name)
         == var first := FirstConfig(configs, name);
            if first.None? then None else Some(Json.StringValue(first.value))
  {
    EmplaceAllIs(map[], Pairs(configs), name);
    FirstPair(configs, name);
  }

  lemma {:induction false} FirstPair(configs: seq<Config>, name: string)
    ensures FirstOf(Pairs(configs), name)
         == var first := FirstConfig(configs, name);
            if first.None? then None else Some(Json.StringValue(first.value))
  {
    if configs != [] {
      FirstPair(configs[1..], name);
      assert Pairs(configs)[1..] == Pairs(configs[1..]);
    }
  }

  /** From a file to the map: every entry printed with a plain name is found under that name with
      the value it had the first time, whatever lines stand in between. */
  lemma ConfigLoaded(lines: seq<Line>, name: string)
    requires AllPlain(lines) && forall l | l in lines :: Fits(l)
    ensures Get(EmplaceAll(map[], Pairs(Configs(LinesOf(Terminated(Texts(lines)))))), name)
         == var first := FirstConfig(Entries(lines), name);
            if first.None? then None else Some(Json.StringValue(first.value))
  {
    ConfigRoundTripIff(lines);
    LoadedFirst(Entries(lines), name);
  }

  /** A name with '=' is cut at it. */
  lemma SplitTooEarly(value: string)
    ensures Parse(Printed(Config("A=B", value))) == Some(Config("A", "B=" + value))
  {
    var line := Printed(Config("A=B", value));
    assert line == "A" + ("=" + ("B=" + value));
    IndexOfIs("A", "=" + ("B=" + value), '=');
    assert line[..1] == "A" && line[2..] == "B=" + value;
  }

  // ---------------------------------------------------------------- the kernel modules

  datatype Module = Module(name: string, size: Json.int32)

  /** The value of one module; every listed module is loaded. */
  function ModuleValue(m: Module): Json.Value {
    Json.MapValue(map["Name" := Json.StringValue(m.name), "Size" := Json.IntValue(m.size), "Loaded" := Json.IntValue(1)])
  }

  function ModuleValues(modules: seq<Module>): seq<Json.Value> {
    seq(|modules|, i requires 0 <= i < |modules| => ModuleValue(modules[i]))
  }

  /** Kernel_Extractor::load fills the array value of "moduleinfo". */
  method LoadModules(modules: seq<Module>) returns (value: Json.Value)
    ensures value == Json.ArrayValue(ModuleValues(modules))
  {
    var builder := new Json.ArrayBuilder();
    for i := 0 to |modules|
      invariant builder.elements == ModuleValues(modules[..i])
    {
      var one := LoadModule(modules[i]);
      builder.Add(Some(one));
      assert modules[..i + 1][..i] == modules[..i];
      assert ModuleValues(modules[..i + 1]) == ModuleValues(modules[..i]) + [ModuleValue(modules[i])];
    }
    TakeAll(modules);
    value := Json.ArrayValue(builder.elements);
  }

  method LoadModule(m: Module) returns (value: Json.Value)
    ensures value == ModuleValue(m)
  {
    var builder := new Json.MapBuilder();
    builder.Add("Name", Some(Json.StringValue(m.name)));
    assert "Size"[0] != "Name"[0];
    builder.Add("Size", Some(Json.IntValue(m.size)));
    assert "Loaded"[0] != "Name"[0] && "Loaded"[0] != "Size"[0];
    builder.Add("Loaded", Some(Json.IntValue(1)));
    value := Json.MapValue(builder.elements);
  }

  /** The JSON object of a module: its members in key order, not in the order they were added. */
  function ModuleDocument(m: Module): Json.Document {
    Json.JObject([Json.Member("Loaded", Json.JNumber(1)), Json.Member("Name", Json.JString(CStr(m.name))),
                  Json.Member("Size", Json.JNumber(m.size))])
  }

  lemma ThreeInOrder(l: string, n: string, s: string)
    requires LexLess(l, n) && LexLess(n, s)
    ensures Ordered({n, s, l}) == [l, n, s]
  {
    LexTransitive(l, n, s);
    LexTotal(l, n);
    LexTotal(l, s);
    LexTotal(n, s);
    assert {n, s, l} - {l} == {n, s} && {n, s} - {n} == {s} && {s} - {s} == {};
    OrderedStep({n, s, l}, l);
    OrderedStep({n, s}, n);
    OrderedStep({s}, s);
  }

  /** A map value of three members. */
  lemma ThreeMembers(l: string, x: Json.Value, n: string, y: Json.Value, s: string, z: Json.Value)
    requires LexLess(l, n) && LexLess(n, s) && CStr(l) == l && CStr(n) == n && CStr(s) == s
    ensures Json.Meaning(Json.MapValue(map[n := y, s := z, l := x]))
         == Json.JObject([Json.Member(l, Json.Meaning(x)), Json.Member(n, Json.Meaning(y)), Json.Member(s, Json.Meaning(z))])
  {
    var members := map[n := y, s := z, l := x];
    ThreeInOrder(l, n, s);
    Json.MeaningOfMembers(members);
    ThreeValues(l, x, n, y, s, z);
    var keys, written := Ordered(members.Keys), Json.Meaning(Json.MapValue(members)).members;
    assert keys == [l, n, s];
    assert keys[0] == l && keys[1] == n && keys[2] == s;
    assert written == [written[0], written[1], written[2]];
  }

  lemma ThreeValues(l: string, x: Json.Value, n: string, y: Json.Value, s: string, z: Json.Value)
    requires LexLess(l, n) && LexLess(n, s)
    ensures var members := map[n := y, s := z, l := x];
            members.Keys == {n, s, l} && members[l] == x && members[n] == y && members[s] == z
  {
    LexTransitive(l, n, s);
    LexTotal(l, n);
    LexTotal(l, s);
    LexTotal(n, s);
  }

  lemma ModuleMeans(m: Module)
    ensures Json.Meaning(ModuleValue(m)) == ModuleDocument(m)
  {
    ModuleNamesAscend();
    ModuleNamesPlain();
    ThreeMembers("Loaded", Json.IntValue(1), "Name", Json.StringValue(m.name), "Size", Json.IntValue(m.size));
    ModuleMembersMean(m);
  }

  lemma ModuleMembersMean(m: Module)
    ensures Json.Meaning(Json.IntValue(1)) == Json.JNumber(1) && Json.Meaning(Json.IntValue(m.size)) == Json.JNumber(m.size)
    ensures Json.Meaning(Json.StringValue(m.name)) == Json.JString(CStr(m.name))
  {
  }

  lemma ModuleNamesAscend()
    ensures LexLess("Loaded", "Name") && LexLess("Name", "Size")
  {
    assert "Loaded"[0] < "Name"[0] < "Size"[0];
  }

  lemma ModuleNamesPlain()
    ensures CStr("Loaded") == "Loaded" && CStr("Name") == "Name" && CStr("Size") == "Size"
  {
    CStrKeeps("Loaded");
    CStrKeeps("Name");
    CStrKeeps("Size");
  }

  /** What is written for the modules decodes to one object per module, in their order. */
  lemma ModulesWritten(modules: seq<Module>)
    ensures Json.Decode(Json.Events(Json.ArrayValue(ModuleValues(modules))))
         == Some((Json.JArray(seq(|modules|, i requires 0 <= i < |modules| => ModuleDocument(modules[i]))), []))
  {
    var value := Json.ArrayValue(ModuleValues(modules));
    var documents := seq(|modules|, i requires 0 <= i < |modules| => ModuleDocument(modules[i]));
    Json.ToJsonDecodes(value);
    forall i | 0 <= i < |modules| ensures Json.Meaning(value).items[i] == documents[i] {
      ModuleMeans(modules[i]);
    }
    assert Json.Meaning(value).items == documents;
  }
}
