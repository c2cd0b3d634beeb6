/** Extractor_Set (lib/src/extractor_set.cc): which extractors run, in which order, and which of
    their findings stay. */
module ExtractorSet {
  import opened Text
  import opened FirstWins
  import opened Json

  /** What an extractor's load does to the set: its add_info calls, in order. */
  type Load = seq<(string, Option<Value>)>

  /** The calls that carry a value; add_info refuses the others. */
  function Findings(load: Load): seq<(string, Value)> {
    if load == [] then [] else
      var last := load[|load| - 1];
      Findings(load[..|load| - 1]) + if last.1.None? then [] else [(last.0, last.1.value)]
  }

  /** The i-th call gives the name this value, and no call before it gives it any. */
  predicate GivesFirst(load: Load, name: string, value: Value, i: nat) {
    && i < |load| && load[i] == (name, Some(value))
    && forall j | 0 <= j < i :: load[j].0 != name || load[j].1.None?
  }

  lemma {:induction false} GivesNothing(load: Load, name: string)
    ensures FirstOf(Findings(load), name).None? <==> forall j | 0 <= j < |load| :: load[j].0 != name || load[j].1.None?
  {
    if load != [] {
      var before, last := load[..|load| - 1], load[|load| - 1];
      GivesNothing(before, name);
      FindingsMore(before, last, name);
      assert load == before + [last];
    }
  }

  lemma FindingsMore(before: Load, last: (string, Option<Value>), name: string)
    ensures FirstOf(Findings(before + [last]), name)
         == if FirstOf(Findings(before), name).Some? then FirstOf(Findings(before), name)
            else if last.0 == name then last.1 else None
  {
    assert (before + [last])[..|before|] == before;
    if last.1.Some? {
      var more := [(last.0, last.1.value)];
      FirstOfAppend(Findings(before), more, name);
      assert more[1..] == [];
    } else {
      assert Findings(before) + [] == Findings(before);
    }
  }

  /** Within one load the first call with a value decides. */
  lemma {:induction false} FindingIs(load: Load, name: string, value: Value)
    ensures FirstOf(Findings(load), name) == Some(value) <==> exists i: nat :: GivesFirst(load, name, value, i)
  {
    if load != [] {
      var before, last := load[..|load| - 1], load[|load| - 1];
      assert load == before + [last];
      FindingIs(before, name, value);
      FindingsMore(before, last, name);
      GivesNothing(before, name);
      if FirstOf(Findings(load), name) == Some(value) {
        if FirstOf(Findings(before), name).Some? {
          var i: nat :| GivesFirst(before, name, value, i);
          assert GivesFirst(load, name, value, i);
        } else {
          assert GivesFirst(load, name, value, |before|);
        }
      }
      if i: nat :| GivesFirst(load, name, value, i) {
        if i < |before| {
          assert GivesFirst(before, name, value, i);
        }
      }
    }
  }

  /** Everything the extractors under these tags find, in the order they run. */
  ghost function FindingsInOrder(extractors: map<string, Load>, tags: set<string>): seq<(string, Value)>
    requires tags <= extractors.Keys
  {
    if tags == {} then [] else
      var first := Least(tags);
      Findings(extractors[first]) + FindingsInOrder(extractors, tags - {first})
  }

  class Set {
    const registry: map<string, Load>
    var extractors: map<string, Load>
    var infomap: map<string, Value>

    constructor (registry: map<string, Load>)
      ensures this.registry == registry && extractors == map[] && infomap == map[]
    {
      this.registry := registry;
      extractors, infomap := map[], map[];
    }

    method AddInfo(name: string, value: Option<Value>)
      modifies this`infomap
      ensures infomap == EmplaceAll(old(infomap), Findings([(name, value)]))
    {
      assert Findings([(name, value)]) == if value.None? then [] else [(name, value.value)];
      if value.None? {
        return;
      }
      if name !in infomap {
        infomap := infomap[name := value.value];
      }
    }

    method AddByTag(tag: string)
      modifies this`extractors
      ensures extractors == WithTags(registry, old(extractors), [tag])
    {
      assert WithTags(registry, extractors, [tag][..0]) == extractors;
      if tag !in registry {
        return;
      }
      if tag !in extractors {
        extractors := extractors[tag := registry[tag]];
      }
    }

    /** One extractor's load. */
    method RunLoad(load: Load)
      modifies this`infomap
      ensures infomap == EmplaceAll(old(infomap), Findings(load))
    {
      for i := 0 to |load|
        invariant infomap == EmplaceAll(old(infomap), Findings(load[..i]))
      {
        ghost var before := infomap;
        AddInfo(load[i].0, load[i].1);
        assert load[..i + 1][..i] == load[..i];
        EmplaceAllAppend(old(infomap), Findings(load[..i]), Findings([load[i]]));
        assert Findings(load[..i + 1]) == Findings(load[..i]) + Findings([load[i]]);
      }
      assert load[..|load|] == load;
    }

    /** extract: the loads in the order of the extractor map. */
    method Extract()
      modifies this`infomap
      ensures infomap == EmplaceAll(old(infomap), FindingsInOrder(extractors, extractors.Keys))
    {
      ghost var done, all := [], FindingsInOrder(extractors, extractors.Keys);
      var rest := extractors.Keys;
      while rest != {}
        invariant rest <= extractors.Keys
        invariant all == done + FindingsInOrder(extractors, rest)
        invariant infomap == EmplaceAll(old(infomap), done)
        decreases |rest|
      {
        assert IsLeast(Least(rest), rest);
        var tag :| IsLeast(tag, rest);
        LeastUnique(tag, Least(rest), rest);
        RunLoad(extractors[tag]);
        EmplaceAllAppend(old(infomap), done, Findings(extractors[tag]));
        Associative(done, Findings(extractors[tag]), FindingsInOrder(extractors, rest - {tag}));
        done, rest := done + Findings(extractors[tag]), rest - {tag};
      }
      assert done + [] == done;
    }
  }

  // ---------------------------------------------------------------- what the result depends on

  /** The extractor map after add_by_tag for each tag in turn. */
  function WithTags(registry: map<string, Load>, extractors: map<string, Load>, tags: seq<string>): map<string, Load> {
    if tags == [] then extractors else
      var before, tag := WithTags(registry, extractors, tags[..|tags| - 1]), tags[|tags| - 1];
      if tag in registry then Emplace(before, tag, registry[tag]) else before
  }

  lemma {:induction false} WithTagsIs(registry: map<string, Load>, tags: seq<string>)
    ensures WithTags(registry, map[], tags) == map tag | tag in registry && tag in tags :: registry[tag]
  {
    if tags != [] {
      var before, tag := tags[..|tags| - 1], tags[|tags| - 1];
      WithTagsIs(registry, before);
      assert tags == before + [tag];
    }
  }

  ghost predicate Supplies(extractors: map<string, Load>, tag: string, name: string) {
    tag in extractors && FirstOf(Findings(extractors[tag]), name).Some?
  }

  /** The tags that supply an information name. */
  ghost function Suppliers(extractors: map<string, Load>, tags: set<string>, name: string): set<string> {
    set tag | tag in tags && Supplies(extractors, tag, name)
  }

  /** The value an information name gets: from the smallest tag that supplies it. */
  ghost function Winner(extractors: map<string, Load>, tags: set<string>, name: string): Option<Value> {
    var suppliers := Suppliers(extractors, tags, name);
    if suppliers == {} then None else FirstOf(Findings(extractors[Least(suppliers)]), name)
  }

  lemma {:induction false} SmallestTagWins(extractors: map<string, Load>, tags: set<string>, name: string)
    requires tags <= extractors.Keys
    ensures FirstOf(FindingsInOrder(extractors, tags), name) == Winner(extractors, tags, name)
    decreases |tags|
  {
    if tags != {} {
      var first := Least(tags);
      var rest := tags - {first};
      var all, later := Suppliers(extractors, tags, name), Suppliers(extractors, rest, name);
      FirstOfAppend(Findings(extractors[first]), FindingsInOrder(extractors, rest), name);
      SmallestTagWins(extractors, rest, name);
      if Supplies(extractors, first, name) {
        assert IsLeast(first, all);
        LeastUnique(first, Least(all), all);
      } else {
        assert all == later;
      }
    }
  }

  /** The tags of the list that are registered. */
  ghost function Chosen(registry: map<string, Load>, tags: seq<string>): set<string> {
    set tag | tag in registry && tag in tags
  }

  /** The infomap after adding these tags to an empty set and extracting. */
  ghost function Extracted(registry: map<string, Load>, tags: seq<string>): map<string, Value> {
    var extractors := WithTags(registry, map[], tags);
    EmplaceAll(map[], FindingsInOrder(extractors, extractors.Keys))
  }

  /** Every information name is bound to the value from the lexicographically smallest
      registered tag that supplies it, and to nothing when none does. */
  lemma ExtractedIs(registry: map<string, Load>, tags: seq<string>, name: string)
    ensures Get(Extracted(registry, tags), name)
         == Winner(registry, Chosen(registry, tags), name)
  {
    var extractors, chosen := WithTags(registry, map[], tags), Chosen(registry, tags);
    WithTagsIs(registry, tags);
    assert extractors.Keys == chosen;
    EmplaceAllIs(map[], FindingsInOrder(extractors, chosen), name);
    SmallestTagWins(extractors, chosen, name);
    assert Suppliers(extractors, chosen, name) == Suppliers(registry, chosen, name);
  }

  /** Only the set of registered tags counts: not their order, not repetitions, not unknown tags. */
  lemma TagSetDecides(registry: map<string, Load>, tags: seq<string>, tags': seq<string>)
    requires forall tag | tag in registry :: tag in tags <==> tag in tags'
    ensures Extracted(registry, tags) == Extracted(registry, tags')
  {
    WithTagsIs(registry, tags);
    WithTagsIs(registry, tags');
    assert WithTags(registry, map[], tags) == WithTags(registry, map[], tags');
  }

  /** Extracting again changes nothing, whatever was in the infomap before the first time. */
  lemma ExtractTwice(infomap: map<string, Value>, findings: seq<(string, Value)>)
    ensures EmplaceAll(EmplaceAll(infomap, findings), findings) == EmplaceAll(infomap, findings)
  {
    var once := EmplaceAll(infomap, findings);
    var twice := EmplaceAll(once, findings);
    forall name ensures Get(twice, name) == Get(once, name) {
      EmplaceAllIs(infomap, findings, name);
      EmplaceAllIs(once, findings, name);
    }
    assert forall name :: name in once <==> Get(once, name).Some?;
    assert forall name :: name in twice <==> Get(twice, name).Some?;
    assert forall name | name in once :: Get(once, name) == Some(once[name]);
    assert twice.Keys == once.Keys;
  }

  /** bin/sysmap.cc, lines 158-176: add the tags given on the command line, then extract. */
  method Gather(registry: map<string, Load>, tags: seq<string>) returns (infomap: map<string, Value>)
    ensures infomap == Extracted(registry, tags)
  {
    var extractorSet := new Set(registry);
    for i := 0 to |tags|
      invariant extractorSet.extractors == WithTags(registry, map[], tags[..i])
      invariant extractorSet.infomap == map[]
    {
      ghost var before := extractorSet.extractors;
      extractorSet.AddByTag(tags[i]);
      assert WithTags(registry, before, [tags[i]][..0]) == before;
      assert tags[..i + 1][..i] == tags[..i];
    }
    assert tags[..|tags|] == tags;
    extractorSet.Extract();
    infomap := extractorSet.infomap;
  }
}
