/** Whole imports: the scripts of many hosts, one after another (share/fillDB.sh line 31), and
    what the store knows afterwards. */
module History {
  import opened Text
  import opened FirstWins
  import opened Store

  /** One extractor's result: the name in m_infomap and its JSON text. */
  datatype Info = Info(name: string, payload: string)

  /** What toSQL writes for one host. */
  datatype Script = Script(host: string, infos: seq<Info>)

  function InfoStatements(host: string, info: Info): seq<Statement> {
    [InsertExtractor(CStr(info.name)), InsertData(info.name, info.payload), InsertLink(host, info.payload)]
  }

  function InfosStatements(host: string, infos: seq<Info>): seq<Statement> {
    if infos == [] then [] else
      InfosStatements(host, infos[..|infos| - 1]) + InfoStatements(host, infos[|infos| - 1])
  }

  function Statements(s: Script): seq<Statement> {
    [InsertHost(s.host)] + InfosStatements(s.host, s.infos)
  }

  function AllStatements(history: seq<Script>): seq<Statement> {
    if history == [] then [] else
      AllStatements(history[..|history| - 1]) + Statements(history[|history| - 1])
  }

  /** The name is written once as a C string and once in full; they agree without a NUL. */
  predicate WellNamed(history: seq<Script>) {
    forall s, i | s in history && 0 <= i < |s.infos| :: '\0' !in s.infos[i].name
  }

  // ---------------------------------------------------------------- what a history amounts to

  /** The (payload, extractor) pairs of a script, in the order they are written. */
  function Entries(s: Script): seq<(string, string)> {
    seq(|s.infos|, i requires 0 <= i < |s.infos| => (s.infos[i].payload, s.infos[i].name))
  }

  function AllEntries(history: seq<Script>): seq<(string, string)> {
    if history == [] then [] else AllEntries(history[..|history| - 1]) + Entries(history[|history| - 1])
  }

  /** The extractor under which the payload was first written in the whole history. */
  function FirstWriter(history: seq<Script>, payload: string): Option<string> {
    FirstOf(AllEntries(history), payload)
  }

  /** The k-th finding of the i-th script carries the payload, and nothing before it does. */
  ghost predicate WritesFirst(history: seq<Script>, payload: string, i: nat, k: nat) {
    && i < |history| && k < |history[i].infos| && history[i].infos[k].payload == payload
    && (forall l | 0 <= l < k :: history[i].infos[l].payload != payload)
    && (forall j, l | 0 <= j < i && 0 <= l < |history[j].infos| :: history[j].infos[l].payload != payload)
  }

  lemma {:induction false} WritesFirstIs(history: seq<Script>, payload: string, i: nat, k: nat)
    requires WritesFirst(history, payload, i, k)
    ensures FirstWriter(history, payload) == Some(history[i].infos[k].name)
  {
    var n := |history| - 1;
    var before, last := history[..n], history[n];
    FirstOfAppend(AllEntries(before), Entries(last), payload);
    if i < n {
      WritesFirstIs(before, payload, i, k);
    } else {
      NotWritten(before, payload);
      assert FirstAt(Entries(last), payload, last.infos[k].name, k);
      FirstOfAt(Entries(last), payload, last.infos[k].name);
    }
  }

  lemma {:induction false} NotWritten(history: seq<Script>, payload: string)
    ensures FirstWriter(history, payload).None?
       <==> forall i, k | 0 <= i < |history| && 0 <= k < |history[i].infos| :: history[i].infos[k].payload != payload
  {
    if history != [] {
      var n := |history| - 1;
      var before, last := history[..n], history[n];
      NotWritten(before, payload);
      FirstOfAppend(AllEntries(before), Entries(last), payload);
      FirstOfIs(Entries(last), payload);
      if FirstOf(Entries(last), payload).None? {
        forall k | 0 <= k < |last.infos| ensures last.infos[k].payload != payload {
          assert Entries(last)[k] in Entries(last);
        }
      }
    }
  }

  lemma {:induction false} SomeWritesFirst(history: seq<Script>, payload: string) returns (i: nat, k: nat)
    requires FirstWriter(history, payload).Some?
    ensures WritesFirst(history, payload, i, k)
  {
    var n := |history| - 1;
    var before, last := history[..n], history[n];
    FirstOfAppend(AllEntries(before), Entries(last), payload);
    if FirstWriter(before, payload).Some? {
      i, k := SomeWritesFirst(before, payload);
      assert forall j | 0 <= j <= i :: history[j] == before[j];
    } else {
      NotWritten(before, payload);
      assert forall j | 0 <= j < n :: history[j] == before[j];
      var name := FirstOf(Entries(last), payload).value;
      FirstOfAt(Entries(last), payload, name);
      k :| FirstAt(Entries(last), payload, name, k);
      i := n;
      assert Entries(last)[k] == (last.infos[k].payload, last.infos[k].name);
      forall l | 0 <= l < k ensures last.infos[l].payload != payload {
        assert Entries(last)[l].0 == last.infos[l].payload;
      }
    }
  }

  /** The first writer by position: the name beside the payload's first occurrence in the order of
      the scripts. */
  lemma FirstWriterIs(history: seq<Script>, payload: string, name: string)
    ensures FirstWriter(history, payload) == Some(name)
       <==> exists i: nat, k: nat :: WritesFirst(history, payload, i, k) && history[i].infos[k].name == name
  {
    if FirstWriter(history, payload) == Some(name) {
      var i, k := SomeWritesFirst(history, payload);
      WritesFirstIs(history, payload, i, k);
    }
    if i: nat, k: nat :| WritesFirst(history, payload, i, k) && history[i].infos[k].name == name {
      WritesFirstIs(history, payload, i, k);
    }
  }

  ghost function Hosts(history: seq<Script>): set<string> {
    set s | s in history :: s.host
  }

  ghost function Extractors(history: seq<Script>): set<string> {
    set s, i | s in history && 0 <= i < |s.infos| :: s.infos[i].name
  }

  ghost function Carried(history: seq<Script>): set<(string, string)> {
    set s, i | s in history && 0 <= i < |s.infos| :: (s.host, s.infos[i].payload)
  }

  ghost function Account(history: seq<Script>): Facts {
    Facts(Hosts(history), Extractors(history), EmplaceAll(map[], AllEntries(history)), Carried(history))
  }

  // ---------------------------------------------------------------- the statements amount to that

  lemma {:induction false} LearnInTwoParts(f: Facts, a: seq<Statement>, b: seq<Statement>)
    ensures LearnAll(f, a + b) == LearnAll(LearnAll(f, a), b)
  {
    if b == [] {
      assert a + b == a;
    } else {
      assert (a + b)[..|a + b| - 1] == a + b[..|b| - 1];
      LearnInTwoParts(f, a, b[..|b| - 1]);
    }
  }

  lemma ResolveInTwoParts(f: Facts, a: seq<Statement>, b: seq<Statement>)
    requires AllResolve(f, a) && AllResolve(LearnAll(f, a), b)
    ensures AllResolve(f, a + b)
  {
    forall i | 0 <= i < |a + b| ensures Resolves(LearnAll(f, (a + b)[..i]), (a + b)[i]) {
      if i < |a| {
        assert (a + b)[..i] == a[..i];
      } else {
        assert (a + b)[..i] == a + b[..i - |a|];
        LearnInTwoParts(f, a, b[..i - |a|]);
      }
    }
  }

  lemma LearnThree(f: Facts, x: Statement, y: Statement, z: Statement)
    ensures LearnAll(f, [x, y, z]) == Learn(Learn(Learn(f, x), y), z)
    ensures AllResolve(f, [x, y, z])
       <==> Resolves(f, x) && Resolves(Learn(f, x), y) && Resolves(Learn(Learn(f, x), y), z)
  {
    var s := [x, y, z];
    assert s[..0] == [] && s[..1][..0] == [] && s[..2][..1] == s[..1] && s[..3] == s;
    assert LearnAll(f, s[..0]) == f;
    assert LearnAll(f, s[..1]) == Learn(f, x);
    assert LearnAll(f, s[..2]) == Learn(Learn(f, x), y);
    if AllResolve(f, s) {
      assert Resolves(LearnAll(f, s[..0]), s[0]);
      assert Resolves(LearnAll(f, s[..1]), s[1]);
      assert Resolves(LearnAll(f, s[..2]), s[2]);
    }
  }

  ghost function WithInfos(f: Facts, host: string, infos: seq<Info>): Facts {
    Facts(f.hosts,
          f.extractors + (set i | 0 <= i < |infos| :: infos[i].name),
          EmplaceAll(f.owner, Entries(Script(host, infos))),
          f.links + (set i | 0 <= i < |infos| :: (host, infos[i].payload)))
  }

  lemma OneMoreInfo(f: Facts, host: string, infos: seq<Info>, info: Info)
    ensures WithInfos(f, host, infos + [info])
         == Learn(Learn(Learn(WithInfos(f, host, infos), InsertExtractor(info.name)),
                        InsertData(info.name, info.payload)), InsertLink(host, info.payload))
  {
    var all := infos + [info];
    var a, b := Entries(Script(host, infos)), Entries(Script(host, all));
    assert b[..|b| - 1] == a && b[|b| - 1] == (info.payload, info.name);
    assert (set i | 0 <= i < |all| :: all[i].name) == (set i | 0 <= i < |infos| :: infos[i].name) + {info.name} by {
      NamesOfMore(infos, info);
    }
    assert (set i | 0 <= i < |all| :: (host, all[i].payload))
        == (set i | 0 <= i < |infos| :: (host, infos[i].payload)) + {(host, info.payload)} by {
      PayloadsOfMore(host, infos, info);
    }
  }

  lemma NamesOfMore(infos: seq<Info>, info: Info)
    ensures (set i | 0 <= i < |infos + [info]| :: (infos + [info])[i].name)
         == (set i | 0 <= i < |infos| :: infos[i].name) + {info.name}
  {
    var all := infos + [info];
    assert all[|infos|] == info;
    assert forall i | 0 <= i < |infos| :: all[i] == infos[i];
  }

  lemma PayloadsOfMore(host: string, infos: seq<Info>, info: Info)
    ensures (set i | 0 <= i < |infos + [info]| :: (host, (infos + [info])[i].payload))
         == (set i | 0 <= i < |infos| :: (host, infos[i].payload)) + {(host, info.payload)}
  {
    var all := infos + [info];
    assert all[|infos|] == info;
    assert forall i | 0 <= i < |infos| :: all[i] == infos[i];
  }

  lemma {:induction false} LearnInfos(f: Facts, host: string, infos: seq<Info>)
    requires host in f.hosts && forall i | 0 <= i < |infos| :: '\0' !in infos[i].name
    ensures AllResolve(f, InfosStatements(host, infos))
    ensures LearnAll(f, InfosStatements(host, infos)) == WithInfos(f, host, infos)
  {
    if infos == [] {
      assert WithInfos(f, host, infos) == f;
    } else {
      var before, info := infos[..|infos| - 1], infos[|infos| - 1];
      assert infos == before + [info];
      LearnInfos(f, host, before);
      CStrKeeps(info.name);
      var f' := WithInfos(f, host, before);
      OneMoreInfo(f, host, before, info);
      LearnThree(f', InsertExtractor(info.name), InsertData(info.name, info.payload), InsertLink(host, info.payload));
      LearnInTwoParts(f, InfosStatements(host, before), InfoStatements(host, info));
      ResolveInTwoParts(f, InfosStatements(host, before), InfoStatements(host, info));
    }
  }

  lemma LearnScript(f: Facts, s: Script)
    requires forall i | 0 <= i < |s.infos| :: '\0' !in s.infos[i].name
    ensures AllResolve(f, Statements(s))
    ensures LearnAll(f, Statements(s)) == WithInfos(Learn(f, InsertHost(s.host)), s.host, s.infos)
  {
    var f' := Learn(f, InsertHost(s.host));
    assert [InsertHost(s.host)][..0] == [];
    assert LearnAll(f, [InsertHost(s.host)]) == f';
    LearnInfos(f', s.host, s.infos);
    LearnInTwoParts(f, [InsertHost(s.host)], InfosStatements(s.host, s.infos));
    ResolveInTwoParts(f, [InsertHost(s.host)], InfosStatements(s.host, s.infos));
  }

  lemma OneMoreScript(history: seq<Script>, s: Script)
    ensures Account(history + [s]) == WithInfos(Learn(Account(history), InsertHost(s.host)), s.host, s.infos)
  {
    var all := history + [s];
    assert all[..|history|] == history;
    assert all[|history|] == s;
    assert forall x :: x in all <==> x in history || x == s;
    EmplaceAllAppend(map[], AllEntries(history), Entries(s));
    assert s == Script(s.host, s.infos);
    assert Hosts(all) == Hosts(history) + {s.host};
    assert Extractors(all) == Extractors(history) + (set i | 0 <= i < |s.infos| :: s.infos[i].name);
    assert Carried(all) == Carried(history) + (set i | 0 <= i < |s.infos| :: (s.host, s.infos[i].payload));
  }

  lemma {:induction false} AccountOfHistory(history: seq<Script>)
    requires WellNamed(history)
    ensures AllResolve(NO_FACTS, AllStatements(history))
    ensures LearnAll(NO_FACTS, AllStatements(history)) == Account(history)
  {
    if history == [] {
      assert Account(history) == NO_FACTS;
    } else {
      var before, s := history[..|history| - 1], history[|history| - 1];
      assert history == before + [s];
      AccountOfHistory(before);
      OneMoreScript(before, s);
      LearnScript(Account(before), s);
      LearnInTwoParts(NO_FACTS, AllStatements(before), Statements(s));
      ResolveInTwoParts(NO_FACTS, AllStatements(before), Statements(s));
    }
  }

  /** An import: all scripts, from the empty tables of fillDB.sh. */
  ghost predicate IsImport(history: seq<Script>, states: seq<Tables>) {
    WellNamed(history) && IsRun(AllStatements(history), states) && states[0] == EMPTY
  }

  ghost function Final(states: seq<Tables>): Tables
    requires states != []
  {
    states[|states| - 1]
  }

  /** Whatever the scripts, the tables are sound after every single statement. */
  lemma ImportKeepsIntegrity(history: seq<Script>, states: seq<Tables>, i: nat)
    requires IsImport(history, states) && i < |states|
    ensures Integrity(states[i])
  {
    EmptySaysNothing();
    AccountOfHistory(history);
    RunRefines(AllStatements(history), states, NO_FACTS, i);
  }

  /** In the end they say exactly what the scripts said: every payload once, filed under the
      extractor that wrote it first in the whole history, and linked to each host that carried it. */
  lemma ImportSaysAccount(history: seq<Script>, states: seq<Tables>)
    requires IsImport(history, states)
    ensures Integrity(Final(states)) && Says(Final(states), Account(history))
  {
    EmptySaysNothing();
    AccountOfHistory(history);
    var statements := AllStatements(history);
    RunRefines(statements, states, NO_FACTS, |statements|);
    assert statements[..|statements|] == statements;
  }

  lemma OwnerIsFirstWriter(history: seq<Script>, payload: string)
    ensures Get(Account(history).owner, payload) == FirstWriter(history, payload)
  {
    EmplaceAllIs(map[], AllEntries(history), payload);
  }

  /** The same, row by row: a payload row exists exactly when some script wrote the payload, and
      refers to the extractor row of its first writer. */
  lemma FirstWriterLaw(history: seq<Script>, states: seq<Tables>, payload: string, name: string)
    requires IsImport(history, states)
    ensures Filed(Final(states).data, Final(states).extractors, payload, name) <==> FirstWriter(history, payload) == Some(name)
    ensures Stored(Final(states).data, payload) <==> FirstWriter(history, payload).Some?
  {
    ImportSaysAccount(history, states);
    OwnerIsFirstWriter(history, payload);
  }

  // ---------------------------------------------------------------- nothing is lost or rewritten

  /** No row is deleted or rewritten, so a payload keeps its extractor, and a payload that is new
      has a larger number than all before. */
  predicate Grown(t: Tables, t': Tables) {
    && t.hosts <= t'.hosts && t.extractors <= t'.extractors && t.data <= t'.data && t.links <= t'.links
    && t.hostSeq <= t'.hostSeq && t.extractorSeq <= t'.extractorSeq && t.dataSeq <= t'.dataSeq
    && forall d | d in t'.data && d !in t.data :: t.dataSeq < d.did
  }

  lemma StatementGrows(s: Statement, t: Tables, t': Tables)
    requires Exec(s, t, t')
    ensures Grown(t, t')
  {
  }

  lemma GrownOn(t: Tables, t': Tables, t'': Tables)
    requires Grown(t, t') && Grown(t', t'')
    ensures Grown(t, t'')
  {
    forall d | d in t''.data && d !in t.data ensures t.dataSeq < d.did {
      assert d !in t'.data ==> t'.dataSeq < d.did;
    }
  }

  /** Between any two points of any run the tables only grow. */
  lemma {:induction false} RunGrows(statements: seq<Statement>, states: seq<Tables>, i: nat, j: nat)
    requires IsRun(statements, states) && i <= j <= |statements|
    ensures Grown(states[i], states[j])
  {
    if i < j {
      RunGrows(statements, states, i, j - 1);
      StatementGrows(statements[j - 1], states[j - 1], states[j]);
      GrownOn(states[i], states[j - 1], states[j]);
    }
  }

  // ---------------------------------------------------------------- replaying a script

  predicate SameRows(t: Tables, t': Tables) {
    t'.hosts == t.hosts && t'.extractors == t.extractors && t'.data == t.data && t'.links == t.links
  }

  /** The statement says nothing new. */
  predicate Known(f: Facts, s: Statement) {
    match s
    case InsertHost(host) => host in f.hosts
    case InsertExtractor(name) => name in f.extractors
    case InsertData(extractor, data) => extractor in f.extractors && data in f.owner
    case InsertLink(host, data) => host in f.hosts && data in f.owner && (host, data) in f.links
  }

  lemma KnownChangesNothing(s: Statement, t: Tables, t': Tables, f: Facts)
    requires Integrity(t) && Says(t, f) && Known(f, s) && Exec(s, t, t')
    ensures SameRows(t, t') && Integrity(t') && Says(t', f)
  {
    match s
    case InsertHost(host) => assert Named(t.hosts, host);
    case InsertExtractor(name) => assert Named(t.extractors, name);
    case InsertData(extractor, data) => assert Stored(t.data, data);
    case InsertLink(host, data) => KnownLink(host, data, t, t', f);
  }

  lemma KnownLink(host: string, data: string, t: Tables, t': Tables, f: Facts)
    requires Integrity(t) && Says(t, f) && Known(f, InsertLink(host, data)) && Exec(InsertLink(host, data), t, t')
    ensures t' == t
  {
    assert Named(t.hosts, host) && Stored(t.data, data);
    var h, d := LinkedRows(host, data, t, t');
    assert Carries(t.hosts, t.data, t.links, host, data);
  }

  lemma {:induction false} KnownRunChangesNothing(statements: seq<Statement>, states: seq<Tables>, f: Facts, i: nat)
    requires IsRun(statements, states) && i <= |statements|
    requires Integrity(states[0]) && Says(states[0], f)
    requires forall s | s in statements :: Known(f, s)
    ensures SameRows(states[0], states[i]) && Integrity(states[i]) && Says(states[i], f)
  {
    if i > 0 {
      KnownRunChangesNothing(statements, states, f, i - 1);
      KnownChangesNothing(statements[i - 1], states[i - 1], states[i], f);
    }
  }

  lemma {:induction false} InfosKnown(f: Facts, host: string, infos: seq<Info>)
    requires host in f.hosts
    requires forall i | 0 <= i < |infos| :: '\0' !in infos[i].name
    requires forall i | 0 <= i < |infos| :: infos[i].name in f.extractors && infos[i].payload in f.owner
                                            && (host, infos[i].payload) in f.links
    ensures forall s | s in InfosStatements(host, infos) :: Known(f, s)
  {
    if infos != [] {
      var info := infos[|infos| - 1];
      InfosKnown(f, host, infos[..|infos| - 1]);
      CStrKeeps(info.name);
    }
  }

  /** Replaying a script that the history contains, at whatever later point, changes no row. */
  lemma ReplayChangesNothing(history: seq<Script>, states: seq<Tables>, s: Script, again: seq<Tables>, i: nat)
    requires IsImport(history, states) && s in history
    requires IsRun(Statements(s), again) && again[0] == Final(states) && i < |again|
    ensures SameRows(Final(states), again[i])
  {
    var f := Account(history);
    ImportSaysAccount(history, states);
    forall k | 0 <= k < |s.infos|
      ensures s.infos[k].name in f.extractors && s.infos[k].payload in f.owner && (s.host, s.infos[k].payload) in f.links
    {
      EntryOfScript(history, s, k);
    }
    InfosKnown(f, s.host, s.infos);
    KnownRunChangesNothing(Statements(s), again, f, i);
  }

  lemma {:induction false} EntryOfScript(history: seq<Script>, s: Script, k: nat)
    requires s in history && k < |s.infos|
    ensures (s.infos[k].payload, s.infos[k].name) in AllEntries(history)
    ensures FirstWriter(history, s.infos[k].payload).Some?
    ensures s.infos[k].payload in Account(history).owner
  {
    var before, last := history[..|history| - 1], history[|history| - 1];
    if s in before {
      EntryOfScript(before, s, k);
    } else {
      assert Entries(last)[k] == (s.infos[k].payload, s.infos[k].name);
    }
    FirstOfIs(AllEntries(history), s.infos[k].payload);
    OwnerIsFirstWriter(history, s.infos[k].payload);
  }
}
