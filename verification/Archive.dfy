/** Import and query together: what sysquery answers about everything that was ever imported. */
module Archive {
  import opened Text
  import opened FirstWins
  import opened Store
  import opened History
  import opened Query
  import opened Database

  /** What the whole history says about a host: the payload was carried by it, and first written
      anywhere under this name. */
  ghost predicate Recorded(history: seq<Script>, host: string, x: Entry) {
    x.data != [] && (host, x.data) in Carried(history) && FirstWriter(history, x.data) == Some(x.extractor)
  }

  lemma RecordedIsHeld(history: seq<Script>, host: string, x: Entry)
    ensures Recorded(history, host, x) <==> Holds(Account(history), host, x)
  {
    OwnerIsFirstWriter(history, x.data);
  }

  /** The first-writer law. After any import, the unfiltered query gives each imported host one
      object, with one entry per distinct payload it ever carried, filed under the extractor that
      wrote this payload first in the whole history. */
  lemma FirstWriterAnswer(history: seq<Script>, states: seq<Tables>, answer: seq<HostAnswer>)
    requires IsImport(history, states) && Answers(Final(states), [], [], answer)
    ensures forall i, j | 0 <= i < j < |answer| :: answer[i].host != answer[j].host
    ensures forall h :: HasObject(answer, h) <==> h in Hosts(history)
    ensures forall i, x | 0 <= i < |answer| ::
              multiset(answer[i].entries)[x] == if Recorded(history, answer[i].host, x) then 1 else 0
  {
    ImportSaysAccount(history, states);
    QueryLaw(Final(states), Account(history), [], [], answer);
    forall i, x | 0 <= i < |answer|
      ensures multiset(answer[i].entries)[x] == if Recorded(history, answer[i].host, x) then 1 else 0
    {
      assert EntriesAre(Account(history), [], answer[i]);
      RecordedIsHeld(history, answer[i].host, x);
    }
  }

  // ---------------------------------------------------------------- the round trip

  /** The entry is one of the pairs this host's scripts contain. */
  ghost predicate Written(history: seq<Script>, host: string, x: Entry) {
    exists s, k :: s in history && s.host == host && 0 <= k < |s.infos| && s.infos[k] == Info(x.extractor, x.data)
  }

  /** No payload occurs under two extractor names. */
  ghost predicate OneNameEach(history: seq<Script>) {
    forall s, k, s', k' | s in history && 0 <= k < |s.infos| && s' in history && 0 <= k' < |s'.infos| ::
      s.infos[k].payload == s'.infos[k'].payload ==> s.infos[k].name == s'.infos[k'].name
  }

  /** A query returns, for every host, exactly the pairs that its scripts wrote, each once. */
  ghost predicate ReturnsWhatWasWritten(history: seq<Script>, answer: seq<HostAnswer>) {
    forall i, x | 0 <= i < |answer| ::
      multiset(answer[i].entries)[x] == if x.data != [] && Written(history, answer[i].host, x) then 1 else 0
  }

  lemma {:induction false} EntryIsWritten(history: seq<Script>, p: string, n: string)
    requires (p, n) in AllEntries(history)
    ensures exists s, k :: s in history && 0 <= k < |s.infos| && s.infos[k] == Info(n, p)
  {
    var before, s := history[..|history| - 1], history[|history| - 1];
    if (p, n) in AllEntries(before) {
      EntryIsWritten(before, p, n);
      var s', k :| s' in before && 0 <= k < |s'.infos| && s'.infos[k] == Info(n, p);
      assert s' in history;
    } else {
      var k :| 0 <= k < |Entries(s)| && Entries(s)[k] == (p, n);
      assert s in history && s.infos[k] == Info(n, p);
    }
  }

  lemma OneNameIsFirstWriter(history: seq<Script>, s: Script, k: nat)
    requires OneNameEach(history) && s in history && k < |s.infos|
    ensures FirstWriter(history, s.infos[k].payload) == Some(s.infos[k].name)
  {
    var p := s.infos[k].payload;
    EntryOfScript(history, s, k);
    FirstOfIs(AllEntries(history), p);
    EntryIsWritten(history, p, FirstWriter(history, p).value);
  }

  lemma RecordedIsWritten(history: seq<Script>, host: string, x: Entry)
    requires OneNameEach(history)
    ensures Recorded(history, host, x) <==> x.data != [] && Written(history, host, x)
  {
    if Recorded(history, host, x) {
      var s, k :| s in history && 0 <= k < |s.infos| && (host, x.data) == (s.host, s.infos[k].payload);
      OneNameIsFirstWriter(history, s, k);
      assert s.infos[k] == Info(x.extractor, x.data);
    }
    if x.data != [] && Written(history, host, x) {
      var s, k :| s in history && s.host == host && 0 <= k < |s.infos| && s.infos[k] == Info(x.extractor, x.data);
      OneNameIsFirstWriter(history, s, k);
      assert (s.host, s.infos[k].payload) in Carried(history);
    }
  }

  /** Two names for one payload: one of the two pairs is not recorded for its host. */
  lemma TwoNamesOneLost(history: seq<Script>)
    returns (host: string, x: Entry)
    requires !OneNameEach(history)
    requires forall s, k | s in history && 0 <= k < |s.infos| :: s.infos[k].payload != []
    ensures host in Hosts(history) && x.data != [] && Written(history, host, x) && !Recorded(history, host, x)
  {
    var s, k, s', k' :| s in history && 0 <= k < |s.infos| && s' in history && 0 <= k' < |s'.infos|
                        && s.infos[k].payload == s'.infos[k'].payload && s.infos[k].name != s'.infos[k'].name;
    if FirstWriter(history, s.infos[k].payload) == Some(s.infos[k].name) {
      host, x := s'.host, Entry(s'.infos[k'].name, s'.infos[k'].payload);
      assert s'.infos[k'] == Info(x.extractor, x.data);
    } else {
      host, x := s.host, Entry(s.infos[k].name, s.infos[k].payload);
      assert s.infos[k] == Info(x.extractor, x.data);
    }
  }

  /** Import and unfiltered query are inverse to each other if and only if no payload occurs
      under two extractor names. (A JSON text is never empty.) */
  lemma RoundTripIff(history: seq<Script>, states: seq<Tables>, answer: seq<HostAnswer>)
    requires IsImport(history, states) && Answers(Final(states), [], [], answer)
    requires forall s, k | s in history && 0 <= k < |s.infos| :: s.infos[k].payload != []
    ensures ReturnsWhatWasWritten(history, answer) <==> OneNameEach(history)
  {
    FirstWriterAnswer(history, states, answer);
    if OneNameEach(history) {
      forall i, x | 0 <= i < |answer|
        ensures multiset(answer[i].entries)[x] == if x.data != [] && Written(history, answer[i].host, x) then 1 else 0
      {
        RecordedIsWritten(history, answer[i].host, x);
      }
    } else {
      var host, x := TwoNamesOneLost(history);
      assert HasObject(answer, host);
      var i :| 0 <= i < |answer| && answer[i].host == host;
      assert multiset(answer[i].entries)[x] == 0;
    }
  }

  /** What two extractors found nothing for: the empty array of the second is filed under the
      first, at whatever host. */
  lemma EmptyArrays(host: string, host': string)
    ensures var history := [Script(host, [Info("disks", "[]")]), Script(host', [Info("swaps", "[]")])];
            && !OneNameEach(history)
            && forall states, answer | IsImport(history, states) && Answers(Final(states), [], [], answer) ::
                 !ReturnsWhatWasWritten(history, answer)
  {
    var s, s' := Script(host, [Info("disks", "[]")]), Script(host', [Info("swaps", "[]")]);
    var history := [s, s'];
    assert s in history && s' in history && s.infos[0].payload == s'.infos[0].payload;
    assert "disks"[0] != "swaps"[0];
    forall states, answer | IsImport(history, states) && Answers(Final(states), [], [], answer)
      ensures !ReturnsWhatWasWritten(history, answer)
    {
      RoundTripIff(history, states, answer);
    }
  }

  function TwoScripts(host: string, name: string, p: string, q: string): seq<Script> {
    [Script(host, [Info(name, p)]), Script(host, [Info(name, q)])]
  }

  lemma BothRecorded(host: string, name: string, p: string, q: string, r: string)
    requires p != q && r in {p, q} && r != []
    ensures Recorded(TwoScripts(host, name, p, q), host, Entry(name, r))
  {
    var history := TwoScripts(host, name, p, q);
    var s := if r == p then history[0] else history[1];
    assert s in history && s.host == host && s.infos[0] == Info(name, r);
    assert OneNameEach(history);
    RecordedIsWritten(history, host, Entry(name, r));
  }

  /** A host imported again with changed data: its object repeats a member name. */
  lemma ChangedData(host: string, name: string, p: string, q: string, states: seq<Tables>, answer: seq<HostAnswer>, i: nat)
    requires p != q && p != [] && q != []
    requires IsImport(TwoScripts(host, name, p, q), states) && Answers(Final(states), [], [], answer)
    requires i < |answer| && answer[i].host == host
    ensures !NamesDistinct(answer[i].entries)
  {
    var history := TwoScripts(host, name, p, q);
    BothRecorded(host, name, p, q, p);
    BothRecorded(host, name, p, q, q);
    RecordedIsHeld(history, host, Entry(name, p));
    RecordedIsHeld(history, host, Entry(name, q));
    ImportSaysAccount(history, states);
    QueryLaw(Final(states), Account(history), [], [], answer);
    assert EntriesAre(Account(history), [], answer[i]);
    TwoHeld(Account(history), answer[i], Entry(name, p), Entry(name, q));
  }

  lemma TwoHeld(f: Facts, reply: HostAnswer, x: Entry, y: Entry)
    requires EntriesAre(f, [], reply) && Holds(f, reply.host, x) && Holds(f, reply.host, y)
    requires x != y && x.extractor == y.extractor
    ensures !NamesDistinct(reply.entries)
  {
    MemberNamesUniqueIff(f, [], reply);
  }

  // ---------------------------------------------------------------- filtered queries

  /** A query for some hosts, against the unfiltered one on the same tables: the hosts that are
      both imported and wanted; an empty list wants all. */
  lemma FilterHosts(t: Tables, f: Facts, hostNames: seq<string>, extractorNames: seq<string>,
                    answer: seq<HostAnswer>, whole: seq<HostAnswer>, h: string)
    requires Integrity(t) && Says(t, f)
    requires Answers(t, hostNames, extractorNames, answer) && Answers(t, [], [], whole)
    ensures HasObject(answer, h) <==> HasObject(whole, h) && (hostNames == [] || h in hostNames)
  {
    QueryLaw(t, f, hostNames, extractorNames, answer);
    QueryLaw(t, f, [], [], whole);
  }

  ghost predicate InIdOrder(t: Tables, ids: seq<int>, answer: seq<HostAnswer>) {
    && |ids| == |answer|
    && (forall i, j | 0 <= i < j < |ids| :: ids[i] < ids[j])
    && (forall i | 0 <= i < |ids| :: NamedRow(ids[i], answer[i].host) in t.hosts)
  }

  lemma AnswerInIdOrder(t: Tables, hostNames: seq<string>, extractorNames: seq<string>, answer: seq<HostAnswer>)
    returns (ids: seq<int>)
    requires Answers(t, hostNames, extractorNames, answer)
    ensures InIdOrder(t, ids, answer)
  {
    var hosts, eids, ids' :| IsHostMap(t, hostNames, hosts) && IsEidList(t, extractorNames, eids)
                             && IsAnswer(t, hosts, eids, ids', answer);
    ids := ids';
  }

  /** The objects of the filtered query stand in the same order. */
  lemma FilterOrder(t: Tables, hostNames: seq<string>, extractorNames: seq<string>, answer: seq<HostAnswer>,
                    whole: seq<HostAnswer>, i: nat, i': nat, j: nat, j': nat)
    requires Keys(t) && Answers(t, hostNames, extractorNames, answer) && Answers(t, [], [], whole)
    requires i < i' < |answer| && j < |whole| && j' < |whole|
    requires answer[i].host == whole[j].host && answer[i'].host == whole[j'].host
    ensures j < j'
  {
    var ids := AnswerInIdOrder(t, hostNames, extractorNames, answer);
    var ids' := AnswerInIdOrder(t, [], [], whole);
    SameId(t, ids, answer, i, ids', whole, j);
    SameId(t, ids, answer, i', ids', whole, j');
    assert ids[i] < ids[i'];
    InOrder(t, ids', whole, j, j');
  }

  lemma SameId(t: Tables, ids: seq<int>, answer: seq<HostAnswer>, i: nat, ids': seq<int>, whole: seq<HostAnswer>, j: nat)
    requires KeyedNames(t.hosts, t.hostSeq) && InIdOrder(t, ids, answer) && InIdOrder(t, ids', whole)
    requires i < |answer| && j < |whole| && answer[i].host == whole[j].host
    ensures ids[i] == ids'[j]
  {
    var r, r' := NamedRow(ids[i], answer[i].host), NamedRow(ids'[j], whole[j].host);
    assert r in t.hosts && r' in t.hosts;
  }

  lemma InOrder(t: Tables, ids: seq<int>, answer: seq<HostAnswer>, j: nat, j': nat)
    requires InIdOrder(t, ids, answer) && j < |ids| && j' < |ids| && ids[j] < ids[j']
    ensures j < j'
  {
    assert !(j' < j);
  }

  /** And of such a host's entries those of the wanted extractors, each as often as its extractor
      is named: once, when the names are free of duplicates. */
  lemma FilterEntries(t: Tables, f: Facts, hostNames: seq<string>, extractorNames: seq<string>,
                      answer: seq<HostAnswer>, whole: seq<HostAnswer>, i: nat, j: nat, x: Entry)
    requires Integrity(t) && Says(t, f)
    requires Answers(t, hostNames, extractorNames, answer) && Answers(t, [], [], whole)
    requires i < |answer| && j < |whole| && answer[i].host == whole[j].host
    ensures multiset(whole[j].entries)[x] <= 1
    ensures multiset(answer[i].entries)[x]
         == if x in whole[j].entries then Wanted(extractorNames, x.extractor) else 0
  {
    QueryLaw(t, f, hostNames, extractorNames, answer);
    QueryLaw(t, f, [], [], whole);
    assert EntriesAre(f, extractorNames, answer[i]) && EntriesAre(f, [], whole[j]);
    assert x in whole[j].entries <==> 0 < multiset(whole[j].entries)[x];
  }

  // ---------------------------------------------------------------- the tools in a row

  /** fillDB.sh on a new database file, then sysquery. */
  method ImportAndQuery(history: seq<Script>, hostNames: seq<string>, extractorNames: seq<string>)
    returns (output: seq<Output>)
    requires WellNamed(history)
    ensures exists answer :: Lawful(Account(history), hostNames, extractorNames, answer) && Shows(output, answer)
    ensures Prints(output, Account(history), hostNames, extractorNames)
  {
    var db := new Sqlite();
    var states := db.Import(AllStatements(history));
    ImportSaysAccount(history, states);
    OwnersArePlain(history);
    output := db.Answer(hostNames, extractorNames);
    ghost var answer :| Answers(db.Content(), hostNames, extractorNames, answer) && Shows(output, answer);
    QueryLaw(db.Content(), Account(history), hostNames, extractorNames, answer);
  }

  lemma OwnersArePlain(history: seq<Script>)
    requires WellNamed(history)
    ensures OwnersPlain(Account(history))
  {
    var owner := Account(history).owner;
    forall p | p in owner ensures '\0' !in owner[p] {
      OwnerIsFirstWriter(history, p);
      FirstOfIs(AllEntries(history), p);
      EntryIsWritten(history, p, owner[p]);
    }
  }
}
