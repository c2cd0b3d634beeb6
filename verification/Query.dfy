/** The read side of the store (lib/include/sysquery.hpp): what a query answers. */
module Query {
  import opened Text
  import opened Store

  // ---------------------------------------------------------------- what the schema guarantees

  /** Primary keys and UNIQUE columns: true of any tables SQLite maintains for this schema. */
  ghost predicate Keys(t: Tables) {
    KeyedNames(t.hosts, t.hostSeq) && KeyedNames(t.extractors, t.extractorSeq) && KeyedData(t.data, t.dataSeq)
  }

  lemma ExecKeepsKeys(s: Statement, t: Tables, t': Tables)
    requires Keys(t) && Exec(s, t, t')
    ensures Keys(t')
  {
    match s
    case InsertHost(name) =>
      if !Named(t.hosts, name) { NewName(t.hosts, t.hostSeq, t'.hostSeq, name); }
    case InsertExtractor(name) =>
      if !Named(t.extractors, name) { NewName(t.extractors, t.extractorSeq, t'.extractorSeq, name); }
    case InsertData(extractor, data) =>
      if !Stored(t.data, data) {
        var row: DataRow :| row.data == data && row.did == t'.dataSeq && t'.data == t.data + {row};
        NewData(t.data, t.dataSeq, row);
      }
    case InsertLink(_, _) =>
  }

  // ---------------------------------------------------------------- what the queries return

  predicate NoDup(s: seq<int>) {
    forall i, j | 0 <= i < j < |s| :: s[i] != s[j]
  }

  /** The integer SQLite delivers for a column: 0 for NULL. */
  function Number(id: Option<int>): int {
    if id.Some? then id.value else 0
  }

  /** `select DID from Host2Data where HostID = hid`: in any order. */
  ghost predicate AreDids(links: multiset<LinkRow>, hid: int, dids: seq<int>) {
    forall d :: d in dids <==> exists l :: l in links && l.host == Some(hid) && Number(l.did) == d
  }

  /** How often a name is asked for; no names at all means each once. */
  function Wanted(names: seq<string>, name: string): nat {
    if names == [] then 1 else multiset(names)[name]
  }

  /** The result of getHostIDs. */
  ghost predicate IsHostMap(t: Tables, names: seq<string>, hosts: map<int, seq<int>>) {
    && (forall id :: id in hosts <==> exists h :: h in t.hosts && h.id == id && 0 < Wanted(names, h.name))
    && (forall id | id in hosts :: AreDids(t.links, id, hosts[id]))
    && (LinksResolve(t.links, t.hosts, t.data) ==> forall id | id in hosts :: NoDup(hosts[id]))
  }

  ghost predicate KnownEids(t: Tables, eids: seq<int>) {
    forall i | 0 <= i < |eids| :: HasId(t.extractors, Some(eids[i]))
  }

  /** The result of getEIDs: an extractor's number as often as its name is wanted. */
  ghost predicate IsEidList(t: Tables, names: seq<string>, eids: seq<int>) {
    && (forall e | e in t.extractors :: multiset(eids)[e.id] == Wanted(names, e.name))
    && KnownEids(t, eids)
  }

  ghost predicate HasData(rows: set<DataRow>, eid: int, did: int, data: string) {
    exists r :: r in rows && r.did == did && r.eid == Some(eid) && r.data == data
  }

  /** getData: the empty string when no row matches. */
  ghost function DataAt(rows: set<DataRow>, eid: int, did: int): string {
    if exists p :: HasData(rows, eid, did, p) then var p :| HasData(rows, eid, did, p); p else []
  }

  /** getHostName and getExtractorName. */
  ghost function NameAt(rows: set<NamedRow>, id: int): (name: string)
    requires HasId(rows, Some(id))
    ensures NamedRow(id, name) in rows
  {
    var r :| r in rows && r.id == id;
    r.name
  }

  datatype Entry = Entry(extractor: string, data: string)
  datatype HostAnswer = HostAnswer(host: string, entries: seq<Entry>)

  ghost function EntryAt(t: Tables, eid: int, did: int): seq<Entry>
    requires HasId(t.extractors, Some(eid))
  {
    var data := DataAt(t.data, eid, did);
    if data == [] then [] else [Entry(NameAt(t.extractors, eid), data)]
  }

  /** The innermost loop of queryToJSON. */
  ghost function EntriesOf(t: Tables, eid: int, dids: seq<int>): seq<Entry>
    requires HasId(t.extractors, Some(eid))
  {
    if dids == [] then [] else EntriesOf(t, eid, dids[..|dids| - 1]) + EntryAt(t, eid, dids[|dids| - 1])
  }

  lemma EntriesOfMore(t: Tables, eid: int, dids: seq<int>, j: nat)
    requires HasId(t.extractors, Some(eid)) && j < |dids|
    ensures EntriesOf(t, eid, dids[..j + 1]) == EntriesOf(t, eid, dids[..j]) + EntryAt(t, eid, dids[j])
  {
    assert dids[..j + 1][..j] == dids[..j];
  }

  /** The members of one host's object. */
  ghost function AllEntriesOf(t: Tables, eids: seq<int>, dids: seq<int>): seq<Entry>
    requires KnownEids(t, eids)
  {
    if eids == [] then [] else
      AllEntriesOf(t, eids[..|eids| - 1], dids) + EntriesOf(t, eids[|eids| - 1], dids)
  }

  /** The answer to a query, hosts in ascending order of HostID. */
  ghost predicate IsAnswer(t: Tables, hosts: map<int, seq<int>>, eids: seq<int>, ids: seq<int>, answer: seq<HostAnswer>)
    requires KnownEids(t, eids)
  {
    && |ids| == |answer|
    && (forall i, j | 0 <= i < j < |ids| :: ids[i] < ids[j])
    && (forall id :: id in ids <==> id in hosts)
    && (forall i | 0 <= i < |ids| :: ids[i] in hosts && NamedRow(ids[i], answer[i].host) in t.hosts
                                     && answer[i].entries == AllEntriesOf(t, eids, hosts[ids[i]]))
  }

  // ---------------------------------------------------------------- the order of the entries

  /** A turn of the two inner loops of queryToJSON: an extractor's place and a payload's place. */
  datatype Turn = Turn(extractor: nat, payload: nat)

  predicate Earlier(a: Turn, b: Turn) {
    a.extractor < b.extractor || (a.extractor == b.extractor && a.payload < b.payload)
  }

  predicate Ascending(turns: seq<Turn>) {
    forall k, l | 0 <= k < l < |turns| :: Earlier(turns[k], turns[l])
  }

  /** The turn finds a payload. */
  ghost predicate Finds(t: Tables, eids: seq<int>, dids: seq<int>, turn: Turn) {
    turn.extractor < |eids| && turn.payload < |dids| && DataAt(t.data, eids[turn.extractor], dids[turn.payload]) != []
  }

  ghost function FoundBy(t: Tables, eids: seq<int>, dids: seq<int>, turn: Turn): Entry
    requires KnownEids(t, eids) && Finds(t, eids, dids, turn)
  {
    Entry(NameAt(t.extractors, eids[turn.extractor]), DataAt(t.data, eids[turn.extractor], dids[turn.payload]))
  }

  ghost predicate IsFound(t: Tables, eids: seq<int>, dids: seq<int>, turn: Turn, x: Entry)
    requires KnownEids(t, eids)
  {
    Finds(t, eids, dids, turn) && x == FoundBy(t, eids, dids, turn)
  }

  ghost predicate AreFound(t: Tables, eids: seq<int>, dids: seq<int>, turns: seq<Turn>, entries: seq<Entry>)
    requires KnownEids(t, eids)
  {
    |turns| == |entries| && forall k | 0 <= k < |turns| :: IsFound(t, eids, dids, turns[k], entries[k])
  }

  /** The entries are what the turns find, extractor by extractor and within one payload by payload,
      and the turns are all that find something. */
  ghost predicate InLoopOrder(t: Tables, eids: seq<int>, dids: seq<int>, entries: seq<Entry>, turns: seq<Turn>)
    requires KnownEids(t, eids)
  {
    && Ascending(turns) && AreFound(t, eids, dids, turns, entries)
    && (forall turn :: Finds(t, eids, dids, turn) ==> turn in turns)
  }

  lemma AppendFound(t: Tables, eids: seq<int>, dids: seq<int>, a: seq<Turn>, x: seq<Entry>, b: seq<Turn>, y: seq<Entry>)
    requires KnownEids(t, eids) && AreFound(t, eids, dids, a, x) && AreFound(t, eids, dids, b, y)
    requires Ascending(a) && Ascending(b) && forall k, l | k in a && l in b :: Earlier(k, l)
    ensures AreFound(t, eids, dids, a + b, x + y) && Ascending(a + b)
  {
    forall k | 0 <= k < |a + b| ensures IsFound(t, eids, dids, (a + b)[k], (x + y)[k]) {
      if k < |a| {
        assert IsFound(t, eids, dids, a[k], x[k]);
      } else {
        assert IsFound(t, eids, dids, b[k - |a|], y[k - |a|]);
      }
    }
  }

  lemma OneTurn(t: Tables, eids: seq<int>, dids: seq<int>, turn: Turn) returns (own: seq<Turn>)
    requires KnownEids(t, eids) && turn.extractor < |eids| && turn.payload < |dids|
    ensures own == if Finds(t, eids, dids, turn) then [turn] else []
    ensures AreFound(t, eids, dids, own, EntryAt(t, eids[turn.extractor], dids[turn.payload]))
  {
    own := if Finds(t, eids, dids, turn) then [turn] else [];
  }

  /** The turns of the inner loop for one extractor. */
  lemma {:induction false} InnerTurns(t: Tables, eids: seq<int>, dids: seq<int>, i: nat, n: nat) returns (turns: seq<Turn>)
    requires KnownEids(t, eids) && i < |eids| && n <= |dids|
    ensures Ascending(turns) && AreFound(t, eids, dids, turns, EntriesOf(t, eids[i], dids[..n]))
    ensures forall turn :: turn in turns <==> Finds(t, eids, dids, turn) && turn.extractor == i && turn.payload < n
  {
    if n == 0 {
      turns := [];
    } else {
      var before := InnerTurns(t, eids, dids, i, n - 1);
      var own := OneTurn(t, eids, dids, Turn(i, n - 1));
      EntriesOfMore(t, eids[i], dids, n - 1);
      AppendFound(t, eids, dids, before, EntriesOf(t, eids[i], dids[..n - 1]), own, EntryAt(t, eids[i], dids[n - 1]));
      turns := before + own;
    }
  }

  lemma OuterMore(t: Tables, eids: seq<int>, dids: seq<int>, n: nat)
    requires KnownEids(t, eids) && n < |eids|
    ensures AllEntriesOf(t, eids[..n + 1], dids) == AllEntriesOf(t, eids[..n], dids) + EntriesOf(t, eids[n], dids[..|dids|])
  {
    assert dids[..|dids|] == dids && eids[..n + 1][..n] == eids[..n];
  }

  /** The turns for the first n extractors. */
  lemma {:induction false} OuterTurns(t: Tables, eids: seq<int>, dids: seq<int>, n: nat) returns (turns: seq<Turn>)
    requires KnownEids(t, eids) && n <= |eids|
    ensures Ascending(turns) && AreFound(t, eids, dids, turns, AllEntriesOf(t, eids[..n], dids))
    ensures forall turn :: turn in turns <==> Finds(t, eids, dids, turn) && turn.extractor < n
  {
    if n == 0 {
      turns := [];
    } else {
      var before := OuterTurns(t, eids, dids, n - 1);
      var own := InnerTurns(t, eids, dids, n - 1, |dids|);
      OuterMore(t, eids, dids, n - 1);
      AppendFound(t, eids, dids, before, AllEntriesOf(t, eids[..n - 1], dids), own, EntriesOf(t, eids[n - 1], dids[..|dids|]));
      turns := before + own;
    }
  }

  /** The members of a host's object come in the order of the two loops. */
  lemma EntriesInOrder(t: Tables, eids: seq<int>, dids: seq<int>) returns (turns: seq<Turn>)
    requires KnownEids(t, eids)
    ensures InLoopOrder(t, eids, dids, AllEntriesOf(t, eids, dids), turns)
  {
    turns := OuterTurns(t, eids, dids, |eids|);
    assert eids[..|eids|] == eids;
  }

  // ---------------------------------------------------------------- counting the entries

  lemma DataAtIs(t: Tables, eid: int, did: int, p: string)
    requires Keys(t) && p != []
    ensures DataAt(t.data, eid, did) == p <==> HasData(t.data, eid, did, p)
  {
    if exists p' :: HasData(t.data, eid, did, p') {
      var p' := DataAt(t.data, eid, did);
      assert HasData(t.data, eid, did, p');
    }
  }

  ghost predicate HasDataIn(rows: set<DataRow>, eid: int, dids: seq<int>, data: string) {
    exists did :: did in dids && HasData(rows, eid, did, data)
  }

  lemma {:induction false} CountInner(t: Tables, eid: int, dids: seq<int>, x: Entry)
    requires Keys(t) && NoDup(dids) && x.data != []
    requires HasId(t.extractors, Some(eid))
    ensures multiset(EntriesOf(t, eid, dids))[x]
         == if x.extractor == NameAt(t.extractors, eid) && HasDataIn(t.data, eid, dids, x.data) then 1 else 0
  {
    if dids != [] {
      var before, did := dids[..|dids| - 1], dids[|dids| - 1];
      assert dids == before + [did];
      CountInner(t, eid, before, x);
      DataAtIs(t, eid, did, x.data);
      forall did' | did' in before && HasData(t.data, eid, did', x.data)
        ensures !HasData(t.data, eid, did, x.data)
      {
        assert did' != did;
      }
    }
  }

  lemma {:induction false} NoEmptyEntries(t: Tables, eids: seq<int>, dids: seq<int>)
    requires KnownEids(t, eids)
    ensures forall x | x in AllEntriesOf(t, eids, dids) :: x.data != []
  {
    if eids != [] {
      NoEmptyEntries(t, eids[..|eids| - 1], dids);
      NoEmptyInner(t, eids[|eids| - 1], dids);
    }
  }

  lemma {:induction false} NoEmptyInner(t: Tables, eid: int, dids: seq<int>)
    requires HasId(t.extractors, Some(eid))
    ensures forall x | x in EntriesOf(t, eid, dids) :: x.data != []
  {
    if dids != [] {
      NoEmptyInner(t, eid, dids[..|dids| - 1]);
    }
  }

  /** An entry occurs as often as its extractor's number is in the list, provided its payload is
      filed there and among the host's. */
  lemma {:induction false} CountEntries(t: Tables, eids: seq<int>, dids: seq<int>, x: Entry, e: NamedRow)
    requires Keys(t) && KnownEids(t, eids) && NoDup(dids) && x.data != []
    requires e in t.extractors && e.name == x.extractor
    ensures multiset(AllEntriesOf(t, eids, dids))[x]
         == if HasDataIn(t.data, e.id, dids, x.data) then multiset(eids)[e.id] else 0
  {
    if eids != [] {
      var before, eid := eids[..|eids| - 1], eids[|eids| - 1];
      assert eids == before + [eid];
      CountEntries(t, before, dids, x, e);
      CountInner(t, eid, dids, x);
      assert NamedRow(eid, NameAt(t.extractors, eid)) in t.extractors;
    }
  }

  lemma {:induction false} NoForeignEntries(t: Tables, eids: seq<int>, dids: seq<int>)
    requires KnownEids(t, eids)
    ensures forall x | x in AllEntriesOf(t, eids, dids) :: Named(t.extractors, x.extractor)
  {
    if eids != [] {
      NoForeignEntries(t, eids[..|eids| - 1], dids);
      NoForeignInner(t, eids[|eids| - 1], dids);
    }
  }

  lemma {:induction false} NoForeignInner(t: Tables, eid: int, dids: seq<int>)
    requires HasId(t.extractors, Some(eid))
    ensures forall x | x in EntriesOf(t, eid, dids) :: Named(t.extractors, x.extractor)
  {
    if dids != [] {
      NoForeignInner(t, eid, dids[..|dids| - 1]);
      assert NamedRow(eid, NameAt(t.extractors, eid)) in t.extractors;
    }
  }

  // ---------------------------------------------------------------- the law of the query

  /** A host's object holds the entry (n, p) exactly when the host carries p and p is filed
      under n, and then as often as n is wanted. */
  lemma HostObjectLaw(t: Tables, f: Facts, host: NamedRow, dids: seq<int>, names: seq<string>, eids: seq<int>, x: Entry)
    requires Integrity(t) && Says(t, f) && host in t.hosts
    requires AreDids(t.links, host.id, dids) && NoDup(dids) && IsEidList(t, names, eids)
    ensures multiset(AllEntriesOf(t, eids, dids))[x]
         == if Holds(f, host.name, x) then Wanted(names, x.extractor) else 0
  {
    if x.data == [] {
      NoEmptyEntries(t, eids, dids);
    } else if !Named(t.extractors, x.extractor) {
      NoForeignEntries(t, eids, dids);
      FiledIsNamed(t, f, x);
    } else {
      NamedEntryLaw(t, f, host, dids, names, eids, x);
    }
  }

  lemma NamedEntryLaw(t: Tables, f: Facts, host: NamedRow, dids: seq<int>, names: seq<string>, eids: seq<int>, x: Entry)
    requires Integrity(t) && Says(t, f) && host in t.hosts && x.data != [] && Named(t.extractors, x.extractor)
    requires AreDids(t.links, host.id, dids) && NoDup(dids) && IsEidList(t, names, eids)
    ensures multiset(AllEntriesOf(t, eids, dids))[x]
         == if Holds(f, host.name, x) then Wanted(names, x.extractor) else 0
  {
    var e :| e in t.extractors && e.name == x.extractor;
    CountEntries(t, eids, dids, x, e);
    LinkedData(t, f, host, dids, e, x.data);
  }

  /** The host carries this payload, and it is filed under this extractor. */
  predicate Holds(f: Facts, host: string, x: Entry) {
    x.data != [] && (host, x.data) in f.links && x.data in f.owner && f.owner[x.data] == x.extractor
  }

  lemma FiledIsNamed(t: Tables, f: Facts, x: Entry)
    requires OwnersAre(t.data, t.extractors, f.owner)
    ensures x.data in f.owner && f.owner[x.data] == x.extractor ==> Named(t.extractors, x.extractor)
  {
    if x.data in f.owner && f.owner[x.data] == x.extractor {
      assert Filed(t.data, t.extractors, x.data, x.extractor);
    }
  }

  lemma LinkedData(t: Tables, f: Facts, host: NamedRow, dids: seq<int>, e: NamedRow, p: string)
    requires Integrity(t) && Says(t, f) && host in t.hosts && e in t.extractors && AreDids(t.links, host.id, dids)
    ensures HasDataIn(t.data, e.id, dids, p)
       <==> (host.name, p) in f.links && p in f.owner && f.owner[p] == e.name
  {
    assert (host.name, p) in f.links <==> Carries(t.hosts, t.data, t.links, host.name, p);
    assert p in f.owner && f.owner[p] == e.name <==> Filed(t.data, t.extractors, p, e.name);
    if HasDataIn(t.data, e.id, dids, p) {
      DataIsLinked(t, host, dids, e, p);
    }
    if Carries(t.hosts, t.data, t.links, host.name, p) && Filed(t.data, t.extractors, p, e.name) {
      LinkIsData(t, host, dids, e, p);
    }
  }

  lemma DataIsLinked(t: Tables, host: NamedRow, dids: seq<int>, e: NamedRow, p: string)
    requires Integrity(t) && host in t.hosts && e in t.extractors && AreDids(t.links, host.id, dids)
    requires HasDataIn(t.data, e.id, dids, p)
    ensures Carries(t.hosts, t.data, t.links, host.name, p) && Filed(t.data, t.extractors, p, e.name)
  {
    var did :| did in dids && HasData(t.data, e.id, did, p);
    var r :| r in t.data && r.did == did && r.eid == Some(e.id) && r.data == p;
    var l :| l in t.links && l.host == Some(host.id) && Number(l.did) == did;
    assert l == LinkRow(Some(host.id), Some(r.did));
  }

  lemma LinkIsData(t: Tables, host: NamedRow, dids: seq<int>, e: NamedRow, p: string)
    requires Keys(t) && host in t.hosts && e in t.extractors && AreDids(t.links, host.id, dids)
    requires Carries(t.hosts, t.data, t.links, host.name, p) && Filed(t.data, t.extractors, p, e.name)
    ensures HasDataIn(t.data, e.id, dids, p)
  {
    var h, d :| h in t.hosts && d in t.data && h.name == host.name && d.data == p
                && LinkRow(Some(h.id), Some(d.did)) in t.links;
    var d', e' :| d' in t.data && e' in t.extractors && d'.data == p && e'.name == e.name && d'.eid == Some(e'.id);
    assert d' == d && e' == e && h == host;
    assert d.did in dids;
    assert HasData(t.data, e.id, d.did, p);
  }

  /** The answer to `sysquery -n hosts -e extractors` (no hosts or no extractors: all of them),
      for any lists of names, repeated and unknown ones included. */
  ghost predicate Answers(t: Tables, hostNames: seq<string>, extractorNames: seq<string>, answer: seq<HostAnswer>) {
    exists hosts, eids, ids :: IsHostMap(t, hostNames, hosts) && IsEidList(t, extractorNames, eids)
                               && IsAnswer(t, hosts, eids, ids, answer)
  }

  ghost predicate HasObject(answer: seq<HostAnswer>, h: string) {
    exists i :: 0 <= i < |answer| && answer[i].host == h
  }

  /** Every wanted host has exactly one object, possibly empty, and no other host has one; an
      entry is in it as often as its extractor is wanted, if the host holds it, and not otherwise. */
  ghost predicate Lawful(f: Facts, hostNames: seq<string>, extractorNames: seq<string>, answer: seq<HostAnswer>) {
    && (forall i, j | 0 <= i < j < |answer| :: answer[i].host != answer[j].host)
    && (forall h :: HasObject(answer, h) <==> h in f.hosts && 0 < Wanted(hostNames, h))
    && (forall i | 0 <= i < |answer| :: EntriesAre(f, extractorNames, answer[i]))
  }

  ghost predicate EntriesAre(f: Facts, extractorNames: seq<string>, reply: HostAnswer) {
    forall x :: multiset(reply.entries)[x] == if Holds(f, reply.host, x) then Wanted(extractorNames, x.extractor) else 0
  }

  lemma QueryLaw(t: Tables, f: Facts, hostNames: seq<string>, extractorNames: seq<string>, answer: seq<HostAnswer>)
    requires Integrity(t) && Says(t, f) && Answers(t, hostNames, extractorNames, answer)
    ensures Lawful(f, hostNames, extractorNames, answer)
  {
    var hosts, eids, ids :| IsHostMap(t, hostNames, hosts) && IsEidList(t, extractorNames, eids)
                            && IsAnswer(t, hosts, eids, ids, answer);
    DistinctHosts(t, hosts, eids, ids, answer);
    forall h { AnsweredHosts(t, f, hostNames, hosts, eids, ids, answer, h); }
    forall i | 0 <= i < |answer| ensures EntriesAre(f, extractorNames, answer[i]) {
      ObjectLaw(t, f, hostNames, hosts, extractorNames, eids, ids, answer, i);
    }
  }

  // ---------------------------------------------------------------- repeated member names

  predicate NamesDistinct(entries: seq<Entry>) {
    forall i, j | 0 <= i < j < |entries| :: entries[i].extractor != entries[j].extractor
  }

  /** Among what is wanted, the host holds one payload per extractor, and no extractor it holds
      something of is wanted twice. */
  ghost predicate OnePayloadEach(f: Facts, extractorNames: seq<string>, host: string) {
    && (forall x | Holds(f, host, x) :: Wanted(extractorNames, x.extractor) <= 1)
    && (forall x, y | Holds(f, host, x) && Holds(f, host, y) && x.extractor == y.extractor
                      && 0 < Wanted(extractorNames, x.extractor) :: x == y)
  }

  lemma {:induction false} OnceEach<T>(s: seq<T>, x: T)
    requires forall i, j | 0 <= i < j < |s| :: s[i] != s[j]
    ensures multiset(s)[x] <= 1
  {
    if s != [] {
      var before, last := s[..|s| - 1], s[|s| - 1];
      assert s == before + [last];
      OnceEach(before, x);
      if x == last {
        assert x !in before;
      }
    }
  }

  lemma NotTwice<T>(s: seq<T>, i: nat, j: nat)
    requires i < j < |s| && multiset(s)[s[i]] <= 1
    ensures s[i] != s[j]
  {
    var before, after := s[..j], s[j..];
    assert s == before + after;
    assert before[i] == s[i] && after[0] == s[j];
    assert s[i] in multiset(before) && s[j] in multiset(after);
    assert multiset(s) == multiset(before) + multiset(after);
  }

  /** The member names of a host's object are unique if and only if the host holds one payload per
      wanted extractor and asks for none twice. */
  lemma MemberNamesUniqueIff(f: Facts, extractorNames: seq<string>, reply: HostAnswer)
    requires EntriesAre(f, extractorNames, reply)
    ensures NamesDistinct(reply.entries) <==> OnePayloadEach(f, extractorNames, reply.host)
  {
    if NamesDistinct(reply.entries) {
      DistinctHolds(f, extractorNames, reply);
    }
    if OnePayloadEach(f, extractorNames, reply.host) {
      HoldsDistinct(f, extractorNames, reply);
    }
  }

  lemma DistinctHolds(f: Facts, extractorNames: seq<string>, reply: HostAnswer)
    requires EntriesAre(f, extractorNames, reply) && NamesDistinct(reply.entries)
    ensures OnePayloadEach(f, extractorNames, reply.host)
  {
    var entries := reply.entries;
    forall x | Holds(f, reply.host, x) ensures Wanted(extractorNames, x.extractor) <= 1 {
      OnceEach(entries, x);
    }
    forall x, y | Holds(f, reply.host, x) && Holds(f, reply.host, y) && x.extractor == y.extractor
                  && 0 < Wanted(extractorNames, x.extractor)
      ensures x == y
    {
      assert x in multiset(entries) && y in multiset(entries);
      var i, j :| 0 <= i < |entries| && entries[i] == x && 0 <= j < |entries| && entries[j] == y;
      assert !(i < j) && !(j < i);
    }
  }

  lemma HoldsDistinct(f: Facts, extractorNames: seq<string>, reply: HostAnswer)
    requires EntriesAre(f, extractorNames, reply) && OnePayloadEach(f, extractorNames, reply.host)
    ensures NamesDistinct(reply.entries)
  {
    var entries := reply.entries;
    forall i, j | 0 <= i < j < |entries| ensures entries[i].extractor != entries[j].extractor {
      var x, y := entries[i], entries[j];
      assert x in multiset(entries) && y in multiset(entries);
      assert Holds(f, reply.host, x) && Holds(f, reply.host, y);
      assert Wanted(extractorNames, x.extractor) <= 1;
      NotTwice(entries, i, j);
    }
  }

  lemma ObjectLaw(t: Tables, f: Facts, hostNames: seq<string>, hosts: map<int, seq<int>>, extractorNames: seq<string>,
                  eids: seq<int>, ids: seq<int>, answer: seq<HostAnswer>, i: nat)
    requires Integrity(t) && Says(t, f) && IsHostMap(t, hostNames, hosts) && IsEidList(t, extractorNames, eids)
    requires IsAnswer(t, hosts, eids, ids, answer) && i < |answer|
    ensures EntriesAre(f, extractorNames, answer[i])
  {
    var host := NamedRow(ids[i], answer[i].host);
    forall x ensures multiset(answer[i].entries)[x]
                  == if Holds(f, answer[i].host, x) then Wanted(extractorNames, x.extractor) else 0
    {
      HostObjectLaw(t, f, host, hosts[ids[i]], extractorNames, eids, x);
    }
  }

  lemma DistinctHosts(t: Tables, hosts: map<int, seq<int>>, eids: seq<int>, ids: seq<int>, answer: seq<HostAnswer>)
    requires Keys(t) && KnownEids(t, eids) && IsAnswer(t, hosts, eids, ids, answer)
    ensures forall i, j | 0 <= i < j < |answer| :: answer[i].host != answer[j].host
  {
    forall i, j | 0 <= i < j < |answer| ensures answer[i].host != answer[j].host {
      assert NamedRow(ids[i], answer[i].host) in t.hosts && NamedRow(ids[j], answer[j].host) in t.hosts;
    }
  }

  lemma AnsweredHosts(t: Tables, f: Facts, hostNames: seq<string>, hosts: map<int, seq<int>>, eids: seq<int>,
                      ids: seq<int>, answer: seq<HostAnswer>, h: string)
    requires Integrity(t) && Says(t, f) && IsHostMap(t, hostNames, hosts) && KnownEids(t, eids)
    requires IsAnswer(t, hosts, eids, ids, answer)
    ensures HasObject(answer, h) <==> h in f.hosts && 0 < Wanted(hostNames, h)
  {
    if i :| 0 <= i < |answer| && answer[i].host == h {
      assert NamedRow(ids[i], h) in t.hosts && ids[i] in hosts;
      assert Named(t.hosts, h);
    }
    if h in f.hosts && 0 < Wanted(hostNames, h) {
      assert Named(t.hosts, h);
      var r :| r in t.hosts && r.name == h;
      assert r.id in hosts && r.id in ids;
      var i :| 0 <= i < |ids| && ids[i] == r.id;
      assert answer[i].host == h;
    }
  }
}
