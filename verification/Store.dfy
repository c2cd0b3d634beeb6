/** The relational store: the schema of share/fillDB.sh and the four statements that
    Extractor_Set::toSQL writes (lib/src/extractor_set.cc, lines 107-132). */
module Store {
  import opened Text

  // ---------------------------------------------------------------- tables and statements

  /** A row of Hosttable or Extractortable. */
  datatype NamedRow = NamedRow(id: int, name: string)
  datatype DataRow = DataRow(did: int, eid: Option<int>, data: string)
  datatype LinkRow = LinkRow(host: Option<int>, did: Option<int>)

  /** The four tables; None is NULL. A table with a primary key is a set of rows, Host2Data,
      which declares none, a multiset. The three numbers are what autoincrement remembers. */
  datatype Tables = Tables(
    hosts: set<NamedRow>, extractors: set<NamedRow>, data: set<DataRow>, links: multiset<LinkRow>,
    hostSeq: int, extractorSeq: int, dataSeq: int)

  const EMPTY := Tables({}, {}, {}, multiset{}, 0, 0, 0)

  datatype Statement =
    | InsertHost(host: string)
    | InsertExtractor(name: string)
    | InsertData(extractor: string, data: string)
    | InsertLink(host: string, data: string)

  predicate Named(rows: set<NamedRow>, name: string) {
    exists r :: r in rows && r.name == name
  }

  predicate Stored(rows: set<DataRow>, data: string) {
    exists r :: r in rows && r.data == data
  }

  /** A scalar subquery `select ID from T where Name = '...'`: some matching row, or NULL. */
  predicate SelectsNamed(rows: set<NamedRow>, name: string, id: Option<int>) {
    match id
    case Some(n) => NamedRow(n, name) in rows
    case None => !Named(rows, name)
  }

  predicate SelectsData(rows: set<DataRow>, data: string, id: Option<int>) {
    match id
    case Some(n) => exists r :: r in rows && r.did == n && r.data == data
    case None => !Stored(rows, data)
  }

  /** `exists (select 1 from Host2Data where HostID = host AND DID = did)`: no row equals NULL. */
  predicate LinkExists(links: multiset<LinkRow>, host: Option<int>, did: Option<int>) {
    host.Some? && did.Some? && LinkRow(host, did) in links
  }

  /** One statement. An ignored insert may still advance the autoincrement sequence; a new
      row gets a number above everything the sequence has given out. */
  ghost predicate Exec(s: Statement, t: Tables, t': Tables) {
    match s
    case InsertHost(name) =>
      && t' == t.(hosts := t'.hosts, hostSeq := t'.hostSeq)
      && if Named(t.hosts, name) then t'.hosts == t.hosts && t.hostSeq <= t'.hostSeq
         else t'.hosts == t.hosts + {NamedRow(t'.hostSeq, name)} && t.hostSeq < t'.hostSeq
    case InsertExtractor(name) =>
      && t' == t.(extractors := t'.extractors, extractorSeq := t'.extractorSeq)
      && if Named(t.extractors, name) then t'.extractors == t.extractors && t.extractorSeq <= t'.extractorSeq
         else t'.extractors == t.extractors + {NamedRow(t'.extractorSeq, name)} && t.extractorSeq < t'.extractorSeq
    case InsertData(extractor, data) =>
      && t' == t.(data := t'.data, dataSeq := t'.dataSeq)
      && if Stored(t.data, data) then t'.data == t.data && t.dataSeq <= t'.dataSeq
         else exists eid :: SelectsNamed(t.extractors, extractor, eid) && t.dataSeq < t'.dataSeq
                            && t'.data == t.data + {DataRow(t'.dataSeq, eid, data)}
    case InsertLink(host, data) =>
      exists hid, did :: SelectsNamed(t.hosts, host, hid) && SelectsData(t.data, data, did)
        && t' == if LinkExists(t.links, hid, did) then t else t.(links := t.links + multiset{LinkRow(hid, did)})
  }

  /** A run: the tables before, between and after the statements. */
  ghost predicate IsRun(statements: seq<Statement>, states: seq<Tables>) {
    && |states| == |statements| + 1
    && forall i | 0 <= i < |statements| :: Exec(statements[i], states[i], states[i + 1])
  }

  // ---------------------------------------------------------------- the integrity of the tables

  ghost predicate KeyedNames(rows: set<NamedRow>, last: int) {
    && (forall r, s | r in rows && s in rows && (r.id == s.id || r.name == s.name) :: r == s)
    && (forall r | r in rows :: r.id <= last)
  }

  ghost predicate KeyedData(rows: set<DataRow>, last: int) {
    && (forall r, s | r in rows && s in rows && (r.did == s.did || r.data == s.data) :: r == s)
    && (forall r | r in rows :: r.did <= last)
  }

  predicate HasId(rows: set<NamedRow>, id: Option<int>) {
    id.Some? && exists r :: r in rows && r.id == id.value
  }

  predicate HasDid(rows: set<DataRow>, did: Option<int>) {
    did.Some? && exists r :: r in rows && r.did == did.value
  }

  ghost predicate DataResolves(data: set<DataRow>, extractors: set<NamedRow>) {
    forall d | d in data :: HasId(extractors, d.eid)
  }

  /** Every link is there once, between existing rows. */
  ghost predicate LinksResolve(links: multiset<LinkRow>, hosts: set<NamedRow>, data: set<DataRow>) {
    forall l | l in links :: links[l] == 1 && HasId(hosts, l.host) && HasDid(data, l.did)
  }

  /** Names, payloads and numbers are unique, every reference resolves, and no link is repeated,
      although Host2Data declares no constraint and Datatable.EID no reference. */
  ghost predicate Integrity(t: Tables) {
    && KeyedNames(t.hosts, t.hostSeq)
    && KeyedNames(t.extractors, t.extractorSeq)
    && KeyedData(t.data, t.dataSeq)
    && DataResolves(t.data, t.extractors)
    && LinksResolve(t.links, t.hosts, t.data)
  }

  // ---------------------------------------------------------------- what the tables say

  /** The store as its users think of it: hosts, extractors, the extractor each payload is filed
      under, and who carries which payload. */
  datatype Facts = Facts(hosts: set<string>, extractors: set<string>, owner: map<string, string>, links: set<(string, string)>)

  const NO_FACTS := Facts({}, {}, map[], {})

  /** Payload p is filed under extractor n. */
  predicate Filed(data: set<DataRow>, extractors: set<NamedRow>, p: string, n: string) {
    exists d, e :: d in data && e in extractors && d.data == p && e.name == n && d.eid == Some(e.id)
  }

  /** Host h is linked to payload p. */
  predicate Carries(hosts: set<NamedRow>, data: set<DataRow>, links: multiset<LinkRow>, h: string, p: string) {
    exists r, d :: r in hosts && d in data && r.name == h && d.data == p && LinkRow(Some(r.id), Some(d.did)) in links
  }

  ghost predicate NamesAre(rows: set<NamedRow>, names: set<string>) {
    forall n :: Named(rows, n) <==> n in names
  }

  ghost predicate OwnersAre(data: set<DataRow>, extractors: set<NamedRow>, owner: map<string, string>) {
    && (forall p :: Stored(data, p) <==> p in owner)
    && (forall p, n :: Filed(data, extractors, p, n) <==> p in owner && owner[p] == n)
  }

  ghost predicate LinksAre(hosts: set<NamedRow>, data: set<DataRow>, links: multiset<LinkRow>, pairs: set<(string, string)>) {
    forall h, p :: Carries(hosts, data, links, h, p) <==> (h, p) in pairs
  }

  ghost predicate Says(t: Tables, f: Facts) {
    && NamesAre(t.hosts, f.hosts)
    && NamesAre(t.extractors, f.extractors)
    && OwnersAre(t.data, t.extractors, f.owner)
    && LinksAre(t.hosts, t.data, t.links, f.links)
  }

  /** The statements on facts: a payload is filed once, under the first extractor. */
  function Learn(f: Facts, s: Statement): Facts {
    match s
    case InsertHost(host) => f.(hosts := f.hosts + {host})
    case InsertExtractor(name) => f.(extractors := f.extractors + {name})
    case InsertData(extractor, data) => if data in f.owner then f else f.(owner := f.owner[data := extractor])
    case InsertLink(host, data) => f.(links := f.links + {(host, data)})
  }

  function LearnAll(f: Facts, statements: seq<Statement>): Facts {
    if statements == [] then f else
      Learn(LearnAll(f, statements[..|statements| - 1]), statements[|statements| - 1])
  }

  /** The subqueries of the statement find their rows. */
  predicate Resolves(f: Facts, s: Statement) {
    match s
    case InsertHost(_) => true
    case InsertExtractor(_) => true
    case InsertData(extractor, _) => extractor in f.extractors
    case InsertLink(host, data) => host in f.hosts && data in f.owner
  }

  predicate AllResolve(f: Facts, statements: seq<Statement>) {
    forall i | 0 <= i < |statements| :: Resolves(LearnAll(f, statements[..i]), statements[i])
  }

  // ---------------------------------------------------------------- one statement

  lemma NewName(rows: set<NamedRow>, last: int, id: int, name: string)
    requires KeyedNames(rows, last) && !Named(rows, name) && last < id
    ensures KeyedNames(rows + {NamedRow(id, name)}, id)
    ensures forall n :: Named(rows + {NamedRow(id, name)}, n) <==> Named(rows, n) || n == name
    ensures forall i | HasId(rows, i) :: HasId(rows + {NamedRow(id, name)}, i)
    ensures !HasId(rows, Some(id))
  {
    var rows' := rows + {NamedRow(id, name)};
    assert NamedRow(id, name) in rows';
    forall n | Named(rows, n) ensures Named(rows', n) {
      var r :| r in rows && r.name == n;
      assert r in rows';
    }
    forall i | HasId(rows, i) ensures HasId(rows', i) {
      var r :| r in rows && r.id == i.value;
      assert r in rows';
    }
  }

  lemma NewData(rows: set<DataRow>, last: int, row: DataRow)
    requires KeyedData(rows, last) && !Stored(rows, row.data) && last < row.did
    ensures KeyedData(rows + {row}, row.did)
    ensures forall p :: Stored(rows + {row}, p) <==> Stored(rows, p) || p == row.data
    ensures forall i | HasDid(rows, i) :: HasDid(rows + {row}, i)
    ensures !HasDid(rows, Some(row.did))
  {
    var rows' := rows + {row};
    assert row in rows';
    forall p | Stored(rows, p) ensures Stored(rows', p) {
      var r :| r in rows && r.data == p;
      assert r in rows';
    }
    forall i | HasDid(rows, i) ensures HasDid(rows', i) {
      var r :| r in rows && r.did == i.value;
      assert r in rows';
    }
  }

  /** A host row that no link refers to changes no carrying. */
  lemma HostAddsNoLink(t: Tables, t': Tables, row: NamedRow, h: string, p: string)
    requires t'.hosts == t.hosts + {row} && t'.data == t.data && t'.links == t.links
    requires !HasId(t.hosts, Some(row.id)) && forall l | l in t.links :: HasId(t.hosts, l.host)
    ensures Carries(t'.hosts, t'.data, t'.links, h, p) <==> Carries(t.hosts, t.data, t.links, h, p)
  {
    if Carries(t'.hosts, t'.data, t'.links, h, p) {
      var r, d :| r in t'.hosts && d in t'.data && r.name == h && d.data == p && LinkRow(Some(r.id), Some(d.did)) in t'.links;
      assert r in t.hosts;
    }
    if Carries(t.hosts, t.data, t.links, h, p) {
      var r, d :| r in t.hosts && d in t.data && r.name == h && d.data == p && LinkRow(Some(r.id), Some(d.did)) in t.links;
      assert r in t'.hosts;
    }
  }

  lemma DataAddsNoLink(t: Tables, t': Tables, row: DataRow, h: string, p: string)
    requires t'.data == t.data + {row} && t'.hosts == t.hosts && t'.links == t.links
    requires !HasDid(t.data, Some(row.did)) && forall l | l in t.links :: HasDid(t.data, l.did)
    ensures Carries(t'.hosts, t'.data, t'.links, h, p) <==> Carries(t.hosts, t.data, t.links, h, p)
  {
    if Carries(t'.hosts, t'.data, t'.links, h, p) {
      var r, d :| r in t'.hosts && d in t'.data && r.name == h && d.data == p && LinkRow(Some(r.id), Some(d.did)) in t'.links;
      assert d in t.data;
    }
    if Carries(t.hosts, t.data, t.links, h, p) {
      var r, d :| r in t.hosts && d in t.data && r.name == h && d.data == p && LinkRow(Some(r.id), Some(d.did)) in t.links;
      assert d in t'.data;
    }
  }

  lemma ExtractorFilesNothing(t: Tables, t': Tables, row: NamedRow, p: string, n: string)
    requires t'.extractors == t.extractors + {row} && t'.data == t.data
    requires !HasId(t.extractors, Some(row.id)) && forall d | d in t.data :: HasId(t.extractors, d.eid)
    ensures Filed(t'.data, t'.extractors, p, n) <==> Filed(t.data, t.extractors, p, n)
  {
    if Filed(t'.data, t'.extractors, p, n) {
      var d, e :| d in t'.data && e in t'.extractors && d.data == p && e.name == n && d.eid == Some(e.id);
      assert e in t.extractors;
    }
    if Filed(t.data, t.extractors, p, n) {
      var d, e :| d in t.data && e in t.extractors && d.data == p && e.name == n && d.eid == Some(e.id);
      assert e in t'.extractors;
    }
  }

  lemma DataFilesOne(t: Tables, t': Tables, row: DataRow, extractor: NamedRow, p: string, n: string)
    requires KeyedNames(t.extractors, t.extractorSeq) && t'.extractors == t.extractors
    requires t'.data == t.data + {row} && extractor in t.extractors && row.eid == Some(extractor.id)
    ensures Filed(t'.data, t'.extractors, p, n) <==> Filed(t.data, t.extractors, p, n) || (p == row.data && n == extractor.name)
  {
    assert row in t'.data;
    if Filed(t'.data, t'.extractors, p, n) {
      var d, e :| d in t'.data && e in t'.extractors && d.data == p && e.name == n && d.eid == Some(e.id);
      assert d in t.data || (d == row && e == extractor);
    }
    if Filed(t.data, t.extractors, p, n) {
      var d, e :| d in t.data && e in t.extractors && d.data == p && e.name == n && d.eid == Some(e.id);
      assert d in t'.data;
    }
  }

  lemma LinkAddsOne(t: Tables, t': Tables, host: NamedRow, row: DataRow, h: string, p: string)
    requires KeyedNames(t.hosts, t.hostSeq) && KeyedData(t.data, t.dataSeq)
    requires t'.hosts == t.hosts && t'.data == t.data && host in t.hosts && row in t.data
    requires t'.links == t.links + multiset{LinkRow(Some(host.id), Some(row.did))}
    ensures Carries(t'.hosts, t'.data, t'.links, h, p) <==> Carries(t.hosts, t.data, t.links, h, p) || (h == host.name && p == row.data)
  {
    assert LinkRow(Some(host.id), Some(row.did)) in t'.links;
    if Carries(t'.hosts, t'.data, t'.links, h, p) {
      var r, d :| r in t'.hosts && d in t'.data && r.name == h && d.data == p && LinkRow(Some(r.id), Some(d.did)) in t'.links;
      assert LinkRow(Some(r.id), Some(d.did)) in t.links || (r == host && d == row);
    }
    if Carries(t.hosts, t.data, t.links, h, p) {
      var r, d :| r in t.hosts && d in t.data && r.name == h && d.data == p && LinkRow(Some(r.id), Some(d.did)) in t.links;
      assert LinkRow(Some(r.id), Some(d.did)) in t'.links;
    }
  }

  lemma ExecHost(name: string, t: Tables, t': Tables, f: Facts)
    requires Integrity(t) && Says(t, f) && Exec(InsertHost(name), t, t')
    ensures Integrity(t') && Says(t', Learn(f, InsertHost(name)))
  {
    if !Named(t.hosts, name) {
      var row := NamedRow(t'.hostSeq, name);
      NewName(t.hosts, t.hostSeq, row.id, name);
      forall h, p { HostAddsNoLink(t, t', row, h, p); }
    }
  }

  lemma ExecExtractor(name: string, t: Tables, t': Tables, f: Facts)
    requires Integrity(t) && Says(t, f) && Exec(InsertExtractor(name), t, t')
    ensures Integrity(t') && Says(t', Learn(f, InsertExtractor(name)))
  {
    if !Named(t.extractors, name) {
      var row := NamedRow(t'.extractorSeq, name);
      NewName(t.extractors, t.extractorSeq, row.id, name);
      forall p, n { ExtractorFilesNothing(t, t', row, p, n); }
    }
  }

  lemma NewDataIntegrity(t: Tables, t': Tables, row: DataRow)
    requires Integrity(t) && !Stored(t.data, row.data) && t.dataSeq < row.did && HasId(t.extractors, row.eid)
    requires t' == t.(data := t.data + {row}, dataSeq := row.did)
    ensures Integrity(t')
  {
    NewData(t.data, t.dataSeq, row);
    assert forall l | l in t'.links :: HasDid(t.data, l.did);
  }

  lemma NewDataSays(t: Tables, t': Tables, row: DataRow, e: NamedRow, f: Facts)
    requires Integrity(t) && Says(t, f) && !Stored(t.data, row.data) && t.dataSeq < row.did
    requires e in t.extractors && row.eid == Some(e.id)
    requires t' == t.(data := t.data + {row}, dataSeq := row.did)
    ensures Says(t', Learn(f, InsertData(e.name, row.data)))
  {
    NewData(t.data, t.dataSeq, row);
    var f' := f.(owner := f.owner[row.data := e.name]);
    assert row.data !in f.owner;
    forall p, n ensures Filed(t'.data, t'.extractors, p, n) <==> p in f'.owner && f'.owner[p] == n {
      DataFilesOne(t, t', row, e, p, n);
    }
    forall h, p ensures Carries(t'.hosts, t'.data, t'.links, h, p) <==> (h, p) in f.links {
      DataAddsNoLink(t, t', row, h, p);
    }
  }

  lemma ExecData(extractor: string, data: string, t: Tables, t': Tables, f: Facts)
    requires Integrity(t) && Says(t, f) && Exec(InsertData(extractor, data), t, t')
    requires extractor in f.extractors
    ensures Integrity(t') && Says(t', Learn(f, InsertData(extractor, data)))
  {
    if Stored(t.data, data) {
    } else {
      assert Named(t.extractors, extractor);
      var eid :| SelectsNamed(t.extractors, extractor, eid) && t'.data == t.data + {DataRow(t'.dataSeq, eid, data)};
      var row, e := DataRow(t'.dataSeq, eid, data), NamedRow(eid.value, extractor);
      NewDataIntegrity(t, t', row);
      NewDataSays(t, t', row, e, f);
    }
  }

  lemma NewLinkIntegrity(t: Tables, t': Tables, link: LinkRow)
    requires Integrity(t) && link !in t.links && HasId(t.hosts, link.host) && HasDid(t.data, link.did)
    requires t' == t.(links := t.links + multiset{link})
    ensures Integrity(t')
  {
    forall l | l in t'.links ensures t'.links[l] == 1 && HasId(t'.hosts, l.host) && HasDid(t'.data, l.did) {
      if l != link { assert l in t.links; }
    }
  }

  lemma NewLinkPairs(t: Tables, t': Tables, h: NamedRow, d: DataRow, pairs: set<(string, string)>)
    requires KeyedNames(t.hosts, t.hostSeq) && KeyedData(t.data, t.dataSeq) && h in t.hosts && d in t.data
    requires LinksAre(t.hosts, t.data, t.links, pairs)
    requires t' == t.(links := t.links + multiset{LinkRow(Some(h.id), Some(d.did))})
    ensures LinksAre(t'.hosts, t'.data, t'.links, pairs + {(h.name, d.data)})
  {
    forall h', p ensures Carries(t'.hosts, t'.data, t'.links, h', p) <==> (h', p) in pairs + {(h.name, d.data)} {
      LinkAddsOne(t, t', h, d, h', p);
    }
  }

  lemma NewLinkSays(t: Tables, t': Tables, h: NamedRow, d: DataRow, f: Facts)
    requires KeyedNames(t.hosts, t.hostSeq) && KeyedData(t.data, t.dataSeq) && Says(t, f) && h in t.hosts && d in t.data
    requires t' == t.(links := t.links + multiset{LinkRow(Some(h.id), Some(d.did))})
    ensures Says(t', Learn(f, InsertLink(h.name, d.data)))
  {
    NewLinkPairs(t, t', h, d, f.links);
    SaysLinks(t, t', f, f.links + {(h.name, d.data)});
  }

  lemma SaysLinks(t: Tables, t': Tables, f: Facts, pairs: set<(string, string)>)
    requires Says(t, f) && t' == t.(links := t'.links) && LinksAre(t'.hosts, t'.data, t'.links, pairs)
    ensures Says(t', f.(links := pairs))
  {
  }

  lemma LinkedRows(host: string, data: string, t: Tables, t': Tables) returns (h: NamedRow, d: DataRow)
    requires Exec(InsertLink(host, data), t, t') && Named(t.hosts, host) && Stored(t.data, data)
    ensures h in t.hosts && h.name == host && d in t.data && d.data == data
    ensures var link := LinkRow(Some(h.id), Some(d.did));
            t' == if link in t.links then t else t.(links := t.links + multiset{link})
  {
    var hid, did :| SelectsNamed(t.hosts, host, hid) && SelectsData(t.data, data, did)
        && t' == if LinkExists(t.links, hid, did) then t else t.(links := t.links + multiset{LinkRow(hid, did)});
    h := NamedRow(hid.value, host);
    d :| d in t.data && d.did == did.value && d.data == data;
  }

  lemma LinkRows(h: NamedRow, d: DataRow, t: Tables, t': Tables, f: Facts)
    requires Integrity(t) && Says(t, f) && h in t.hosts && d in t.data
    requires var link := LinkRow(Some(h.id), Some(d.did));
             t' == if link in t.links then t else t.(links := t.links + multiset{link})
    ensures Integrity(t') && Says(t', Learn(f, InsertLink(h.name, d.data)))
  {
    var link := LinkRow(Some(h.id), Some(d.did));
    if link in t.links {
      assert Carries(t.hosts, t.data, t.links, h.name, d.data);
      assert f.links + {(h.name, d.data)} == f.links;
    } else {
      assert HasId(t.hosts, link.host) && HasDid(t.data, link.did);
      NewLinkIntegrity(t, t', link);
      NewLinkSays(t, t', h, d, f);
    }
  }

  lemma ExecLink(host: string, data: string, t: Tables, t': Tables, f: Facts)
    requires Integrity(t) && Says(t, f) && Exec(InsertLink(host, data), t, t')
    requires host in f.hosts && data in f.owner
    ensures Integrity(t') && Says(t', Learn(f, InsertLink(host, data)))
  {
    assert Named(t.hosts, host) && Stored(t.data, data);
    var h, d := LinkedRows(host, data, t, t');
    LinkRows(h, d, t, t', f);
  }

  /** One resolved statement: the tables stay sound and say what has been learnt. */
  lemma ExecRefines(s: Statement, t: Tables, t': Tables, f: Facts)
    requires Integrity(t) && Says(t, f) && Exec(s, t, t') && Resolves(f, s)
    ensures Integrity(t') && Says(t', Learn(f, s))
  {
    match s
    case InsertHost(host) => ExecHost(host, t, t', f);
    case InsertExtractor(name) => ExecExtractor(name, t, t', f);
    case InsertData(extractor, data) => ExecData(extractor, data, t, t', f);
    case InsertLink(host, data) => ExecLink(host, data, t, t', f);
  }

  /** Every run of resolved statements keeps the tables sound after every statement, and the
      tables always say exactly what has been learnt so far. */
  lemma {:induction false} RunRefines(statements: seq<Statement>, states: seq<Tables>, f: Facts, i: nat)
    requires IsRun(statements, states) && Integrity(states[0]) && Says(states[0], f)
    requires AllResolve(f, statements) && i <= |statements|
    ensures Integrity(states[i]) && Says(states[i], LearnAll(f, statements[..i]))
  {
    if i > 0 {
      RunRefines(statements, states, f, i - 1);
      assert statements[..i][..i - 1] == statements[..i - 1];
      ExecRefines(statements[i - 1], states[i - 1], states[i], LearnAll(f, statements[..i - 1]));
    }
  }

  lemma EmptySaysNothing()
    ensures Integrity(EMPTY) && Says(EMPTY, NO_FACTS)
  {
  }
}
