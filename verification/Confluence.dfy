/** In which order scripts are imported: when the order does not matter, exactly. */
module Confluence {
  import opened Text
  import opened FirstWins
  import opened Store
  import opened History

  // ---------------------------------------------------------------- equal up to numbers

  datatype Renaming = Renaming(hosts: map<int, int>, extractors: map<int, int>, data: map<int, int>)

  ghost predicate Injective(m: map<int, int>) {
    forall i, j | i in m && j in m && m[i] == m[j] :: i == j
  }

  /** m turns one table of names into the other. */
  ghost predicate RenamesNames(m: map<int, int>, rows: set<NamedRow>, rows': set<NamedRow>) {
    && (forall r | r in rows :: r.id in m)
    && (forall r' :: r' in rows' <==> exists r :: r in rows && r' == NamedRow(m[r.id], r.name))
  }

  ghost predicate RenamesData(e: map<int, int>, m: map<int, int>, rows: set<DataRow>, rows': set<DataRow>) {
    && (forall r | r in rows :: r.did in m && r.eid.Some? && r.eid.value in e)
    && (forall r' :: r' in rows' <==> exists r :: r in rows && r' == DataRow(m[r.did], Some(e[r.eid.value]), r.data))
  }

  ghost predicate RenamesLinks(h: map<int, int>, m: map<int, int>, links: multiset<LinkRow>, links': multiset<LinkRow>) {
    && (forall l | l in links :: l.host.Some? && l.host.value in h && l.did.Some? && l.did.value in m)
    && (forall l | l in links :: links'[LinkRow(Some(h[l.host.value]), Some(m[l.did.value]))] == links[l])
    && (forall l' | l' in links' :: exists l :: l in links && l' == LinkRow(Some(h[l.host.value]), Some(m[l.did.value])))
  }

  /** The same four tables up to a renaming of HostID, EID and DID. */
  ghost predicate Renames(n: Renaming, t: Tables, t': Tables) {
    && Injective(n.hosts) && Injective(n.extractors) && Injective(n.data)
    && RenamesNames(n.hosts, t.hosts, t'.hosts)
    && RenamesNames(n.extractors, t.extractors, t'.extractors)
    && RenamesData(n.extractors, n.data, t.data, t'.data)
    && RenamesLinks(n.hosts, n.data, t.links, t'.links)
  }

  ghost predicate Isomorphic(t: Tables, t': Tables) {
    exists n :: Renames(n, t, t')
  }

  // ---------------------------------------------------------------- tables with the same facts

  ghost function IdOf(rows: set<NamedRow>, name: string): (id: int)
    requires Named(rows, name)
    ensures NamedRow(id, name) in rows
  {
    var r :| r in rows && r.name == name;
    r.id
  }

  ghost function DidOf(rows: set<DataRow>, data: string): (did: int)
    requires Stored(rows, data)
    ensures exists r :: r in rows && r.did == did && r.data == data
  {
    var r :| r in rows && r.data == data;
    r.did
  }

  lemma NameRenaming(rows: set<NamedRow>, rows': set<NamedRow>, last: int, last': int, names: set<string>) returns (m: map<int, int>)
    requires KeyedNames(rows, last) && KeyedNames(rows', last') && NamesAre(rows, names) && NamesAre(rows', names)
    ensures forall r, r' | r in rows && r' in rows' && r.name == r'.name :: r.id in m && m[r.id] == r'.id
    ensures Injective(m) && RenamesNames(m, rows, rows')
  {
    m := NameMap(rows, rows', last', names);
    NameRenamingInjective(rows, rows', last', m);
    NamesRenamed(m, rows, rows', names);
  }

  lemma NameMap(rows: set<NamedRow>, rows': set<NamedRow>, last': int, names: set<string>) returns (m: map<int, int>)
    requires KeyedNames(rows', last') && NamesAre(rows, names) && NamesAre(rows', names)
    requires forall r, s | r in rows && s in rows && r.id == s.id :: r == s
    ensures forall r, r' | r in rows && r' in rows' && r.name == r'.name :: r.id in m && m[r.id] == r'.id
    ensures forall i | i in m :: exists r :: r in rows && r.id == i && NamedRow(m[i], r.name) in rows'
  {
    assert forall r | r in rows :: Named(rows, r.name);
    m := map r | r in rows :: r.id := IdOf(rows', r.name);
    forall r, r' | r in rows && r' in rows' && r.name == r'.name ensures r.id in m && m[r.id] == r'.id {
      OneId(rows', last', r');
    }
  }

  lemma OneId(rows: set<NamedRow>, last: int, r: NamedRow)
    requires KeyedNames(rows, last) && r in rows
    ensures Named(rows, r.name) && IdOf(rows, r.name) == r.id
  {
    assert Named(rows, r.name);
    assert NamedRow(IdOf(rows, r.name), r.name) == r;
  }

  lemma NameRenamingInjective(rows: set<NamedRow>, rows': set<NamedRow>, last': int, m: map<int, int>)
    requires KeyedNames(rows', last')
    requires forall i | i in m :: exists r :: r in rows && r.id == i && NamedRow(m[i], r.name) in rows'
    requires forall r, s | r in rows && s in rows && r.name == s.name :: r == s
    ensures Injective(m)
  {
    forall i, j | i in m && j in m && m[i] == m[j] ensures i == j {
      var r :| r in rows && r.id == i && NamedRow(m[i], r.name) in rows';
      var s :| s in rows && s.id == j && NamedRow(m[j], s.name) in rows';
      assert NamedRow(m[i], r.name) == NamedRow(m[j], s.name);
    }
  }

  lemma NamesRenamed(m: map<int, int>, rows: set<NamedRow>, rows': set<NamedRow>, names: set<string>)
    requires NamesAre(rows, names) && NamesAre(rows', names)
    requires forall r, r' | r in rows && r' in rows' && r.name == r'.name :: r.id in m && m[r.id] == r'.id
    ensures RenamesNames(m, rows, rows')
  {
    forall r | r in rows ensures r.id in m && NamedRow(m[r.id], r.name) in rows' {
      assert Named(rows, r.name) && Named(rows', r.name);
      var r' :| r' in rows' && r'.name == r.name;
    }
    forall r' | r' in rows' ensures exists r :: r in rows && r' == NamedRow(m[r.id], r.name) {
      assert Named(rows', r'.name) && Named(rows, r'.name);
      var r :| r in rows && r.name == r'.name;
    }
  }

  lemma DataRenaming(rows: set<DataRow>, rows': set<DataRow>, last: int, last': int) returns (m: map<int, int>)
    requires KeyedData(rows, last) && KeyedData(rows', last') && forall p :: Stored(rows, p) <==> Stored(rows', p)
    ensures forall r, r' | r in rows && r' in rows' && r.data == r'.data :: r.did in m && m[r.did] == r'.did
    ensures forall r | r in rows :: r.did in m
    ensures Injective(m)
  {
    assert forall r | r in rows :: Stored(rows, r.data);
    m := DataMap(rows, rows', last);
    forall r, r' | r in rows && r' in rows' && r.data == r'.data ensures r.did in m && m[r.did] == r'.did {
      OneDid(rows', last', r');
    }
    forall i | i in m ensures exists r, r' :: r in rows && r.did == i && r' in rows' && r'.did == m[i] && r'.data == r.data {
      var r :| r in rows && r.did == i && Stored(rows', r.data) && m[i] == DidOf(rows', r.data);
      var r' :| r' in rows' && r'.did == m[i] && r'.data == r.data;
    }
    DataRenamingInjective(rows, rows', last', m);
  }

  lemma DataMap(rows: set<DataRow>, rows': set<DataRow>, last: int) returns (m: map<int, int>)
    requires KeyedData(rows, last) && forall r | r in rows :: Stored(rows', r.data)
    ensures forall r | r in rows :: r.did in m && m[r.did] == DidOf(rows', r.data)
    ensures forall i | i in m :: exists r :: r in rows && r.did == i && Stored(rows', r.data) && m[i] == DidOf(rows', r.data)
  {
    m := map r | r in rows :: r.did := DidOf(rows', r.data);
  }

  lemma OneDid(rows: set<DataRow>, last: int, r: DataRow)
    requires KeyedData(rows, last) && r in rows
    ensures Stored(rows, r.data) && DidOf(rows, r.data) == r.did
  {
    assert Stored(rows, r.data);
    var s :| s in rows && s.did == DidOf(rows, r.data) && s.data == r.data;
    assert s == r;
  }

  lemma DataRenamingInjective(rows: set<DataRow>, rows': set<DataRow>, last': int, m: map<int, int>)
    requires KeyedData(rows', last') && forall r, s | r in rows && s in rows && r.data == s.data :: r == s
    requires forall i | i in m :: exists r, r' :: r in rows && r.did == i && r' in rows' && r'.did == m[i] && r'.data == r.data
    ensures Injective(m)
  {
    forall i, j | i in m && j in m && m[i] == m[j] ensures i == j {
      var r, r' :| r in rows && r.did == i && r' in rows' && r'.did == m[i] && r'.data == r.data;
      var s, s' :| s in rows && s.did == j && s' in rows' && s'.did == m[j] && s'.data == s.data;
      assert r' == s';
    }
  }

  /** Where a payload is filed, in two stores with the same facts. */
  lemma SameFiling(t: Tables, t': Tables, f: Facts, r: DataRow) returns (e: NamedRow, r': DataRow, e': NamedRow)
    requires Integrity(t) && Integrity(t') && Says(t, f) && Says(t', f) && r in t.data
    ensures e in t.extractors && r.eid == Some(e.id)
    ensures r' in t'.data && e' in t'.extractors && r'.data == r.data && e'.name == e.name && r'.eid == Some(e'.id)
  {
    assert HasId(t.extractors, r.eid);
    e :| e in t.extractors && e.id == r.eid.value;
    assert Filed(t.data, t.extractors, r.data, e.name);
    assert Filed(t'.data, t'.extractors, r.data, e.name);
    r', e' :| r' in t'.data && e' in t'.extractors && r'.data == r.data && e'.name == e.name && r'.eid == Some(e'.id);
  }

  lemma SameLinking(t: Tables, t': Tables, f: Facts, l: LinkRow) returns (h: NamedRow, d: DataRow, h': NamedRow, d': DataRow)
    requires Integrity(t) && Integrity(t') && Says(t, f) && Says(t', f) && l in t.links
    ensures h in t.hosts && d in t.data && l == LinkRow(Some(h.id), Some(d.did))
    ensures h' in t'.hosts && d' in t'.data && h'.name == h.name && d'.data == d.data
    ensures LinkRow(Some(h'.id), Some(d'.did)) in t'.links
  {
    h :| h in t.hosts && h.id == l.host.value;
    d :| d in t.data && d.did == l.did.value;
    assert Carries(t.hosts, t.data, t.links, h.name, d.data);
    assert Carries(t'.hosts, t'.data, t'.links, h.name, d.data);
    h', d' :| h' in t'.hosts && d' in t'.data && h'.name == h.name && d'.data == d.data
              && LinkRow(Some(h'.id), Some(d'.did)) in t'.links;
  }

  lemma DataRenamed(t: Tables, t': Tables, f: Facts, e: map<int, int>, m: map<int, int>)
    requires Integrity(t) && Integrity(t') && Says(t, f) && Says(t', f)
    requires forall r, r' | r in t.extractors && r' in t'.extractors && r.name == r'.name :: r.id in e && e[r.id] == r'.id
    requires forall r, r' | r in t.data && r' in t'.data && r.data == r'.data :: r.did in m && m[r.did] == r'.did
    ensures RenamesData(e, m, t.data, t'.data)
  {
    forall r | r in t.data
      ensures r.did in m && r.eid.Some? && r.eid.value in e && DataRow(m[r.did], Some(e[r.eid.value]), r.data) in t'.data
    {
      var x, r', x' := SameFiling(t, t', f, r);
      assert r' == DataRow(m[r.did], Some(e[r.eid.value]), r.data);
    }
    forall r' | r' in t'.data
      ensures exists r :: r in t.data && r' == DataRow(m[r.did], Some(e[r.eid.value]), r.data)
    {
      var x', r, x := SameFiling(t', t, f, r');
      assert r' == DataRow(m[r.did], Some(e[r.eid.value]), r.data);
    }
  }

  lemma LinksRenamed(t: Tables, t': Tables, f: Facts, h: map<int, int>, m: map<int, int>)
    requires Integrity(t) && Integrity(t') && Says(t, f) && Says(t', f)
    requires forall r, r' | r in t.hosts && r' in t'.hosts && r.name == r'.name :: r.id in h && h[r.id] == r'.id
    requires forall r, r' | r in t.data && r' in t'.data && r.data == r'.data :: r.did in m && m[r.did] == r'.did
    ensures RenamesLinks(h, m, t.links, t'.links)
  {
    forall l | l in t.links
      ensures l.host.Some? && l.host.value in h && l.did.Some? && l.did.value in m
      ensures t'.links[LinkRow(Some(h[l.host.value]), Some(m[l.did.value]))] == t.links[l]
    {
      var x, d, x', d' := SameLinking(t, t', f, l);
    }
    forall l' | l' in t'.links
      ensures exists l :: l in t.links && l' == LinkRow(Some(h[l.host.value]), Some(m[l.did.value]))
    {
      var x', d', x, d := SameLinking(t', t, f, l');
      assert l' == LinkRow(Some(h[x.id]), Some(m[d.did]));
    }
  }

  lemma SameFactsIsomorphic(t: Tables, t': Tables, f: Facts)
    requires Integrity(t) && Integrity(t') && Says(t, f) && Says(t', f)
    ensures Isomorphic(t, t')
  {
    var h := NameRenaming(t.hosts, t'.hosts, t.hostSeq, t'.hostSeq, f.hosts);
    var e := NameRenaming(t.extractors, t'.extractors, t.extractorSeq, t'.extractorSeq, f.extractors);
    var m := DataRenaming(t.data, t'.data, t.dataSeq, t'.dataSeq);
    DataRenamed(t, t', f, e, m);
    LinksRenamed(t, t', f, h, m);
    assert Renames(Renaming(h, e, m), t, t');
  }

  // ---------------------------------------------------------------- isomorphic tables

  lemma RenamedNames(m: map<int, int>, rows: set<NamedRow>, rows': set<NamedRow>, names: set<string>, names': set<string>)
    requires RenamesNames(m, rows, rows') && NamesAre(rows, names) && NamesAre(rows', names')
    ensures names == names'
  {
    forall n ensures n in names <==> n in names' {
      if Named(rows, n) {
        var r :| r in rows && r.name == n;
        assert NamedRow(m[r.id], r.name) in rows';
      }
    }
  }

  lemma RenamedFiling(n: Renaming, t: Tables, t': Tables, p: string, x: string)
    requires Integrity(t) && Renames(n, t, t')
    ensures Filed(t.data, t.extractors, p, x) <==> Filed(t'.data, t'.extractors, p, x)
    ensures Stored(t.data, p) <==> Stored(t'.data, p)
  {
    if Filed(t.data, t.extractors, p, x) {
      var d, e :| d in t.data && e in t.extractors && d.data == p && e.name == x && d.eid == Some(e.id);
      assert DataRow(n.data[d.did], Some(n.extractors[e.id]), p) in t'.data;
      assert NamedRow(n.extractors[e.id], x) in t'.extractors;
    }
    if Filed(t'.data, t'.extractors, p, x) {
      var d', e' :| d' in t'.data && e' in t'.extractors && d'.data == p && e'.name == x && d'.eid == Some(e'.id);
      var d :| d in t.data && d' == DataRow(n.data[d.did], Some(n.extractors[d.eid.value]), d.data);
      var e :| e in t.extractors && e' == NamedRow(n.extractors[e.id], e.name);
      assert d.eid == Some(e.id);
    }
    if Stored(t.data, p) {
      var d :| d in t.data && d.data == p;
      assert DataRow(n.data[d.did], Some(n.extractors[d.eid.value]), p) in t'.data;
    }
  }

  lemma RenamedLinking(n: Renaming, t: Tables, t': Tables, h: string, p: string)
    requires Integrity(t) && Renames(n, t, t')
    ensures Carries(t.hosts, t.data, t.links, h, p) <==> Carries(t'.hosts, t'.data, t'.links, h, p)
  {
    if Carries(t.hosts, t.data, t.links, h, p) {
      LinkingForth(n, t, t', h, p);
    }
    if Carries(t'.hosts, t'.data, t'.links, h, p) {
      LinkingBack(n, t, t', h, p);
    }
  }

  lemma LinkingForth(n: Renaming, t: Tables, t': Tables, h: string, p: string)
    requires Renames(n, t, t') && Carries(t.hosts, t.data, t.links, h, p)
    ensures Carries(t'.hosts, t'.data, t'.links, h, p)
  {
    var r, d :| r in t.hosts && d in t.data && r.name == h && d.data == p && LinkRow(Some(r.id), Some(d.did)) in t.links;
    assert NamedRow(n.hosts[r.id], h) in t'.hosts;
    assert DataRow(n.data[d.did], Some(n.extractors[d.eid.value]), p) in t'.data;
    var l := LinkRow(Some(r.id), Some(d.did));
    assert t'.links[LinkRow(Some(n.hosts[r.id]), Some(n.data[d.did]))] == t.links[l];
  }

  lemma LinkingBack(n: Renaming, t: Tables, t': Tables, h: string, p: string)
    requires Integrity(t) && Renames(n, t, t') && Carries(t'.hosts, t'.data, t'.links, h, p)
    ensures Carries(t.hosts, t.data, t.links, h, p)
  {
    var r', d' :| r' in t'.hosts && d' in t'.data && r'.name == h && d'.data == p
                  && LinkRow(Some(r'.id), Some(d'.did)) in t'.links;
    var r :| r in t.hosts && r' == NamedRow(n.hosts[r.id], r.name);
    var d :| d in t.data && d' == DataRow(n.data[d.did], Some(n.extractors[d.eid.value]), d.data);
    LinkBack(n.hosts, n.data, t.links, t'.links, r.id, d.did);
  }

  lemma LinkBack(h: map<int, int>, m: map<int, int>, links: multiset<LinkRow>, links': multiset<LinkRow>, hid: int, did: int)
    requires RenamesLinks(h, m, links, links') && Injective(h) && Injective(m) && hid in h && did in m
    requires LinkRow(Some(h[hid]), Some(m[did])) in links'
    ensures LinkRow(Some(hid), Some(did)) in links
  {
    var l :| l in links && LinkRow(Some(h[hid]), Some(m[did])) == LinkRow(Some(h[l.host.value]), Some(m[l.did.value]));
    assert h[hid] == h[l.host.value];
    assert m[did] == m[l.did.value];
    assert l.host.value == hid && l.did.value == did;
  }

  lemma SameOwners(n: Renaming, t: Tables, t': Tables, owner: map<string, string>, owner': map<string, string>)
    requires Integrity(t) && Renames(n, t, t')
    requires OwnersAre(t.data, t.extractors, owner) && OwnersAre(t'.data, t'.extractors, owner')
    ensures owner == owner'
  {
    forall p ensures Get(owner, p) == Get(owner', p) {
      RenamedFiling(n, t, t', p, if p in owner then owner[p] else []);
    }
    SameMap(owner, owner');
  }

  lemma SameMap(m: map<string, string>, m': map<string, string>)
    requires forall p :: Get(m, p) == Get(m', p)
    ensures m == m'
  {
    forall p ensures (p in m <==> p in m') && (p in m ==> m[p] == m'[p]) {
      assert Get(m, p) == Get(m', p);
    }
  }

  lemma IsomorphicSameFacts(t: Tables, t': Tables, f: Facts, f': Facts)
    requires Integrity(t) && Integrity(t') && Says(t, f) && Says(t', f') && Isomorphic(t, t')
    ensures f == f'
  {
    var n :| Renames(n, t, t');
    RenamedNames(n.hosts, t.hosts, t'.hosts, f.hosts, f'.hosts);
    RenamedNames(n.extractors, t.extractors, t'.extractors, f.extractors, f'.extractors);
    SameOwners(n, t, t', f.owner, f'.owner);
    SameLinks(n, t, t', f.links, f'.links);
  }

  lemma SameLinks(n: Renaming, t: Tables, t': Tables, pairs: set<(string, string)>, pairs': set<(string, string)>)
    requires Integrity(t) && Renames(n, t, t')
    requires LinksAre(t.hosts, t.data, t.links, pairs) && LinksAre(t'.hosts, t'.data, t'.links, pairs')
    ensures pairs == pairs'
  {
    forall pair ensures pair in pairs <==> pair in pairs' {
      RenamedLinking(n, t, t', pair.0, pair.1);
      assert pair == (pair.0, pair.1);
    }
  }

  /** Two imports end in the same tables up to numbers exactly when their scripts amount to the
      same account. */
  lemma IsomorphicIff(history: seq<Script>, states: seq<Tables>, history': seq<Script>, states': seq<Tables>)
    requires IsImport(history, states) && IsImport(history', states')
    ensures Isomorphic(Final(states), Final(states')) <==> Account(history) == Account(history')
  {
    ImportSaysAccount(history, states);
    ImportSaysAccount(history', states');
    if Account(history) == Account(history') {
      SameFactsIsomorphic(Final(states), Final(states'), Account(history));
    }
    if Isomorphic(Final(states), Final(states')) {
      IsomorphicSameFacts(Final(states), Final(states'), Account(history), Account(history'));
    }
  }

  // ---------------------------------------------------------------- permuting the scripts

  /** The name under which this script alone would file the payload. */
  function FirstIn(s: Script, payload: string): Option<string> {
    FirstOf(Entries(s), payload)
  }

  /** All scripts that carry a payload would file it under the same name. */
  ghost predicate Unambiguous(history: seq<Script>) {
    forall s, s', p | s in history && s' in history && FirstIn(s, p).Some? && FirstIn(s', p).Some? ::
      FirstIn(s, p) == FirstIn(s', p)
  }

  ghost predicate Permuted(history: seq<Script>, history': seq<Script>) {
    multiset(history) == multiset(history')
  }

  lemma FirstWriterOfMore(history: seq<Script>, s: Script, p: string)
    ensures FirstWriter(history + [s], p)
         == if FirstWriter(history, p).Some? then FirstWriter(history, p) else FirstIn(s, p)
  {
    assert (history + [s])[..|history|] == history;
    FirstOfAppend(AllEntries(history), Entries(s), p);
  }

  lemma {:induction false} FirstWriterAmong(history: seq<Script>, p: string)
    ensures FirstWriter(history, p).None? <==> forall s | s in history :: FirstIn(s, p).None?
    ensures FirstWriter(history, p).Some? ==> exists s :: s in history && FirstIn(s, p) == FirstWriter(history, p)
  {
    if history != [] {
      var before, s := history[..|history| - 1], history[|history| - 1];
      assert history == before + [s];
      FirstWriterAmong(before, p);
      FirstWriterOfMore(before, s, p);
    }
  }

  lemma {:induction false} FirstWriterOfFirst(s: Script, rest: seq<Script>, p: string)
    requires FirstIn(s, p).Some?
    ensures FirstWriter([s] + rest, p) == FirstIn(s, p)
  {
    if rest == [] {
      assert [s] + rest == [] + [s];
      FirstWriterOfMore([], s, p);
    } else {
      var n := |rest| - 1;
      assert [s] + rest == ([s] + rest[..n]) + [rest[n]];
      FirstWriterOfFirst(s, rest[..n], p);
      FirstWriterOfMore([s] + rest[..n], rest[n], p);
    }
  }

  lemma SameScripts(history: seq<Script>, history': seq<Script>)
    requires Permuted(history, history')
    ensures forall s :: s in history <==> s in history'
  {
    forall s ensures s in history <==> s in history' {
      assert s in multiset(history) <==> s in multiset(history');
    }
  }

  /** With unambiguous payloads every permutation of the scripts amounts to the same account. */
  lemma UnambiguousAccount(history: seq<Script>, history': seq<Script>)
    requires Permuted(history, history') && Unambiguous(history)
    ensures Account(history) == Account(history')
  {
    SameScripts(history, history');
    assert Hosts(history) == Hosts(history');
    assert Extractors(history) == Extractors(history');
    assert Carried(history) == Carried(history');
    forall p ensures Get(Account(history).owner, p) == Get(Account(history').owner, p) {
      FirstWriterAmong(history, p);
      FirstWriterAmong(history', p);
      OwnerIsFirstWriter(history, p);
      OwnerIsFirstWriter(history', p);
    }
    SameMap(Account(history).owner, Account(history').owner);
  }

  lemma {:induction false} MoveToFront(history: seq<Script>, s: Script) returns (history': seq<Script>)
    requires s in history
    ensures Permuted(history, history') && history' != [] && history'[0] == s
  {
    var i :| 0 <= i < |history| && history[i] == s;
    var rest := history[..i] + history[i + 1..];
    history' := [s] + rest;
    assert history == history[..i] + ([s] + history[i + 1..]);
  }

  /** With an ambiguous payload some permutation files it elsewhere. */
  lemma AmbiguousAccount(history: seq<Script>) returns (history': seq<Script>)
    requires !Unambiguous(history)
    ensures Permuted(history, history') && Account(history) != Account(history')
  {
    var s, s', p :| s in history && s' in history && FirstIn(s, p).Some? && FirstIn(s', p).Some?
                    && FirstIn(s, p) != FirstIn(s', p);
    var x := if FirstWriter(history, p) == FirstIn(s, p) then s' else s;
    history' := MoveToFront(history, x);
    assert history' == [x] + history'[1..];
    FirstWriterOfFirst(x, history'[1..], p);
    OwnerIsFirstWriter(history, p);
    OwnerIsFirstWriter(history', p);
  }

  /** The order of the scripts is irrelevant if and only if no payload is ambiguous. */
  lemma OrderIrrelevantIff(history: seq<Script>)
    ensures Unambiguous(history)
       <==> forall history' | Permuted(history, history') :: Account(history) == Account(history')
  {
    if Unambiguous(history) {
      forall history' | Permuted(history, history') ensures Account(history) == Account(history') {
        UnambiguousAccount(history, history');
      }
    } else {
      var history' := AmbiguousAccount(history);
    }
  }

  /** In terms of tables: importing unambiguous scripts in another order gives the same four
      tables up to a renaming of the numbers. */
  lemma PermutedImports(history: seq<Script>, states: seq<Tables>, history': seq<Script>, states': seq<Tables>)
    requires IsImport(history, states) && IsImport(history', states')
    requires Permuted(history, history') && Unambiguous(history)
    ensures Isomorphic(Final(states), Final(states'))
  {
    UnambiguousAccount(history, history');
    IsomorphicIff(history, states, history', states');
  }

  /** Every statement can be executed on any tables, so every list of scripts can be imported. */
  lemma Executable(s: Statement, t: Tables) returns (t': Tables)
    ensures Exec(s, t, t')
  {
    match s
    case InsertHost(name) =>
      t' := t.(hostSeq := t.hostSeq + 1,
               hosts := if Named(t.hosts, name) then t.hosts else t.hosts + {NamedRow(t.hostSeq + 1, name)});
    case InsertExtractor(name) =>
      t' := t.(extractorSeq := t.extractorSeq + 1,
               extractors := if Named(t.extractors, name) then t.extractors
                             else t.extractors + {NamedRow(t.extractorSeq + 1, name)});
    case InsertData(extractor, data) =>
      var eid := if Named(t.extractors, extractor) then Some(IdOf(t.extractors, extractor)) else None;
      assert SelectsNamed(t.extractors, extractor, eid);
      t' := t.(dataSeq := t.dataSeq + 1,
               data := if Stored(t.data, data) then t.data else t.data + {DataRow(t.dataSeq + 1, eid, data)});
    case InsertLink(host, data) =>
      var hid := if Named(t.hosts, host) then Some(IdOf(t.hosts, host)) else None;
      var did := if Stored(t.data, data) then Some(DidOf(t.data, data)) else None;
      assert SelectsNamed(t.hosts, host, hid) && SelectsData(t.data, data, did);
      t' := if LinkExists(t.links, hid, did) then t else t.(links := t.links + multiset{LinkRow(hid, did)});
  }

  lemma {:induction false} RunExists(statements: seq<Statement>, t: Tables) returns (states: seq<Tables>)
    ensures IsRun(statements, states) && states[0] == t
  {
    if statements == [] {
      states := [t];
    } else {
      var n := |statements| - 1;
      var before := RunExists(statements[..n], t);
      var t' := Executable(statements[n], before[n]);
      states := before + [t'];
    }
  }

  /** And some order of ambiguous scripts gives tables that no renaming makes equal. */
  lemma AmbiguousImports(history: seq<Script>, states: seq<Tables>) returns (history': seq<Script>)
    requires IsImport(history, states) && !Unambiguous(history)
    ensures Permuted(history, history') && exists states' :: IsImport(history', states')
    ensures forall states' | IsImport(history', states') :: !Isomorphic(Final(states), Final(states'))
  {
    history' := AmbiguousAccount(history);
    SameScripts(history, history');
    var run := RunExists(AllStatements(history'), EMPTY);
    assert IsImport(history', run);
    forall states' | IsImport(history', states') ensures !Isomorphic(Final(states), Final(states')) {
      IsomorphicIff(history, states, history', states');
    }
  }
}
