/** The SQLite database as sysmap uses it: the import of scripts and the queries of sysquery. */
module Database {
  import opened Text
  import opened Store
  import opened Query
  import H = History

  /** What queryToJSON tells the writer; RawValue passes a stored payload through unchanged. */
  datatype Output = StartObject | EndObject | Key(key: string) | RawValue(json: string)

  function EntryOutput(e: Entry): seq<Output> {
    [Key(CStr(e.extractor)), RawValue(e.data)]
  }

  function EntriesOutput(entries: seq<Entry>): seq<Output> {
    if entries == [] then [] else EntriesOutput(entries[..|entries| - 1]) + EntryOutput(entries[|entries| - 1])
  }

  function HostOutput(a: HostAnswer): seq<Output> {
    [Key(CStr(a.host)), StartObject] + EntriesOutput(a.entries) + [EndObject]
  }

  function HostsOutput(answer: seq<HostAnswer>): seq<Output> {
    if answer == [] then [] else HostsOutput(answer[..|answer| - 1]) + HostOutput(answer[|answer| - 1])
  }

  function AnswerOutput(answer: seq<HostAnswer>): seq<Output> {
    [StartObject] + HostsOutput(answer) + [EndObject]
  }

  // ---------------------------------------------------------------- the output tells the answer

  /** No name in the answer has a NUL. */
  predicate NulFree(answer: seq<HostAnswer>) {
    forall i | 0 <= i < |answer| :: HostNulFree(answer[i])
  }

  predicate HostNulFree(a: HostAnswer) {
    '\0' !in a.host && forall i | 0 <= i < |a.entries| :: '\0' !in a.entries[i].extractor
  }

  /** Reading an object's entries backwards ends at its start, and only there. */
  lemma {:induction false} EntriesDiffer(p: seq<Output>, e: seq<Entry>, q: seq<Output>, e': seq<Entry>)
    requires p + [StartObject] + EntriesOutput(e) == q + [StartObject] + EntriesOutput(e')
    requires forall i | 0 <= i < |e| :: '\0' !in e[i].extractor
    requires forall i | 0 <= i < |e'| :: '\0' !in e'[i].extractor
    ensures p == q && e == e'
    decreases |e|
  {
    var left, right := p + [StartObject], q + [StartObject];
    if e == [] || e' == [] {
      LastOutput(left, e);
      LastOutput(right, e');
      assert left + [] == left && right + [] == right;
      assert left[..|p|] == p && right[..|q|] == q;
    } else {
      var d, x, d', x' := e[..|e| - 1], e[|e| - 1], e'[..|e'| - 1], e'[|e'| - 1];
      Associative(left, EntriesOutput(d), EntryOutput(x));
      Associative(right, EntriesOutput(d'), EntryOutput(x'));
      SameEnds(left + EntriesOutput(d), EntryOutput(x), right + EntriesOutput(d'), EntryOutput(x'));
      CStrKeeps(x.extractor);
      CStrKeeps(x'.extractor);
      assert EntryOutput(x)[0] == EntryOutput(x')[0] && EntryOutput(x)[1] == EntryOutput(x')[1];
      EntriesDiffer(p, d, q, d');
      assert e == d + [x] && e' == d' + [x'];
    }
  }

  lemma SameEnds<T>(a: seq<T>, x: seq<T>, b: seq<T>, y: seq<T>)
    requires a + x == b + y && |x| == |y|
    ensures a == b && x == y
  {
    TakeDrop(a, x);
    TakeDrop(b, y);
    assert |a| == |b|;
  }

  /** After the start of an object the last event is a payload, or there is no entry. */
  lemma LastOutput(left: seq<Output>, e: seq<Entry>)
    requires left != [] && left[|left| - 1] == StartObject
    ensures var all := left + EntriesOutput(e);
            all != [] && if e == [] then all[|all| - 1] == StartObject else all[|all| - 1].RawValue?
  {
  }

  lemma HostsDiffer(p: seq<Output>, a: HostAnswer, q: seq<Output>, b: HostAnswer)
    requires p + HostOutput(a) == q + HostOutput(b) && HostNulFree(a) && HostNulFree(b)
    ensures p == q && a == b
  {
    var left, right := p + [Key(CStr(a.host))], q + [Key(CStr(b.host))];
    HostPartsOf(p, a);
    HostPartsOf(q, b);
    SameEnds(left + [StartObject] + EntriesOutput(a.entries), [EndObject],
             right + [StartObject] + EntriesOutput(b.entries), [EndObject]);
    EntriesDiffer(left, a.entries, right, b.entries);
    SameEnds(p, [Key(CStr(a.host))], q, [Key(CStr(b.host))]);
    CStrKeeps(a.host);
    CStrKeeps(b.host);
    assert [Key(a.host)][0] == [Key(b.host)][0];
  }

  lemma HostPartsOf(p: seq<Output>, a: HostAnswer)
    ensures p + HostOutput(a) == p + [Key(CStr(a.host))] + [StartObject] + EntriesOutput(a.entries) + [EndObject]
  {
    var head, body := [Key(CStr(a.host)), StartObject], EntriesOutput(a.entries);
    assert head == [Key(CStr(a.host))] + [StartObject];
    Associative(p, [Key(CStr(a.host))], [StartObject]);
    Associative(p, head, body);
    Associative(p, head + body, [EndObject]);
  }

  lemma {:induction false} HostsOutputDiffer(a: seq<HostAnswer>, b: seq<HostAnswer>)
    requires NulFree(a) && NulFree(b) && HostsOutput(a) == HostsOutput(b)
    ensures a == b
    decreases |a|
  {
    if a != [] && b != [] {
      var m, n := |a| - 1, |b| - 1;
      HostsDiffer(HostsOutput(a[..m]), a[m], HostsOutput(b[..n]), b[n]);
      HostsOutputDiffer(a[..m], b[..n]);
      assert a == a[..m] + [a[m]] && b == b[..n] + [b[n]];
    }
  }

  /** What is written determines the answer: no two answers look the same. */
  lemma OutputTellsAnswer(a: seq<HostAnswer>, b: seq<HostAnswer>)
    requires NulFree(a) && NulFree(b)
    ensures AnswerOutput(a) == AnswerOutput(b) <==> a == b
  {
    if AnswerOutput(a) == AnswerOutput(b) {
      SameEnds([StartObject] + HostsOutput(a), [EndObject], [StartObject] + HostsOutput(b), [EndObject]);
      TakeDrop([StartObject], HostsOutput(a));
      TakeDrop([StartObject], HostsOutput(b));
      HostsOutputDiffer(a, b);
    }
  }

  // ---------------------------------------------------------------- the output, place by place

  /** From place a on: the host's name, an opening brace, for each entry the extractor's name as key
      and then the stored payload as raw value, and a closing brace. */
  predicate ShowsHost(output: seq<Output>, a: nat, h: HostAnswer) {
    && a + 3 + 2 * |h.entries| <= |output|
    && output[a] == Key(CStr(h.host)) && output[a + 1] == StartObject && output[a + 2 + 2 * |h.entries|] == EndObject
    && forall k | 0 <= k < |h.entries| :: PairIs(output, a + 2 + 2 * k, CStr(h.entries[k].extractor), h.entries[k].data)
  }

  /** At place k the name n is directly followed by the payload p. */
  predicate PairIs(output: seq<Output>, k: nat, n: string, p: string) {
    k + 1 < |output| && output[k] == Key(n) && output[k + 1] == RawValue(p)
  }

  /** The i-th object begins at place at[i] and ends where the next one begins. */
  predicate HostAt(output: seq<Output>, answer: seq<HostAnswer>, at: seq<nat>, i: nat) {
    && i < |answer| && i + 1 < |at| && at[i + 1] == at[i] + 3 + 2 * |answer[i].entries|
    && ShowsHost(output, at[i], answer[i])
  }

  predicate HostsAt(output: seq<Output>, answer: seq<HostAnswer>, at: seq<nat>) {
    && |at| == |answer| + 1 && at[0] == 1
    && output != [] && output[0] == StartObject
    && forall i | 0 <= i < |answer| :: HostAt(output, answer, at, i)
  }

  /** The output is one object with the objects of the hosts one behind the other. */
  ghost predicate Shows(output: seq<Output>, answer: seq<HostAnswer>) {
    && output != [] && output[|output| - 1] == EndObject
    && exists at: seq<nat> :: HostsAt(output, answer, at) && at[|answer|] + 1 == |output|
  }

  lemma {:induction false} EntriesPlaced(entries: seq<Entry>)
    ensures |EntriesOutput(entries)| == 2 * |entries|
    ensures forall k | 0 <= k < |entries| :: PairIs(EntriesOutput(entries), 2 * k, CStr(entries[k].extractor), entries[k].data)
  {
    if entries != [] {
      EntriesPlaced(entries[..|entries| - 1]);
    }
  }

  lemma PairShift(before: seq<Output>, own: seq<Output>, k: nat, n: string, p: string)
    requires PairIs(own, k, n, p)
    ensures PairIs(before + own, |before| + k, n, p)
  {
    assert (before + own)[|before| + k] == own[k] && (before + own)[|before| + k + 1] == own[k + 1];
  }

  lemma PairStays(own: seq<Output>, more: seq<Output>, k: nat, n: string, p: string)
    requires PairIs(own, k, n, p)
    ensures PairIs(own + more, k, n, p)
  {
  }

  lemma HostPlaced(before: seq<Output>, h: HostAnswer)
    ensures ShowsHost(before + HostOutput(h), |before|, h) && |HostOutput(h)| == 3 + 2 * |h.entries|
  {
    EntriesPlaced(h.entries);
    var head, inner, a := [Key(CStr(h.host)), StartObject], EntriesOutput(h.entries), |before|;
    var all := before + HostOutput(h);
    assert all[a] == head[0] && all[a + 1] == head[1] && all[a + 2 + |inner|] == EndObject;
    forall k | 0 <= k < |h.entries| ensures PairIs(all, a + 2 + 2 * k, CStr(h.entries[k].extractor), h.entries[k].data) {
      var (n, p) := (CStr(h.entries[k].extractor), h.entries[k].data);
      PairShift(head, inner, 2 * k, n, p);
      PairStays(head + inner, [EndObject], 2 + 2 * k, n, p);
      PairShift(before, HostOutput(h), 2 + 2 * k, n, p);
    }
  }

  lemma ShownStays(output: seq<Output>, more: seq<Output>, a: nat, h: HostAnswer)
    requires ShowsHost(output, a, h)
    ensures ShowsHost(output + more, a, h)
  {
    forall k | 0 <= k < |h.entries|
      ensures PairIs(output + more, a + 2 + 2 * k, CStr(h.entries[k].extractor), h.entries[k].data)
    {
      PairStays(output, more, a + 2 + 2 * k, CStr(h.entries[k].extractor), h.entries[k].data);
    }
  }

  lemma OneMoreShown(before: seq<Output>, answer: seq<HostAnswer>, at: seq<nat>, h: HostAnswer)
    requires HostsAt(before, answer, at) && at[|answer|] == |before|
    ensures HostsAt(before + HostOutput(h), answer + [h], at + [|before| + 3 + 2 * |h.entries|])
    ensures |before + HostOutput(h)| == |before| + 3 + 2 * |h.entries|
  {
    var all, hosts, at' := before + HostOutput(h), answer + [h], at + [|before| + 3 + 2 * |h.entries|];
    HostPlaced(before, h);
    forall i | 0 <= i < |hosts| ensures HostAt(all, hosts, at', i) {
      if i < |answer| {
        assert HostAt(before, answer, at, i);
        ShownStays(before, HostOutput(h), at[i], answer[i]);
      }
    }
  }

  lemma {:induction false} HostsPlaced(answer: seq<HostAnswer>) returns (at: seq<nat>)
    ensures HostsAt([StartObject] + HostsOutput(answer), answer, at)
    ensures at[|answer|] == |[StartObject] + HostsOutput(answer)|
  {
    if answer == [] {
      at := [1];
    } else {
      var before, h := answer[..|answer| - 1], answer[|answer| - 1];
      var at' := HostsPlaced(before);
      var output := [StartObject] + HostsOutput(before);
      Associative([StartObject], HostsOutput(before), HostOutput(h));
      OneMoreShown(output, before, at', h);
      assert answer == before + [h];
      at := at' + [|output| + 3 + 2 * |h.entries|];
    }
  }

  lemma AnswerShown(answer: seq<HostAnswer>)
    ensures Shows(AnswerOutput(answer), answer)
  {
    var before, output := [StartObject] + HostsOutput(answer), AnswerOutput(answer);
    var at := HostsPlaced(answer);
    forall i | 0 <= i < |answer| ensures HostAt(output, answer, at, i) {
      assert HostAt(before, answer, at, i);
      ShownStays(before, [EndObject], at[i], answer[i]);
    }
    assert HostsAt(output, answer, at);
  }

  // ---------------------------------------------------------------- the output and the facts

  /** One object, and in it for each host, from at[i] to before at[i + 1], its name and an object. */
  predicate Framed(output: seq<Output>, hosts: seq<string>, at: seq<nat>) {
    && |at| == |hosts| + 1 && at[0] == 1 && at[|hosts|] + 1 == |output|
    && output[0] == StartObject && output[|output| - 1] == EndObject
    && forall i | 0 <= i < |hosts| :: FramesHost(output, hosts[i], at[i], at[i + 1])
  }

  predicate FramesHost(output: seq<Output>, host: string, a: nat, b: nat) {
    a + 3 <= b < |output| && output[a] == Key(CStr(host)) && output[a + 1] == StartObject && output[b - 1] == EndObject
  }

  /** Of the places a, a + 2, a + 4 and so on, the first m. */
  predicate PairAt(output: seq<Output>, a: nat, j: nat, n: string, p: string) {
    PairIs(output, a + 2 * j, n, p)
  }

  /** Where the name n is directly followed by the payload p. */
  function Places(output: seq<Output>, a: nat, m: nat, n: string, p: string): set<nat> {
    set j: nat | j < m && PairAt(output, a, j, n, p)
  }

  predicate SomePairAt(output: seq<Output>, a: nat, j: nat) {
    a + 2 * j + 1 < |output| && output[a + 2 * j].Key? && output[a + 2 * j + 1].RawValue?
  }

  /** Between a and b stand m pairs of a key and a raw value and nothing else, and each pair as often
      as its extractor is wanted, if the host holds the payload under it, and not otherwise. */
  ghost predicate PairsAre(output: seq<Output>, a: nat, b: nat, f: Facts, host: string, extractorNames: seq<string>) {
    exists m: nat :: b == a + 2 * m && (forall j | 0 <= j < m :: SomePairAt(output, a, j))
                     && Counted(output, a, m, f, host, extractorNames)
  }

  ghost predicate Counted(output: seq<Output>, a: nat, m: nat, f: Facts, host: string, extractorNames: seq<string>) {
    forall n, p :: |Places(output, a, m, n, p)| == Times(f, host, extractorNames, n, p)
  }

  /** How often the payload is due: as often as its extractor is named, once when none is. */
  function Times(f: Facts, host: string, extractorNames: seq<string>, n: string, p: string): nat {
    if p != [] && (host, p) in f.links && p in f.owner && f.owner[p] == n
    then if extractorNames == [] then 1 else multiset(extractorNames)[n]
    else 0
  }

  /** What is printed, in terms of the facts: exactly the wanted hosts, each once. */
  ghost predicate Prints(output: seq<Output>, f: Facts, hostNames: seq<string>, extractorNames: seq<string>) {
    exists hosts, at :: Framed(output, hosts, at) && PrintsHosts(output, f, hostNames, extractorNames, hosts, at)
  }

  ghost predicate PrintsHosts(output: seq<Output>, f: Facts, hostNames: seq<string>, extractorNames: seq<string>,
                              hosts: seq<string>, at: seq<nat>)
    requires Framed(output, hosts, at)
  {
    && (forall i, j | 0 <= i < j < |hosts| :: hosts[i] != hosts[j])
    && (forall h :: h in hosts <==> h in f.hosts && (hostNames == [] || h in hostNames))
    && forall i | 0 <= i < |hosts| :: PairsAre(output, at[i] + 2, at[i + 1] - 1, f, hosts[i], extractorNames)
  }

  /** Payloads are filed under names without NUL. */
  predicate OwnersPlain(f: Facts) {
    forall p | p in f.owner :: '\0' !in f.owner[p]
  }

  lemma OnePlaceMore(output: seq<Output>, a: nat, m: nat, n: string, p: string)
    ensures |Places(output, a, m + 1, n, p)| == |Places(output, a, m, n, p)| + if PairAt(output, a, m, n, p) then 1 else 0
  {
    var before, after := Places(output, a, m, n, p), Places(output, a, m + 1, n, p);
    assert after == before + if PairAt(output, a, m, n, p) then {m} else {};
    assert m !in before;
  }

  lemma OneEntryMore(entries: seq<Entry>, m: nat, e: Entry)
    requires m < |entries|
    ensures multiset(entries[..m + 1])[e] == multiset(entries[..m])[e] + if entries[m] == e then 1 else 0
  {
    TakeOneMore(entries, m);
  }

  lemma PairIsEntry(output: seq<Output>, a: nat, h: HostAnswer, m: nat, n: string, p: string)
    requires ShowsHost(output, a, h) && m < |h.entries| && '\0' !in h.entries[m].extractor
    ensures PairAt(output, a + 2, m, n, p) <==> h.entries[m] == Entry(n, p)
  {
    var x := h.entries[m];
    CStrKeeps(x.extractor);
    assert PairIs(output, a + 2 + 2 * m, CStr(x.extractor), x.data);
  }

  lemma {:induction false} CountPlaces(output: seq<Output>, a: nat, entries: seq<Entry>, m: nat, n: string, p: string)
    requires m <= |entries|
    requires forall j | 0 <= j < |entries| :: PairAt(output, a, j, n, p) <==> entries[j] == Entry(n, p)
    ensures |Places(output, a, m, n, p)| == multiset(entries[..m])[Entry(n, p)]
  {
    if m == 0 {
      assert Places(output, a, 0, n, p) == {};
    } else {
      CountPlaces(output, a, entries, m - 1, n, p);
      OneEntryMore(entries, m - 1, Entry(n, p));
      OnePlaceMore(output, a, m - 1, n, p);
    }
  }

  lemma ShownExtractors(h: HostAnswer, f: Facts, extractorNames: seq<string>)
    requires EntriesAre(f, extractorNames, h) && OwnersPlain(f)
    ensures forall k | 0 <= k < |h.entries| :: '\0' !in h.entries[k].extractor
  {
    forall k | 0 <= k < |h.entries| ensures '\0' !in h.entries[k].extractor {
      assert h.entries[k] in multiset(h.entries);
      assert Holds(f, h.host, h.entries[k]);
    }
  }

  lemma ShownCounted(output: seq<Output>, a: nat, h: HostAnswer, f: Facts, extractorNames: seq<string>)
    requires ShowsHost(output, a, h) && EntriesAre(f, extractorNames, h) && OwnersPlain(f)
    ensures Counted(output, a + 2, |h.entries|, f, h.host, extractorNames)
  {
    var start := a + 2;
    ShownExtractors(h, f, extractorNames);
    TakeAll(h.entries);
    forall n, p ensures |Places(output, start, |h.entries|, n, p)| == Times(f, h.host, extractorNames, n, p) {
      forall j | 0 <= j < |h.entries| ensures PairAt(output, start, j, n, p) <==> h.entries[j] == Entry(n, p) {
        PairIsEntry(output, a, h, j, n, p);
      }
      CountPlaces(output, start, h.entries, |h.entries|, n, p);
      HeldTimes(f, h, extractorNames, n, p);
    }
  }

  lemma HeldTimes(f: Facts, h: HostAnswer, extractorNames: seq<string>, n: string, p: string)
    requires EntriesAre(f, extractorNames, h)
    ensures multiset(h.entries)[Entry(n, p)] == Times(f, h.host, extractorNames, n, p)
  {
  }

  lemma ShownPairs(output: seq<Output>, a: nat, h: HostAnswer, f: Facts, extractorNames: seq<string>)
    requires ShowsHost(output, a, h) && EntriesAre(f, extractorNames, h) && OwnersPlain(f)
    ensures PairsAre(output, a + 2, a + 2 + 2 * |h.entries|, f, h.host, extractorNames)
  {
    var start, m := a + 2, |h.entries|;
    ShownCounted(output, a, h, f, extractorNames);
    forall j | 0 <= j < m ensures SomePairAt(output, start, j) {
      assert PairIs(output, start + 2 * j, CStr(h.entries[j].extractor), h.entries[j].data);
    }
    assert Counted(output, start, m, f, h.host, extractorNames);
  }

  function HostNames(answer: seq<HostAnswer>): seq<string> {
    seq(|answer|, i requires 0 <= i < |answer| => answer[i].host)
  }

  lemma ShownFramed(output: seq<Output>, answer: seq<HostAnswer>, at: seq<nat>)
    requires HostsAt(output, answer, at) && at[|answer|] + 1 == |output| && output[|output| - 1] == EndObject
    ensures Framed(output, HostNames(answer), at)
  {
    var hosts := HostNames(answer);
    forall i | 0 <= i < |hosts| ensures FramesHost(output, hosts[i], at[i], at[i + 1]) {
      assert HostAt(output, answer, at, i);
      EndsInside(output, answer, at, i + 1);
    }
  }

  lemma {:induction false} EndsInside(output: seq<Output>, answer: seq<HostAnswer>, at: seq<nat>, i: nat)
    requires HostsAt(output, answer, at) && i <= |answer|
    ensures at[i] <= at[|answer|]
    decreases |answer| - i
  {
    if i < |answer| {
      assert HostAt(output, answer, at, i);
      EndsInside(output, answer, at, i + 1);
    }
  }

  /** The law of the output: what is shown of a lawful answer prints the facts. */
  lemma ShownPrints(output: seq<Output>, answer: seq<HostAnswer>, f: Facts, hostNames: seq<string>, extractorNames: seq<string>)
    requires Shows(output, answer) && Lawful(f, hostNames, extractorNames, answer) && OwnersPlain(f)
    ensures Prints(output, f, hostNames, extractorNames)
  {
    var hosts := HostNames(answer);
    var at: seq<nat> :| HostsAt(output, answer, at) && at[|answer|] + 1 == |output|;
    ShownFramed(output, answer, at);
    forall h ensures h in hosts <==> h in f.hosts && (hostNames == [] || h in hostNames) {
      HostListed(answer, hosts, h);
    }
    forall i | 0 <= i < |hosts| ensures PairsAre(output, at[i] + 2, at[i + 1] - 1, f, hosts[i], extractorNames) {
      assert EntriesAre(f, extractorNames, answer[i]);
      assert HostAt(output, answer, at, i);
      assert FramesHost(output, hosts[i], at[i], at[i + 1]);
      ShownPairs(output, at[i], answer[i], f, extractorNames);
    }
    assert PrintsHosts(output, f, hostNames, extractorNames, hosts, at);
  }

  lemma HostListed(answer: seq<HostAnswer>, hosts: seq<string>, h: string)
    requires |hosts| == |answer| && forall i | 0 <= i < |answer| :: hosts[i] == answer[i].host
    ensures h in hosts <==> HasObject(answer, h)
  {
    if HasObject(answer, h) {
      var i :| 0 <= i < |answer| && answer[i].host == h;
      assert hosts[i] == h;
    }
  }

  lemma EntriesOutputAppends(a: seq<Entry>, b: seq<Entry>)
    ensures EntriesOutput(a + b) == EntriesOutput(a) + EntriesOutput(b)
  {
    if b == [] {
      assert a + b == a;
    } else {
      assert (a + b)[..|a + b| - 1] == a + b[..|b| - 1];
      EntriesOutputAppends(a, b[..|b| - 1]);
      Associative(EntriesOutput(a), EntriesOutput(b[..|b| - 1]), EntryOutput(b[|b| - 1]));
    }
  }

  class Sqlite {
    var hosts: set<NamedRow>
    var extractors: set<NamedRow>
    var data: set<DataRow>
    var links: multiset<LinkRow>
    var hostSeq: int
    var extractorSeq: int
    var dataSeq: int

    ghost function Content(): Tables
      reads this
    {
      Tables(hosts, extractors, data, links, hostSeq, extractorSeq, dataSeq)
    }

    /** share/fillDB.sh, lines 11-27. */
    constructor ()
      ensures Content() == EMPTY
    {
      hosts, extractors, data, links := {}, {}, {}, multiset{};
      hostSeq, extractorSeq, dataSeq := 0, 0, 0;
    }

    method SelectNamed(rows: set<NamedRow>, name: string) returns (id: Option<int>)
      ensures SelectsNamed(rows, name, id)
    {
      if r :| r in rows && r.name == name {
        id := Some(r.id);
      } else {
        id := None;
      }
    }

    method SelectData(rows: set<DataRow>, payload: string) returns (id: Option<int>)
      ensures SelectsData(rows, payload, id)
    {
      if r :| r in rows && r.data == payload {
        id := Some(r.did);
      } else {
        id := None;
      }
    }

    /** One statement of a script, as SQLite executes it. */
    method Execute(s: Statement)
      modifies this
      ensures Exec(s, old(Content()), Content())
    {
      var skip :| 0 <= skip;
      match s {
        case InsertHost(name) =>
          if Named(hosts, name) {
            hostSeq := hostSeq + skip;
          } else {
            hostSeq := hostSeq + skip + 1;
            hosts := hosts + {NamedRow(hostSeq, name)};
          }
        case InsertExtractor(name) =>
          if Named(extractors, name) {
            extractorSeq := extractorSeq + skip;
          } else {
            extractorSeq := extractorSeq + skip + 1;
            extractors := extractors + {NamedRow(extractorSeq, name)};
          }
        case InsertData(extractor, payload) =>
          var eid := SelectNamed(extractors, extractor);
          if Stored(data, payload) {
            dataSeq := dataSeq + skip;
          } else {
            dataSeq := dataSeq + skip + 1;
            data := data + {DataRow(dataSeq, eid, payload)};
          }
        case InsertLink(host, payload) =>
          var hid := SelectNamed(hosts, host);
          var did := SelectData(data, payload);
          if !LinkExists(links, hid, did) {
            links := links + multiset{LinkRow(hid, did)};
          }
      }
    }

    /** share/fillDB.sh, line 31: the concatenated scripts. */
    method Import(statements: seq<Statement>) returns (ghost states: seq<Tables>)
      modifies this
      ensures IsRun(statements, states) && states[0] == old(Content()) && H.Final(states) == Content()
    {
      states := [Content()];
      for i := 0 to |statements|
        invariant |states| == i + 1 && states[0] == old(Content()) && states[i] == Content()
        invariant forall j | 0 <= j < i :: Exec(statements[j], states[j], states[j + 1])
      {
        Execute(statements[i]);
        states := states + [Content()];
      }
    }

    /** getDIDofHost */
    method GetDids(hid: int) returns (dids: seq<int>)
      ensures AreDids(links, hid, dids)
      ensures LinksResolve(links, hosts, data) ==> NoDup(dids)
    {
      dids := [];
      var rest := links;
      ghost var done := multiset{};
      while |rest| != 0
        invariant done + rest == links
        invariant AreDids(done, hid, dids)
        invariant LinksResolve(links, hosts, data) ==> NoDup(dids)
        decreases |rest|
      {
        var l :| l in rest;
        assert links[l] == 1 ==> l !in done;
        ghost var before := dids;
        if l.host == Some(hid) {
          dids := dids + [Number(l.did)];
        }
        MoreDids(done, hid, before, l);
        if LinksResolve(links, hosts, data) && l.host == Some(hid) {
          FreshDid(links, hosts, data, done, hid, before, l);
        }
        done, rest := done + multiset{l}, rest - multiset{l};
      }
      assert done == links;
    }

    /** The rows of `select HostID from Hosttable [where Hostname = ?]`, each passed to fillHostID. */
    method FillHostIds(all: bool, name: string, results: map<int, seq<int>>) returns (filled: map<int, seq<int>>)
      ensures forall id :: id in filled
                <==> id in results || exists h :: h in hosts && h.id == id && (all || h.name == name)
      ensures HostDids(results) ==> HostDids(filled)
    {
      filled := results;
      var rest := hosts;
      while rest != {}
        invariant rest <= hosts
        invariant forall id :: id in filled
                    <==> id in results || exists h :: h in hosts - rest && h.id == id && (all || h.name == name)
        invariant HostDids(results) ==> HostDids(filled)
        decreases |rest|
      {
        var h :| h in rest;
        if all || h.name == name {
          var dids := GetDids(h.id);
          filled := filled[h.id := dids];
        }
        rest := rest - {h};
      }
      assert hosts - rest == hosts;
    }

    ghost predicate HostDids(results: map<int, seq<int>>)
      reads this
    {
      && (forall id | id in results :: AreDids(links, id, results[id]))
      && (LinksResolve(links, hosts, data) ==> forall id | id in results :: NoDup(results[id]))
    }

    /** getHostIDs */
    method GetHostIds(names: seq<string>) returns (results: map<int, seq<int>>)
      ensures IsHostMap(Content(), names, results)
    {
      results := map[];
      if |names| == 0 {
        results := FillHostIds(true, [], results);
        return;
      }
      for i := 0 to |names|
        invariant HostDids(results)
        invariant forall id :: id in results <==> exists h :: h in hosts && h.id == id && h.name in names[..i]
      {
        assert names[..i + 1] == names[..i] + [names[i]];
        results := FillHostIds(false, names[i], results);
      }
      assert names[..|names|] == names;
      assert forall n :: 0 < Wanted(names, n) <==> n in names;
    }

    /** The rows of `select EID from Extractortable [where Name = ?]`, each passed to fillEID. */
    method FillEids(all: bool, name: string, results: seq<int>) returns (filled: seq<int>)
      requires KeyedNames(extractors, extractorSeq) && KnownEids(Content(), results)
      ensures KnownEids(Content(), filled)
      ensures forall e | e in extractors ::
                multiset(filled)[e.id] == multiset(results)[e.id] + if all || e.name == name then 1 else 0
    {
      filled := results;
      var rest := extractors;
      while rest != {}
        invariant rest <= extractors && KnownEids(Content(), filled)
        invariant forall e | e in extractors :: multiset(filled)[e.id]
                    == multiset(results)[e.id] + if e !in rest && (all || e.name == name) then 1 else 0
        decreases |rest|
      {
        var e :| e in rest;
        if all || e.name == name {
          filled := filled + [e.id];
        }
        rest := rest - {e};
      }
    }

    /** getEIDs */
    method GetEids(names: seq<string>) returns (results: seq<int>)
      requires KeyedNames(extractors, extractorSeq)
      ensures IsEidList(Content(), names, results)
    {
      results := [];
      if |names| == 0 {
        results := FillEids(true, [], results);
        return;
      }
      for i := 0 to |names|
        invariant KnownEids(Content(), results)
        invariant forall e | e in extractors :: multiset(results)[e.id] == multiset(names[..i])[e.name]
      {
        assert names[..i + 1] == names[..i] + [names[i]];
        results := FillEids(false, names[i], results);
      }
      assert names[..|names|] == names;
    }

    /** getHostName and getExtractorName: the row is there for numbers that came from the table. */
    method GetName(rows: set<NamedRow>, ghost last: int, id: int) returns (name: string)
      requires KeyedNames(rows, last) && HasId(rows, Some(id))
      ensures name == NameAt(rows, id) && NamedRow(id, name) in rows
    {
      var r :| r in rows && r.id == id;
      name := r.name;
    }

    /** getData: when the query returns nothing the exception is logged and data stays empty. */
    method GetData(eid: int, did: int) returns (payload: string)
      requires KeyedData(data, dataSeq)
      ensures payload == DataAt(data, eid, did)
    {
      if r :| r in data && r.eid == Some(eid) && r.did == did {
        payload := r.data;
        assert HasData(data, eid, did, payload);
      } else {
        payload := [];
        assert !exists p :: HasData(data, eid, did, p);
      }
    }

    /** The innermost loop of queryToJSON. */
    method WriteEntriesOf(eid: int, dids: seq<int>, output: seq<Output>) returns (written: seq<Output>)
      requires Keys(Content()) && HasId(extractors, Some(eid))
      ensures written == output + EntriesOutput(EntriesOf(Content(), eid, dids))
    {
      written := output;
      ghost var t, done := Content(), [];
      for j := 0 to |dids|
        invariant done == EntriesOf(t, eid, dids[..j])
        invariant written == output + EntriesOutput(done)
      {
        EntriesOfMore(t, eid, dids, j);
        var payload := GetData(eid, dids[j]);
        if |payload| != 0 {
          var name := GetName(extractors, extractorSeq, eid);
          OneMoreEntry(output, done, Entry(name, payload));
          written := written + [Key(CStr(name)), RawValue(payload)];
          done := done + [Entry(name, payload)];
        }
      }
      assert dids[..|dids|] == dids;
    }

    /** One host's members: the two inner loops of queryToJSON. */
    method WriteEntries(eids: seq<int>, dids: seq<int>, output: seq<Output>) returns (written: seq<Output>)
      requires Keys(Content()) && KnownEids(Content(), eids)
      ensures written == output + EntriesOutput(AllEntriesOf(Content(), eids, dids))
    {
      written := output;
      ghost var t := Content();
      for i := 0 to |eids|
        invariant written == output + EntriesOutput(AllEntriesOf(t, eids[..i], dids))
      {
        assert eids[..i + 1][..i] == eids[..i];
        ghost var before, more := AllEntriesOf(t, eids[..i], dids), EntriesOf(t, eids[i], dids);
        written := WriteEntriesOf(eids[i], dids, written);
        EntriesOutputAppends(before, more);
        Associative(output, EntriesOutput(before), EntriesOutput(more));
      }
      assert eids[..|eids|] == eids;
    }

    /** One host's object. */
    method WriteHost(id: int, eids: seq<int>, dids: seq<int>, output: seq<Output>) returns (written: seq<Output>, ghost reply: HostAnswer)
      requires Keys(Content()) && KnownEids(Content(), eids) && HasId(hosts, Some(id))
      ensures NamedRow(id, reply.host) in hosts && reply.entries == AllEntriesOf(Content(), eids, dids)
      ensures written == output + HostOutput(reply)
    {
      var name := GetName(hosts, hostSeq, id);
      ghost var entries := AllEntriesOf(Content(), eids, dids);
      written := output + [Key(CStr(name)), StartObject];
      written := WriteEntries(eids, dids, written);
      written := written + [EndObject];
      reply := HostAnswer(name, entries);
      HostPartsOf(output, reply);
      Associative(output, [Key(CStr(name))], [StartObject]);
    }

    /** queryToJSON */
    method QueryToJson(results: map<int, seq<int>>, eids: seq<int>) returns (output: seq<Output>)
      requires Keys(Content()) && KnownEids(Content(), eids)
      requires forall id | id in results :: HasId(hosts, Some(id))
      ensures exists ids, answer :: IsAnswer(Content(), results, eids, ids, answer) && Shows(output, answer)
    {
      output := [StartObject];
      ghost var ids, answer := [], [];
      var rest := results.Keys;
      while rest != {}
        invariant rest <= results.Keys
        invariant forall id :: id in ids <==> id in results && id !in rest
        invariant Below(ids, rest)
        invariant Partly(results, eids, ids, answer)
        invariant output == [StartObject] + HostsOutput(answer)
        decreases |rest|
      {
        ghost var least := LeastInt(rest);
        var id :| id in rest && forall r | r in rest :: id <= r;
        ghost var reply, before := HostAnswer([], []), output;
        output, reply := WriteHost(id, eids, results[id], output);
        OneMoreHost(before, output, answer, reply);
        PartlyMore(results, eids, ids, answer, id, reply);
        BelowMore(ids, rest, id);
        ids, answer := ids + [id], answer + [reply];
        rest := rest - {id};
      }
      output := output + [EndObject];
      AnswerDone(results, eids, ids, answer, output);
    }

    lemma AnswerDone(results: map<int, seq<int>>, eids: seq<int>, ids: seq<int>, answer: seq<HostAnswer>, output: seq<Output>)
      requires KnownEids(Content(), eids) && Partly(results, eids, ids, answer) && forall id :: id in ids <==> id in results
      requires output == [StartObject] + HostsOutput(answer) + [EndObject]
      ensures IsAnswer(Content(), results, eids, ids, answer) && Shows(output, answer)
    {
      AnswerShown(answer);
    }

    lemma PartlyMore(results: map<int, seq<int>>, eids: seq<int>, ids: seq<int>, answer: seq<HostAnswer>, id: int, reply: HostAnswer)
      requires KnownEids(Content(), eids) && Partly(results, eids, ids, answer) && id in results
      requires forall i | 0 <= i < |ids| :: ids[i] < id
      requires NamedRow(id, reply.host) in hosts && reply.entries == AllEntriesOf(Content(), eids, results[id])
      ensures Partly(results, eids, ids + [id], answer + [reply])
    {
    }

    /** IsAnswer for the hosts written so far. */
    ghost predicate Partly(results: map<int, seq<int>>, eids: seq<int>, ids: seq<int>, answer: seq<HostAnswer>)
      reads this
      requires KnownEids(Content(), eids)
    {
      && |ids| == |answer|
      && (forall i, j | 0 <= i < j < |ids| :: ids[i] < ids[j])
      && (forall i | 0 <= i < |ids| :: ids[i] in results && NamedRow(ids[i], answer[i].host) in hosts
                                       && answer[i].entries == AllEntriesOf(Content(), eids, results[ids[i]]))
    }

    /** bin/sysquery.cc, lines 115-123. */
    method Answer(hostNames: seq<string>, extractorNames: seq<string>) returns (output: seq<Output>)
      requires Keys(Content())
      ensures exists answer :: Answers(Content(), hostNames, extractorNames, answer) && Shows(output, answer)
      ensures forall f | Integrity(Content()) && Says(Content(), f) && OwnersPlain(f) ::
                Prints(output, f, hostNames, extractorNames)
    {
      var results := GetHostIds(hostNames);
      var eids := GetEids(extractorNames);
      output := QueryToJson(results, eids);
      ghost var ids, answer :| IsAnswer(Content(), results, eids, ids, answer) && Shows(output, answer);
      AnswerPrints(Content(), hostNames, results, extractorNames, eids, ids, answer, output);
    }
  }

  lemma AnswerPrints(t: Tables, hostNames: seq<string>, hosts: map<int, seq<int>>, extractorNames: seq<string>,
                     eids: seq<int>, ids: seq<int>, answer: seq<HostAnswer>, output: seq<Output>)
    requires IsHostMap(t, hostNames, hosts) && IsEidList(t, extractorNames, eids)
    requires IsAnswer(t, hosts, eids, ids, answer) && Shows(output, answer)
    ensures Answers(t, hostNames, extractorNames, answer)
    ensures forall f | Integrity(t) && Says(t, f) && OwnersPlain(f) :: Prints(output, f, hostNames, extractorNames)
  {
    forall f | Integrity(t) && Says(t, f) && OwnersPlain(f) ensures Prints(output, f, hostNames, extractorNames) {
      QueryLaw(t, f, hostNames, extractorNames, answer);
      ShownPrints(output, answer, f, hostNames, extractorNames);
    }
  }

  ghost predicate Below(ids: seq<int>, rest: set<int>) {
    forall i, r | 0 <= i < |ids| && r in rest :: ids[i] < r
  }

  lemma BelowMore(ids: seq<int>, rest: set<int>, id: int)
    requires Below(ids, rest) && forall r | r in rest :: id <= r
    ensures Below(ids + [id], rest - {id})
  {
  }

  lemma OneMoreEntry(output: seq<Output>, done: seq<Entry>, e: Entry)
    ensures output + EntriesOutput(done + [e]) == output + EntriesOutput(done) + EntryOutput(e)
  {
    assert (done + [e])[..|done|] == done;
    Associative(output, EntriesOutput(done), EntryOutput(e));
  }

  lemma OneMoreHost(before: seq<Output>, output: seq<Output>, answer: seq<HostAnswer>, a: HostAnswer)
    requires before == [StartObject] + HostsOutput(answer) && output == before + HostOutput(a)
    ensures output == [StartObject] + HostsOutput(answer + [a])
  {
    assert (answer + [a])[..|answer|] == answer;
    Associative([StartObject], HostsOutput(answer), HostOutput(a));
  }

  lemma MoreDids(done: multiset<LinkRow>, hid: int, dids: seq<int>, l: LinkRow)
    requires AreDids(done, hid, dids)
    ensures AreDids(done + multiset{l}, hid, if l.host == Some(hid) then dids + [Number(l.did)] else dids)
  {
    assert forall k :: k in done + multiset{l} <==> k in done || k == l;
  }

  lemma FreshDid(links: multiset<LinkRow>, hosts: set<NamedRow>, data: set<DataRow>,
                 done: multiset<LinkRow>, hid: int, dids: seq<int>, l: LinkRow)
    requires LinksResolve(links, hosts, data) && done <= links && l in links && l !in done
    requires AreDids(done, hid, dids) && NoDup(dids) && l.host == Some(hid)
    ensures NoDup(dids + [Number(l.did)])
  {
    forall k | k in done && k.host == Some(hid) ensures Number(k.did) != Number(l.did) {
      assert k in links && HasDid(data, k.did) && HasDid(data, l.did);
      assert k != l;
    }
    assert Number(l.did) !in dids;
  }
}
