/** The tree of extracted values and the JSON event stream it is written as
    (lib/src/map_value.cc, array_value.cc, scalar_value.cc). */
module Json {
  import opened Text
  import opened FirstWins

  const TWO_32 := 0x1_0000_0000
  const TWO_64 := 0x1_0000_0000_0000_0000

  type uint64 = n: nat | n < TWO_64
  type int32 = n: int | -0x8000_0000 <= n < 0x8000_0000

  /** Value and its subclasses; the text of a double is opaque here. */
  datatype Value =
    | StringValue(text: string)
    | UintValue(unsigned: uint64)
    | IntValue(number: int32)
    | DoubleValue(token: string)
    | ArrayValue(items: seq<Value>)
    | MapValue(members: map<string, Value>)

  /** What a rapidjson writer is told. Uint and Int write the same digits, so they are one event. */
  datatype Event =
    | StartObject | EndObject | StartArray | EndArray
    | Key(key: string) | String(text: string) | Number(number: int) | Double(token: string)

  class Writer {
    var events: seq<Event>

    constructor ()
      ensures events == []
    {
      events := [];
    }

    method Put(e: Event)
      modifies this
      ensures events == old(events) + [e]
    {
      events := events + [e];
    }
  }

  // ---------------------------------------------------------------- JSON documents

  /** A JSON document (sections 4 and 5 of RFC 8259), members in the order they are written. */
  datatype Document =
    | JString(text: string)
    | JNumber(number: int)
    | JDouble(token: string)
    | JArray(items: seq<Document>)
    | JObject(members: seq<Member>)
  datatype Member = Member(key: string, value: Document)

  function Emit(d: Document): (es: seq<Event>)
    ensures es != []
    decreases d, 1
  {
    match d
    case JString(s) => [String(s)]
    case JNumber(n) => [Number(n)]
    case JDouble(t) => [Double(t)]
    case JArray(items) => [StartArray] + EmitItems(items)
    case JObject(members) => [StartObject] + EmitMembers(members)
  }

  function EmitItems(items: seq<Document>): seq<Event>
    decreases items, 0
  {
    if items == [] then [EndArray] else Emit(items[0]) + EmitItems(items[1..])
  }

  function EmitMembers(members: seq<Member>): seq<Event>
    decreases members, 0
  {
    if members == [] then [EndObject] else
      [Key(members[0].key)] + (Emit(members[0].value) + EmitMembers(members[1..]))
  }

  /** Reading one document off the front of an event stream. */
  function Decode(es: seq<Event>): (r: Option<(Document, seq<Event>)>)
    ensures r.Some? ==> |r.value.1| < |es|
    decreases |es|, 1
  {
    if es == [] then None else
      match es[0]
      case String(s) => Some((JString(s), es[1..]))
      case Number(n) => Some((JNumber(n), es[1..]))
      case Double(t) => Some((JDouble(t), es[1..]))
      case StartArray =>
        var r := DecodeItems(es[1..]);
        if r.None? then None else Some((JArray(r.value.0), r.value.1))
      case StartObject =>
        var r := DecodeMembers(es[1..]);
        if r.None? then None else Some((JObject(r.value.0), r.value.1))
      case _ => None
  }

  function DecodeItems(es: seq<Event>): (r: Option<(seq<Document>, seq<Event>)>)
    ensures r.Some? ==> |r.value.1| < |es|
    decreases |es|, 2
  {
    if es == [] then None
    else if es[0] == EndArray then Some(([], es[1..]))
    else
      var first := Decode(es);
      if first.None? then None else
        var rest := DecodeItems(first.value.1);
        if rest.None? then None else Some(([first.value.0] + rest.value.0, rest.value.1))
  }

  function DecodeMembers(es: seq<Event>): (r: Option<(seq<Member>, seq<Event>)>)
    ensures r.Some? ==> |r.value.1| < |es|
    decreases |es|, 2
  {
    if es == [] then None
    else if es[0] == EndObject then Some(([], es[1..]))
    else if !es[0].Key? then None
    else
      var first := Decode(es[1..]);
      if first.None? then None else
        var rest := DecodeMembers(first.value.1);
        if rest.None? then None else
          Some(([Member(es[0].key, first.value.0)] + rest.value.0, rest.value.1))
  }

  lemma {:induction false} DecodeEmit(d: Document, rest: seq<Event>)
    ensures Decode(Emit(d) + rest) == Some((d, rest))
    decreases d, 1
  {
    var es := Emit(d) + rest;
    match d
    case JArray(items) =>
      DecodeEmitItems(items, rest);
      assert es[1..] == EmitItems(items) + rest;
    case JObject(members) =>
      DecodeEmitMembers(members, rest);
      assert es[1..] == EmitMembers(members) + rest;
    case _ =>
      assert es[1..] == rest;
  }

  lemma {:induction false} DecodeEmitItems(items: seq<Document>, rest: seq<Event>)
    ensures DecodeItems(EmitItems(items) + rest) == Some((items, rest))
    decreases items, 0
  {
    var es := EmitItems(items) + rest;
    if items == [] {
      assert es[1..] == rest;
    } else {
      var tail := EmitItems(items[1..]) + rest;
      Associative(Emit(items[0]), EmitItems(items[1..]), rest);
      DecodeEmit(items[0], tail);
      DecodeEmitItems(items[1..], rest);
      assert es[0] == Emit(items[0])[0];
      assert items == [items[0]] + items[1..];
    }
  }

  lemma {:induction false} DecodeEmitMembers(members: seq<Member>, rest: seq<Event>)
    ensures DecodeMembers(EmitMembers(members) + rest) == Some((members, rest))
    decreases members, 0
  {
    var es := EmitMembers(members) + rest;
    if members == [] {
      assert es[1..] == rest;
    } else {
      var m, tail := members[0], EmitMembers(members[1..]) + rest;
      Associative(Emit(m.value), EmitMembers(members[1..]), rest);
      DecodeEmit(m.value, tail);
      DecodeEmitMembers(members[1..], rest);
      assert es[0] == Key(m.key) && es[1..] == Emit(m.value) + tail;
      assert members == [m] + members[1..];
    }
  }

  /** The decoder accepts nothing but well-nested streams. */
  lemma {:induction false} EmitDecode(es: seq<Event>)
    ensures Decode(es).Some? ==> es == Emit(Decode(es).value.0) + Decode(es).value.1
    decreases |es|, 1
  {
    var r := Decode(es);
    if r.Some? {
      var (d, rest) := r.value;
      assert es == [es[0]] + es[1..];
      match d
      case JArray(items) => EmitDecodeItems(es[1..]);
      case JObject(members) => EmitDecodeMembers(es[1..]);
      case _ =>
    }
  }

  lemma {:induction false} EmitDecodeItems(es: seq<Event>)
    ensures DecodeItems(es).Some? ==> es == EmitItems(DecodeItems(es).value.0) + DecodeItems(es).value.1
    decreases |es|, 2
  {
    var r := DecodeItems(es);
    if r.Some? && es[0] != EndArray {
      EmitDecode(es);
      var first := Decode(es).value;
      EmitDecodeItems(first.1);
      Associative(Emit(first.0), EmitItems(DecodeItems(first.1).value.0), r.value.1);
      assert r.value.0[1..] == DecodeItems(first.1).value.0;
    }
  }

  lemma {:induction false} EmitDecodeMembers(es: seq<Event>)
    ensures DecodeMembers(es).Some? ==> es == EmitMembers(DecodeMembers(es).value.0) + DecodeMembers(es).value.1
    decreases |es|, 2
  {
    var r := DecodeMembers(es);
    if r.Some? && es[0] != EndObject {
      EmitDecode(es[1..]);
      var first := Decode(es[1..]).value;
      EmitDecodeMembers(first.1);
      var members := DecodeMembers(first.1).value.0;
      Associative(Emit(first.0), EmitMembers(members), r.value.1);
      Associative([es[0]], Emit(first.0) + EmitMembers(members), r.value.1);
      assert es == [es[0]] + es[1..];
      assert r.value.0[1..] == members;
    }
  }

  // ---------------------------------------------------------------- what a value is written as

  /** The document a value stands for: C strings end at the first NUL, Writer::Uint takes
      32 bits, members come in key order. */
  ghost function Meaning(v: Value): Document {
    match v
    case StringValue(s) => JString(CStr(s))
    case UintValue(n) => JNumber(n % TWO_32)
    case IntValue(n) => JNumber(n)
    case DoubleValue(t) => JDouble(t)
    case ArrayValue(items) => JArray(seq(|items|, i requires 0 <= i < |items| => Meaning(items[i])))
    case MapValue(members) =>
      var keys := Ordered(members.Keys);
      JObject(seq(|keys|, i requires 0 <= i < |keys| => Member(CStr(keys[i]), Meaning(members[keys[i]]))))
  }

  ghost function Events(v: Value): seq<Event> {
    Emit(Meaning(v))
  }

  /** Value::to_json: the override of each subclass. */
  method ToJson(v: Value, writer: Writer)
    modifies writer
    ensures writer.events == old(writer.events) + Events(v) && Serialises(v, Events(v))
    decreases v, 1
  {
    EventsSerialise(v);
    match v {
      case StringValue(s) => writer.Put(String(CStr(s)));
      case UintValue(n) => writer.Put(Number(n % TWO_32));
      case IntValue(n) => writer.Put(Number(n));
      case DoubleValue(t) => writer.Put(Double(t));
      case ArrayValue(_) => ArrayToJson(v, writer);
      case MapValue(_) => MapToJson(v, writer);
    }
  }

  /** Array_value::to_json */
  method ArrayToJson(v: Value, writer: Writer)
    requires v.ArrayValue?
    modifies writer
    ensures writer.events == old(writer.events) + Events(v)
    decreases v, 0
  {
    ghost var all, left := Meaning(v).items, EmitItems(Meaning(v).items);
    ghost var written := writer.events + [StartArray];
    Associative(writer.events, [StartArray], left);
    ghost var whole := written + left;
    writer.Put(StartArray);
    assert all[0..] == all;
    for i := 0 to |v.items|
      invariant writer.events == written && left == EmitItems(all[i..])
      invariant written + left == whole
    {
      ToJson(v.items[i], writer);
      left := EmitItems(all[i + 1..]);
      assert all[i..][1..] == all[i + 1..];
      Associative(written, Emit(all[i]), left);
      written := writer.events;
    }
    writer.Put(EndArray);
  }

  /** Map_value::to_json */
  method MapToJson(v: Value, writer: Writer)
    requires v.MapValue?
    modifies writer
    ensures writer.events == old(writer.events) + Events(v)
    decreases v, 0
  {
    ghost var all, left := Meaning(v).members, EmitMembers(Meaning(v).members);
    ghost var written := writer.events + [StartObject];
    Associative(writer.events, [StartObject], left);
    ghost var whole := written + left;
    writer.Put(StartObject);
    var keys := InOrder(v.members.Keys);
    assert all[0..] == all;
    for i := 0 to |keys|
      invariant |keys| == |all| && writer.events == written && left == EmitMembers(all[i..])
      invariant written + left == whole
    {
      writer.Put(Key(CStr(keys[i])));
      ToJson(v.members[keys[i]], writer);
      left := EmitMembers(all[i + 1..]);
      NextMember(written, all, i);
      written := writer.events;
    }
    writer.Put(EndObject);
  }

  lemma NextMember(written: seq<Event>, all: seq<Member>, i: nat)
    requires i < |all|
    ensures written + EmitMembers(all[i..])
         == written + [Key(all[i].key)] + Emit(all[i].value) + EmitMembers(all[i + 1..])
  {
    var left := EmitMembers(all[i + 1..]);
    assert all[i..][1..] == all[i + 1..];
    Associative(written, [Key(all[i].key)], Emit(all[i].value) + left);
    Associative(written + [Key(all[i].key)], Emit(all[i].value), left);
  }

  /** The stream of a value is well nested and decodes to what the value stands for. */
  lemma ToJsonDecodes(v: Value)
    ensures Decode(Events(v)) == Some((Meaning(v), []))
  {
    DecodeEmit(Meaning(v), []);
    assert Events(v) + [] == Events(v);
  }

  /** Two values are written alike, and then share one row in the store, exactly when they mean
      the same document. */
  lemma WrittenAlikeIff(v: Value, w: Value)
    ensures Events(v) == Events(w) <==> Meaning(v) == Meaning(w)
  {
    ToJsonDecodes(v);
    ToJsonDecodes(w);
  }

  lemma InKeyOrder(keys: set<string>)
    ensures forall i | 0 <= i < |Ordered(keys)| :: Ordered(keys)[i] in keys
  {
    assert forall i | 0 <= i < |Ordered(keys)| :: Ordered(keys)[i] in Ordered(keys);
  }

  lemma MeaningOfMembers(m: map<string, Value>)
    ensures var keys, x := Ordered(m.Keys), Meaning(MapValue(m)).members;
            |x| == |keys| && forall i | 0 <= i < |keys| :: keys[i] in m && x[i] == Member(CStr(keys[i]), Meaning(m[keys[i]]))
  {
    InKeyOrder(m.Keys);
  }

  // ---------------------------------------------------------------- the stream itself

  /** t is s up to its first NUL. */
  predicate IsCut(s: string, t: string) {
    t <= s && '\0' !in t && (t == s || s[|t|] == '\0')
  }

  lemma CStrCuts(s: string)
    ensures IsCut(s, CStr(s))
  {
    if s != [] && s[0] != '\0' {
      CStrCuts(s[1..]);
      var t := CStr(s[1..]);
      assert CStr(s)[1..] == t;
      assert t == s[1..][..|t|];
    }
  }

  function Join(parts: seq<seq<Event>>): seq<Event> {
    if parts == [] then [] else parts[0] + Join(parts[1..])
  }

  /** The writer is told es for v: a string up to its first NUL, an unsigned number modulo 2^32, the
      elements in order between the brackets, the members in ascending order of their keys between
      the braces. */
  ghost predicate Serialises(v: Value, es: seq<Event>)
    decreases v, 1
  {
    match v
    case StringValue(s) => |es| == 1 && es[0].String? && IsCut(s, es[0].text)
    case UintValue(n) => |es| == 1 && es[0].Number? && 0 <= es[0].number < 0x1_0000_0000
                         && (n - es[0].number) % 0x1_0000_0000 == 0
    case IntValue(n) => es == [Number(n)]
    case DoubleValue(t) => es == [Double(t)]
    case ArrayValue(items) =>
      exists parts: seq<seq<Event>> :: es == [StartArray] + Join(parts) + [EndArray] && ItemsWritten(v, parts)
    case MapValue(members) =>
      exists keys: seq<string>, parts: seq<seq<Event>> ::
        es == [StartObject] + Join(parts) + [EndObject] && MembersWritten(v, keys, parts)
  }

  ghost predicate ItemsWritten(v: Value, parts: seq<seq<Event>>)
    requires v.ArrayValue?
    decreases v, 0
  {
    |parts| == |v.items| && forall i | 0 <= i < |parts| :: Serialises(v.items[i], parts[i])
  }

  /** Each part is a key up to its first NUL and its value, and the keys are those of the map. */
  ghost predicate MembersWritten(v: Value, keys: seq<string>, parts: seq<seq<Event>>)
    requires v.MapValue?
    decreases v, 0
  {
    && Ascending(keys) && (forall k :: k in keys <==> k in v.members) && |parts| == |keys|
    && forall i | 0 <= i < |parts| :: keys[i] in v.members && MemberWritten(keys[i], parts[i])
                                      && Serialises(v.members[keys[i]], parts[i][1..])
  }

  predicate MemberWritten(key: string, part: seq<Event>) {
    part != [] && part[0].Key? && IsCut(key, part[0].key)
  }

  lemma {:induction false} EmitItemsJoin(items: seq<Document>, parts: seq<seq<Event>>)
    requires |parts| == |items| && forall i | 0 <= i < |items| :: parts[i] == Emit(items[i])
    ensures EmitItems(items) == Join(parts) + [EndArray]
  {
    if items == [] {
      assert [] + [EndArray] == [EndArray];
    } else {
      EmitItemsJoin(items[1..], parts[1..]);
      Associative(parts[0], Join(parts[1..]), [EndArray]);
    }
  }

  lemma {:induction false} EmitMembersJoin(members: seq<Member>, parts: seq<seq<Event>>)
    requires |parts| == |members|
    requires forall i | 0 <= i < |members| :: parts[i] == MemberEvents(members[i])
    ensures EmitMembers(members) == Join(parts) + [EndObject]
  {
    if members == [] {
      assert [] + [EndObject] == [EndObject];
    } else {
      var m := members[0];
      EmitMembersJoin(members[1..], parts[1..]);
      Associative([Key(m.key)], Emit(m.value), EmitMembers(members[1..]));
      Associative(parts[0], Join(parts[1..]), [EndObject]);
    }
  }

  lemma {:induction false} EventsSerialise(v: Value)
    ensures Serialises(v, Events(v))
    decreases v, 1
  {
    match v
    case StringValue(s) => CStrCuts(s);
    case ArrayValue(items) => ArraySerialises(v);
    case MapValue(members) => MapSerialises(v);
    case _ =>
  }

  lemma {:induction false} ArraySerialises(v: Value)
    requires v.ArrayValue?
    ensures Serialises(v, Events(v))
    decreases v, 0
  {
    var items, documents := v.items, Meaning(v).items;
    var parts := seq(|items|, i requires 0 <= i < |items| => Events(items[i]));
    forall i | 0 <= i < |items| ensures parts[i] == Emit(documents[i]) && Serialises(items[i], parts[i]) {
      EventsSerialise(items[i]);
    }
    EmitItemsJoin(documents, parts);
    Associative([StartArray], Join(parts), [EndArray]);
    assert ItemsWritten(v, parts);
  }

  lemma {:induction false} MapSerialises(v: Value)
    requires v.MapValue?
    ensures Serialises(v, Events(v))
    decreases v, 0
  {
    var m, keys, members := v.members, Ordered(v.members.Keys), Meaning(v).members;
    MeaningOfMembers(m);
    var parts := seq(|keys|, i requires 0 <= i < |keys| => MemberEvents(members[i]));
    forall i | 0 <= i < |keys| ensures keys[i] in m && MemberWritten(keys[i], parts[i]) && Serialises(m[keys[i]], parts[i][1..]) {
      CStrCuts(keys[i]);
      EventsSerialise(m[keys[i]]);
      assert parts[i] == MemberEvents(members[i]);
      assert parts[i][1..] == Events(m[keys[i]]);
    }
    KeysCover(m);
    assert MembersWritten(v, keys, parts);
    MembersJoined(members, parts);
  }

  lemma KeysCover(m: map<string, Value>)
    ensures Ascending(Ordered(m.Keys)) && forall k :: k in Ordered(m.Keys) <==> k in m
  {
    OrderedAscends(m.Keys);
    assert forall k :: k in Ordered(m.Keys) <==> k in m.Keys;
  }

  lemma MembersJoined(members: seq<Member>, parts: seq<seq<Event>>)
    requires |parts| == |members| && forall i | 0 <= i < |members| :: parts[i] == MemberEvents(members[i])
    ensures Emit(JObject(members)) == [StartObject] + Join(parts) + [EndObject]
  {
    EmitMembersJoin(members, parts);
    Associative([StartObject], Join(parts), [EndObject]);
  }

  function MemberEvents(m: Member): seq<Event> {
    [Key(m.key)] + Emit(m.value)
  }

  /** Unsigned numbers: the stream decodes to the residue modulo 2^32, so that two numbers are
      written alike if and only if they differ by a multiple of it. */
  lemma UnsignedWritten(n: uint64) returns (k: int)
    ensures Events(UintValue(n)) == [Number(k)] && Decode(Events(UintValue(n))) == Some((JNumber(k), []))
    ensures 0 <= k < 0x1_0000_0000 && exists q: int :: n == k + q * 0x1_0000_0000
  {
    k := n % 0x1_0000_0000;
    assert n == k + (n / 0x1_0000_0000) * 0x1_0000_0000;
    ToJsonDecodes(UintValue(n));
  }

  lemma UnsignedAlikeIff(m: uint64, n: uint64)
    ensures Events(UintValue(m)) == Events(UintValue(n)) <==> (m - n) % 0x1_0000_0000 == 0
  {
    assert Events(UintValue(m)) == [Number(m % TWO_32)] && Events(UintValue(n)) == [Number(n % TWO_32)];
    assert [Number(m % TWO_32)][0] == Number(m % TWO_32) && [Number(n % TWO_32)][0] == Number(n % TWO_32);
  }

  // ---------------------------------------------------------------- member names

  ghost function KeysOf(members: seq<Member>): seq<string> {
    seq(|members|, i requires 0 <= i < |members| => members[i].key)
  }

  /** Cutting at the first NUL keeps the order of std::string, except that names may become equal. */
  lemma CutKeepsOrder(a: string, b: string)
    requires LexLess(a, b)
    ensures LexLeq(CStr(a), CStr(b))
  {
    if a != [] && a[0] != '\0' && a[0] == b[0] {
      CutKeepsOrder(a[1..], b[1..]);
      assert CStr(a)[1..] == CStr(a[1..]) && CStr(b)[1..] == CStr(b[1..]);
    }
  }

  predicate WeaklyAscending(keys: seq<string>) {
    forall i, j | 0 <= i < j < |keys| :: LexLeq(keys[i], keys[j])
  }

  predicate Distinct(keys: seq<string>) {
    forall i, j | 0 <= i < j < |keys| :: keys[i] != keys[j]
  }

  /** No two names become equal when they are cut at the first NUL. */
  predicate StayApart(names: set<string>) {
    forall k, l | k in names && l in names && CStr(k) == CStr(l) :: k == l
  }

  /** Object members always come out in weakly ascending order of their names. */
  lemma MembersAscend(m: map<string, Value>)
    ensures WeaklyAscending(KeysOf(Meaning(MapValue(m)).members))
  {
    var keys, out := Ordered(m.Keys), KeysOf(Meaning(MapValue(m)).members);
    OrderedAscends(m.Keys);
    forall i, j | 0 <= i < j < |out| ensures LexLeq(out[i], out[j]) {
      CutKeepsOrder(keys[i], keys[j]);
    }
  }

  /** They are unique, and then strictly ascending, if and only if no two names agree up to their
      first NUL. */
  lemma MembersUniqueIff(m: map<string, Value>)
    ensures Distinct(KeysOf(Meaning(MapValue(m)).members)) <==> StayApart(m.Keys)
    ensures Ascending(KeysOf(Meaning(MapValue(m)).members)) <==> StayApart(m.Keys)
  {
    var keys, out := Ordered(m.Keys), KeysOf(Meaning(MapValue(m)).members);
    MembersAscend(m);
    DistinctAscends(out);
    OrderedAscends(m.Keys);
    CutNames(keys, out, m.Keys);
  }

  lemma DistinctAscends(keys: seq<string>)
    requires WeaklyAscending(keys)
    ensures Ascending(keys) <==> Distinct(keys)
  {
    forall i, j | 0 <= i < j < |keys| ensures LexLess(keys[i], keys[j]) <==> keys[i] != keys[j] {
      assert LexLeq(keys[i], keys[j]);
      LexTotal(keys[i], keys[j]);
    }
  }

  lemma CutNames(keys: seq<string>, out: seq<string>, names: set<string>)
    requires (forall x :: x in keys <==> x in names) && Ascending(keys)
    requires |out| == |keys| && forall i | 0 <= i < |keys| :: out[i] == CStr(keys[i])
    ensures Distinct(out) <==> StayApart(names)
  {
    if Distinct(out) {
      forall k, l | k in names && l in names && CStr(k) == CStr(l) ensures k == l {
        var i, j :| 0 <= i < |keys| && keys[i] == k && 0 <= j < |keys| && keys[j] == l;
        assert out[i] == out[j];
      }
    }
    if StayApart(names) {
      forall i, j | 0 <= i < j < |out| ensures out[i] != out[j] {
        assert keys[i] in names && keys[j] in names;
        assert LexLess(keys[i], keys[j]);
        LexTotal(keys[i], keys[j]);
      }
    }
  }

  /** Names that agree up to a NUL: the name "a" comes twice. */
  lemma RepeatedMember(v: Value)
    ensures !Distinct(KeysOf(Meaning(MapValue(map["a\0x" := v, "a\0y" := v])).members))
  {
    var m := map["a\0x" := v, "a\0y" := v];
    assert "a\0x"[2] != "a\0y"[2];
    CutPair("a", "x");
    CutPair("a", "y");
    assert "a" + "\0" + "x" == "a\0x" && "a" + "\0" + "y" == "a\0y";
    assert "a\0x" in m.Keys && "a\0y" in m.Keys;
    MembersUniqueIff(m);
  }

  lemma CutPair(head: string, tail: string)
    requires '\0' !in head
    ensures CStr(head + "\0" + tail) == head
  {
    var s := head + "\0" + tail;
    if head == [] {
      assert s[0] == '\0';
    } else {
      assert s[1..] == head[1..] + "\0" + tail;
      CutPair(head[1..], tail);
    }
  }

  // ---------------------------------------------------------------- values that survive the writing

  /** The document in which nothing is cut or reduced: what the writing is meant to convey. */
  ghost function Literal(v: Value): Document {
    match v
    case StringValue(s) => JString(s)
    case UintValue(n) => JNumber(n)
    case IntValue(n) => JNumber(n)
    case DoubleValue(t) => JDouble(t)
    case ArrayValue(items) => JArray(seq(|items|, i requires 0 <= i < |items| => Literal(items[i])))
    case MapValue(members) =>
      InKeyOrder(members.Keys);
      JObject(Laid(Ordered(members.Keys), map k | k in members :: Literal(members[k])))
  }

  ghost function Laid(keys: seq<string>, d: map<string, Document>): seq<Member>
    requires forall i | 0 <= i < |keys| :: keys[i] in d
  {
    seq(|keys|, i requires 0 <= i < |keys| => Member(keys[i], d[keys[i]]))
  }

  /** No NUL in any string or key, no unsigned number beyond 32 bits. */
  predicate Plain(v: Value) {
    match v
    case StringValue(s) => '\0' !in s
    case UintValue(n) => n < TWO_32
    case IntValue(_) => true
    case DoubleValue(_) => true
    case ArrayValue(items) => forall i | 0 <= i < |items| :: Plain(items[i])
    case MapValue(members) => forall k | k in members :: '\0' !in k && Plain(members[k])
  }

  lemma {:induction false} LiteralIff(v: Value)
    ensures Meaning(v) == Literal(v) <==> Plain(v)
    decreases v, 1
  {
    match v
    case StringValue(s) => CStrKeeps(s);
    case ArrayValue(items) => ArrayLiteralIff(v);
    case MapValue(members) => MapLiteralIff(v);
    case _ =>
  }

  lemma {:induction false} ArrayLiteralIff(v: Value)
    requires v.ArrayValue?
    ensures Meaning(v) == Literal(v) <==> Plain(v)
    decreases v, 0
  {
    var x, y := Meaning(v).items, Literal(v).items;
    forall i | 0 <= i < |v.items| ensures x[i] == y[i] <==> Plain(v.items[i]) {
      LiteralIff(v.items[i]);
    }
    assert x == y <==> forall i | 0 <= i < |v.items| :: x[i] == y[i];
  }

  lemma {:induction false} MapLiteralIff(v: Value)
    requires v.MapValue?
    ensures Meaning(v) == Literal(v) <==> Plain(v)
    decreases v, 0
  {
    var m, keys, x, y := v.members, Ordered(v.members.Keys), Meaning(v).members, Literal(v).members;
    forall i | 0 <= i < |keys| ensures keys[i] in m && (x[i] == y[i] <==> '\0' !in keys[i] && Plain(m[keys[i]])) {
      assert keys[i] in m.Keys;
      CStrKeeps(keys[i]);
      LiteralIff(m[keys[i]]);
    }
    PointwiseIff(keys, x, y, m);
  }

  lemma PointwiseIff(keys: seq<string>, x: seq<Member>, y: seq<Member>, m: map<string, Value>)
    requires |x| == |y| == |keys| && forall k :: k in keys <==> k in m
    requires forall i | 0 <= i < |keys| :: keys[i] in m && (x[i] == y[i] <==> '\0' !in keys[i] && Plain(m[keys[i]]))
    ensures x == y <==> forall k | k in m :: '\0' !in k && Plain(m[k])
  {
    if x == y {
      forall k | k in m ensures '\0' !in k && Plain(m[k]) {
        var i :| 0 <= i < |keys| && keys[i] == k;
      }
    }
  }

  /** What is written decodes to the value itself if and only if no string or key has a NUL and no
      unsigned number exceeds 32 bits. */
  lemma WrittenInFullIff(v: Value)
    ensures Decode(Events(v)) == Some((Literal(v), [])) <==> Plain(v)
  {
    ToJsonDecodes(v);
    LiteralIff(v);
  }

  /** 4 GiB, as a count of bytes, is written as zero. */
  lemma FourGibibytes()
    ensures Events(UintValue(TWO_32)) == Events(UintValue(0)) && Literal(UintValue(TWO_32)) != Literal(UintValue(0))
  {
  }

  // ---------------------------------------------------------------- values with the same document

  /** Equal up to the sign of the number type. */
  ghost predicate Same(v: Value, w: Value) {
    match (v, w)
    case (UintValue(n), IntValue(k)) => n == k
    case (IntValue(k), UintValue(n)) => n == k
    case (ArrayValue(a), ArrayValue(b)) => |a| == |b| && forall i | 0 <= i < |a| :: Same(a[i], b[i])
    case (MapValue(a), MapValue(b)) => a.Keys == b.Keys && forall k | k in a :: Same(a[k], b[k])
    case _ => v == w
  }

  /** The literal document tells any two values apart, up to the sign of the number type. */
  lemma {:induction false} LiteralAlikeIff(v: Value, w: Value)
    ensures Literal(v) == Literal(w) <==> Same(v, w)
    decreases v, 1
  {
    match (v, w)
    case (ArrayValue(a), ArrayValue(b)) => ArraysAlikeIff(v, w);
    case (MapValue(a), MapValue(b)) => MapsAlikeIff(v, w);
    case _ =>
  }

  lemma {:induction false} ArraysAlikeIff(v: Value, w: Value)
    requires v.ArrayValue? && w.ArrayValue?
    ensures Literal(v) == Literal(w) <==> Same(v, w)
    decreases v, 0
  {
    var a, b, x, y := v.items, w.items, Literal(v).items, Literal(w).items;
    assert |x| == |a| && |y| == |b|;
    if |a| == |b| {
      forall i | 0 <= i < |a| ensures x[i] == y[i] <==> Same(a[i], b[i]) {
        LiteralAlikeIff(a[i], b[i]);
      }
      assert x == y <==> forall i | 0 <= i < |a| :: x[i] == y[i];
    }
  }

  ghost function Literals(m: map<string, Value>): map<string, Document> {
    map k | k in m :: Literal(m[k])
  }

  lemma LiteralOfMap(m: map<string, Value>)
    ensures forall k :: k in Ordered(m.Keys) <==> k in Literals(m)
    ensures Literal(MapValue(m)) == JObject(Laid(Ordered(m.Keys), Literals(m)))
  {
    assert Literals(m).Keys == m.Keys;
    assert Literals(m) == map k | k in m :: Literal(m[k]);
  }

  lemma LaidAlike(keys: seq<string>, d: map<string, Document>, keys': seq<string>, d': map<string, Document>)
    requires (forall k :: k in keys <==> k in d) && (forall k :: k in keys' <==> k in d')
    requires Laid(keys, d) == Laid(keys', d')
    ensures keys == keys' && d == d'
  {
    forall i | 0 <= i < |keys| ensures keys[i] == keys'[i] && d[keys[i]] == d'[keys[i]] {
      assert Laid(keys, d)[i] == Laid(keys', d')[i];
    }
    forall k | k in d ensures d[k] == d'[k] {
      var i :| 0 <= i < |keys| && keys[i] == k;
    }
  }

  lemma LaidAlikeIff(keys: seq<string>, d: map<string, Document>, keys': seq<string>, d': map<string, Document>)
    requires (forall k :: k in keys <==> k in d) && (forall k :: k in keys' <==> k in d')
    requires d == d' ==> keys == keys'
    ensures JObject(Laid(keys, d)) == JObject(Laid(keys', d')) <==> d == d'
  {
    if Laid(keys, d) == Laid(keys', d') {
      LaidAlike(keys, d, keys', d');
    }
  }

  lemma MapsMemberwise(a: map<string, Value>, b: map<string, Value>)
    ensures Literal(MapValue(a)) == Literal(MapValue(b)) <==> Literals(a) == Literals(b)
  {
    LiteralOfMap(a);
    LiteralOfMap(b);
    assert Literals(a).Keys == a.Keys && Literals(b).Keys == b.Keys;
    LaidAlikeIff(Ordered(a.Keys), Literals(a), Ordered(b.Keys), Literals(b));
  }

  lemma LiteralsAlikeIff(a: map<string, Value>, b: map<string, Value>)
    ensures Literals(a) == Literals(b) <==> a.Keys == b.Keys && forall k | k in a :: Literal(a[k]) == Literal(b[k])
  {
    assert Literals(a).Keys == a.Keys && Literals(b).Keys == b.Keys;
    if a.Keys == b.Keys {
      assert forall k | k in a :: Literals(a)[k] == Literal(a[k]) && Literals(b)[k] == Literal(b[k]);
    }
  }

  lemma {:induction false} MapsAlikeIff(v: Value, w: Value)
    requires v.MapValue? && w.MapValue?
    ensures Literal(v) == Literal(w) <==> Same(v, w)
    decreases v, 0
  {
    var a, b := v.members, w.members;
    MapsMemberwise(a, b);
    LiteralsAlikeIff(a, b);
    if a.Keys == b.Keys {
      forall k | k in a ensures Literal(a[k]) == Literal(b[k]) <==> Same(a[k], b[k]) {
        LiteralAlikeIff(a[k], b[k]);
      }
    }
  }

  /** On plain values serialisation is injective, up to the sign of the number type. */
  lemma PlainWrittenAlikeIff(v: Value, w: Value)
    requires Plain(v) && Plain(w)
    ensures Events(v) == Events(w) <==> Same(v, w)
  {
    WrittenAlikeIff(v, w);
    LiteralIff(v);
    LiteralIff(w);
    LiteralAlikeIff(v, w);
  }

  // ---------------------------------------------------------------- building maps and arrays

  /** Map_value: m_elements and its mutators. */
  class MapBuilder {
    var elements: map<string, Value>

    constructor ()
      ensures elements == map[]
    {
      elements := map[];
    }

    /** add: a null value is refused, a name that is taken keeps its value. */
    method Add(name: string, value: Option<Value>)
      modifies this
      ensures elements == if value.None? then old(elements) else Emplace(old(elements), name, value.value)
    {
      if value.None? {
        return;
      }
      if name !in elements {
        elements := elements[name := value.value];
      }
    }
  }

  /** Array_value: m_elements and add. */
  class ArrayBuilder {
    var elements: seq<Value>

    constructor ()
      ensures elements == []
    {
      elements := [];
    }

    method Add(value: Option<Value>)
      modifies this
      ensures elements == old(elements) + if value.None? then [] else [value.value]
    {
      if value.None? {
        return;
      }
      elements := elements + [value.value];
    }
  }
}
