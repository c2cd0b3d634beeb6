/** std::map::emplace in a row: the first value of a key stays. */
module FirstWins {
  import opened Text

  function Emplace<V>(m: map<string, V>, key: string, value: V): map<string, V> {
    if key in m then m else m[key := value]
  }

  function EmplaceAll<V>(m: map<string, V>, pairs: seq<(string, V)>): map<string, V> {
    if pairs == [] then m else
      var last := pairs[|pairs| - 1];
      Emplace(EmplaceAll(m, pairs[..|pairs| - 1]), last.0, last.1)
  }

  /** The value of the first pair with this key. */
  function FirstOf<V>(pairs: seq<(string, V)>, key: string): Option<V> {
    if pairs == [] then None
    else if pairs[0].0 == key then Some(pairs[0].1)
    else FirstOf(pairs[1..], key)
  }

  lemma FirstOfAppend<V>(a: seq<(string, V)>, b: seq<(string, V)>, key: string)
    ensures FirstOf(a + b, key) == if FirstOf(a, key).Some? then FirstOf(a, key) else FirstOf(b, key)
  {
    if a == [] {
      assert a + b == b;
    } else {
      assert (a + b)[1..] == a[1..] + b;
    }
  }

  lemma FirstOfIs<V>(pairs: seq<(string, V)>, key: string)
    ensures FirstOf(pairs, key).None? <==> forall p | p in pairs :: p.0 != key
    ensures FirstOf(pairs, key).Some? ==> (key, FirstOf(pairs, key).value) in pairs
  {
  }

  /** The pair stands somewhere, and no pair before it has its key. */
  predicate FirstAt<V(==)>(pairs: seq<(string, V)>, key: string, value: V, i: nat) {
    i < |pairs| && pairs[i] == (key, value) && forall j | 0 <= j < i :: pairs[j].0 != key
  }

  lemma {:induction false} FirstOfAt<V>(pairs: seq<(string, V)>, key: string, value: V)
    ensures FirstOf(pairs, key) == Some(value) <==> exists i: nat :: FirstAt(pairs, key, value, i)
  {
    if pairs != [] {
      var rest := pairs[1..];
      FirstOfAt(rest, key, value);
      if pairs[0].0 == key {
        if FirstOf(pairs, key) == Some(value) {
          assert FirstAt(pairs, key, value, 0);
        }
        if i: nat :| FirstAt(pairs, key, value, i) {
          assert i == 0;
        }
      } else {
        if FirstOf(pairs, key) == Some(value) {
          var i: nat :| FirstAt(rest, key, value, i);
          assert FirstAt(pairs, key, value, i + 1);
        }
        if i: nat :| FirstAt(pairs, key, value, i) {
          assert forall j | 0 <= j < i - 1 :: rest[j] == pairs[j + 1];
          assert FirstAt(rest, key, value, i - 1);
        }
      }
    }
  }

  function Get<V>(m: map<string, V>, key: string): Option<V> {
    if key in m then Some(m[key]) else None
  }

  /** A key keeps what it had, or else gets the value of its first pair. */
  lemma EmplaceAllIs<V>(m: map<string, V>, pairs: seq<(string, V)>, key: string)
    ensures Get(EmplaceAll(m, pairs), key) == if key in m then Some(m[key]) else FirstOf(pairs, key)
  {
    if pairs != [] {
      var before, last := pairs[..|pairs| - 1], pairs[|pairs| - 1];
      assert pairs == before + [last];
      FirstOfAppend(before, [last], key);
      EmplaceAllIs(m, before, key);
    }
  }

  lemma {:induction false} EmplaceAllAppend<V>(m: map<string, V>, a: seq<(string, V)>, b: seq<(string, V)>)
    ensures EmplaceAll(EmplaceAll(m, a), b) == EmplaceAll(m, a + b)
  {
    if b == [] {
      assert a + b == a;
    } else {
      var before, last := b[..|b| - 1], b[|b| - 1];
      assert a + b == (a + before) + [last];
      assert (a + b)[..|a + b| - 1] == a + before;
      EmplaceAllAppend(m, a, before);
    }
  }

  /** Pairs that all agree with a map and cover it build this map, in whatever order and however
      often they come. */
  lemma EmplaceAllCovers<V>(m: map<string, V>, pairs: seq<(string, V)>)
    requires forall p | p in pairs :: Get(m, p.0) == Some(p.1)
    requires forall k | k in m :: (k, m[k]) in pairs
    ensures EmplaceAll(map[], pairs) == m
  {
    var built: map<string, V> := EmplaceAll(map[], pairs);
    forall k ensures Get(built, k) == Get(m, k) {
      EmplaceAllIs(map[], pairs, k);
      FirstOfIs(pairs, k);
    }
    assert forall k :: k in built <==> Get(built, k).Some?;
    assert forall k :: k in m <==> Get(m, k).Some?;
  }
}
