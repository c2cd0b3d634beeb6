/** Strings as the C++ code sees them: blanks, trimming, C strings, the order of
    std::string, and decimal numbers. */
module Text {

  datatype Option<+T> = None | Some(value: T)

  lemma Associative<T>(a: seq<T>, b: seq<T>, c: seq<T>)
    ensures a + b + c == a + (b + c)
  {
  }

  lemma TakeDrop<T>(a: seq<T>, b: seq<T>)
    ensures (a + b)[..|a|] == a && (a + b)[|a|..] == b && a <= a + b
  {
  }

  lemma Halves<T>(s: seq<T>, n: nat)
    requires n <= |s|
    ensures s[..n] + s[n..] == s
  {
  }

  lemma LastOfConcat<T>(a: seq<T>, b: seq<T>)
    requires b != []
    ensures (a + b)[..|a + b| - 1] == a + b[..|b| - 1] && (a + b)[|a + b| - 1] == b[|b| - 1]
  {
  }

  /** The position of the first c, or the length when there is none. */
  function IndexOf(s: string, c: char): (k: nat)
    ensures k <= |s| && c !in s[..k]
    ensures k < |s| ==> s[k] == c
  {
    if s == [] || s[0] == c then 0 else
      var k := IndexOf(s[1..], c);
      assert s[..k + 1] == [s[0]] + s[1..][..k];
      k + 1
  }

  lemma IndexOfIs(before: string, rest: string, c: char)
    requires c !in before && (rest == [] || rest[0] == c)
    ensures IndexOf(before + rest, c) == |before|
  {
    var text := before + rest;
    var k := IndexOf(text, c);
    assert forall i | 0 <= i < |before| :: text[i] == before[i];
    assert rest != [] ==> text[|before|] == c;
    assert forall i | 0 <= i < k :: text[i] == text[..k][i];
  }

  // ---------------------------------------------------------------- blanks and trimming

  /** std::isspace in the "C" locale, the classifier of boost::trim. */
  predicate IsSpace(c: char) {
    c == ' ' || '\t' <= c <= '\r'
  }

  /** Blank, tab, line feed, vertical tab, form feed and carriage return. */
  lemma BlanksAre(c: char)
    ensures IsSpace(c) <==> c in {' ', '\t', '\n', 11 as char, 12 as char, '\r'}
  {
  }

  predicate Blank(s: string) {
    forall i | 0 <= i < |s| :: IsSpace(s[i])
  }

  function TrimLeft(s: string): string {
    if s != [] && IsSpace(s[0]) then TrimLeft(s[1..]) else s
  }

  function TrimRight(s: string): string {
    if s != [] && IsSpace(s[|s| - 1]) then TrimRight(s[..|s| - 1]) else s
  }

  /** boost::trim */
  function Trim(s: string): string {
    TrimRight(TrimLeft(s))
  }

  /** No blank at either end: what boost::trim leaves alone. */
  predicate Trimmed(s: string) {
    s == [] || (!IsSpace(s[0]) && !IsSpace(s[|s| - 1]))
  }

  lemma TrimLeftIs(s: string)
    ensures TrimLeft(s) == [] || !IsSpace(TrimLeft(s)[0])
    ensures forall c | c in TrimLeft(s) :: c in s
  {
  }

  lemma TrimRightIs(s: string)
    ensures TrimRight(s) <= s && (TrimRight(s) == [] || !IsSpace(TrimRight(s)[|TrimRight(s)| - 1]))
  {
  }

  /** Trimming leaves no blank at either end and adds nothing. */
  lemma TrimIs(s: string)
    ensures Trimmed(Trim(s)) && forall c | c in Trim(s) :: c in s
  {
    TrimLeftIs(s);
    TrimRightIs(TrimLeft(s));
  }

  lemma {:induction false} TrimRightSplits(s: string) returns (e: string)
    ensures Blank(e) && s == TrimRight(s) + e
  {
    if s != [] && IsSpace(s[|s| - 1]) {
      var e' := TrimRightSplits(s[..|s| - 1]);
      e := e' + [s[|s| - 1]];
      Associative(TrimRight(s), e', [s[|s| - 1]]);
    } else {
      e := [];
    }
  }

  /** line is raw without the blanks around it. */
  ghost predicate Trims(raw: string, line: string) {
    Trimmed(line) && exists d, e :: Blank(d) && Blank(e) && raw == d + line + e
  }

  lemma TrimTrims(s: string)
    ensures Trims(s, Trim(s))
  {
    TrimIs(s);
    var d := TrimLeftSplits(s);
    var e := TrimRightSplits(TrimLeft(s));
    Associative(d, Trim(s), e);
  }

  lemma TrimOfTrimmed(s: string)
    requires Trimmed(s)
    ensures Trim(s) == s
  {
  }

  lemma TrimLeftBlankPrefix(d: string, s: string)
    requires Blank(d)
    ensures TrimLeft(d + s) == TrimLeft(s)
  {
    if d == [] {
      assert d + s == s;
    } else {
      assert (d + s)[1..] == d[1..] + s;
      TrimLeftBlankPrefix(d[1..], s);
    }
  }

  lemma TrimLeftKeepsSuffix(d: string, s: string)
    requires !Blank(d)
    ensures TrimLeft(d + s) == TrimLeft(d) + s
    ensures TrimLeft(d) != [] && !IsSpace(TrimLeft(d)[0])
  {
    if IsSpace(d[0]) {
      assert (d + s)[1..] == d[1..] + s;
      TrimLeftKeepsSuffix(d[1..], s);
    }
  }

  lemma TrimRightBlankSuffix(s: string, d: string)
    requires Blank(d)
    ensures TrimRight(s + d) == TrimRight(s)
  {
    if d == [] {
      assert s + d == s;
    } else {
      assert (s + d)[..|s + d| - 1] == s + d[..|d| - 1];
      TrimRightBlankSuffix(s, d[..|d| - 1]);
    }
  }

  lemma TrimRightKeepsPrefix(s: string, d: string)
    requires !Blank(d)
    ensures TrimRight(s + d) == s + TrimRight(d)
    ensures TrimRight(d) != []
  {
    if IsSpace(d[|d| - 1]) {
      assert (s + d)[..|s + d| - 1] == s + d[..|d| - 1];
      TrimRightKeepsPrefix(s, d[..|d| - 1]);
    }
  }

  lemma {:induction false} TrimLeftSplits(s: string) returns (d: string)
    ensures Blank(d) && s == d + TrimLeft(s)
    ensures Blank(s) <==> TrimLeft(s) == []
    ensures Blank(TrimLeft(s)) ==> TrimLeft(s) == []
  {
    if s != [] && IsSpace(s[0]) {
      var d' := TrimLeftSplits(s[1..]);
      d := [s[0]] + d';
      assert s == [s[0]] + s[1..];
      Associative([s[0]], d', TrimLeft(s));
      assert Blank(s) <==> Blank(s[1..]) by {
        assert forall i | 0 < i < |s| :: s[i] == s[1..][i - 1];
      }
    } else {
      d := [];
    }
  }

  lemma TrimOfBlank(s: string)
    ensures Blank(s) <==> Trim(s) == []
  {
    var _ := TrimLeftSplits(s);
    if !Blank(s) {
      assert [] + TrimLeft(s) == TrimLeft(s);
      TrimRightKeepsPrefix([], TrimLeft(s));
    }
  }

  /** A prefix d disappears in trimming exactly when it is blank; otherwise the trimmed
      string gets longer. */
  lemma TrimWithPrefix(d: string, s: string)
    ensures Blank(d) ==> Trim(d + s) == Trim(s)
    ensures !Blank(d) ==> |Trim(d + s)| > |Trim(s)|
  {
    if Blank(d) {
      TrimLeftBlankPrefix(d, s);
    } else {
      TrimLeftKeepsSuffix(d, s);
      var t := TrimLeft(d);
      var b := TrimLeftSplits(s);
      if Blank(s) {
        TrimOfBlank(s);
        assert Trim(d + s) == TrimRight(t + s);
        TrimRightBlankSuffix(t, s);
        TrimOfBlank(t);
        assert TrimLeft(t) == t;
      } else {
        TrimRightKeepsPrefix(t, s);
        TrimRightKeepsPrefix(b, TrimLeft(s));
      }
    }
  }

  // ---------------------------------------------------------------- C strings

  /** s.c_str() read back as a C string: everything before the first NUL. */
  function CStr(s: string): string {
    if s == [] || s[0] == '\0' then [] else [s[0]] + CStr(s[1..])
  }

  lemma CStrKeeps(s: string)
    ensures CStr(s) == s <==> '\0' !in s
    ensures '\0' !in CStr(s)
  {
  }

  // ---------------------------------------------------------------- the order of std::string

  predicate LexLess(a: string, b: string) {
    b != [] && (a == [] || a[0] < b[0] || (a[0] == b[0] && LexLess(a[1..], b[1..])))
  }

  /** A proper prefix, or smaller at the first difference. */
  lemma {:induction false} LexLessIff(a: string, b: string)
    ensures LexLess(a, b) <==> exists k: nat :: LessAt(a, b, k)
  {
    if a != [] && b != [] && a[0] == b[0] {
      LexLessIff(a[1..], b[1..]);
      if LexLess(a, b) {
        var k: nat :| LessAt(a[1..], b[1..], k);
        assert a[..k + 1] == [a[0]] + a[1..][..k] && b[..k + 1] == [b[0]] + b[1..][..k];
        assert LessAt(a, b, k + 1);
      }
      if k: nat :| LessAt(a, b, k) {
        assert a[1..][..k - 1] == a[1..k] == a[..k][1..] && b[1..][..k - 1] == b[1..k] == b[..k][1..];
        assert LessAt(a[1..], b[1..], k - 1);
      }
    } else if LexLess(a, b) {
      assert LessAt(a, b, 0);
    } else if k: nat :| LessAt(a, b, k) {
      SameStart(a, b, k);
    }
  }

  lemma SameStart(a: string, b: string, k: nat)
    requires LessAt(a, b, k)
    ensures b != [] && if k == 0 then a == [] || a[0] < b[0] else a != [] && a[0] == b[0]
  {
    if k > 0 {
      assert a[0] == a[..k][0] && b[0] == b[..k][0];
    }
  }

  predicate LessAt(a: string, b: string, k: nat) {
    k < |b| && k <= |a| && a[..k] == b[..k] && (k == |a| || a[k] < b[k])
  }

  predicate LexLeq(a: string, b: string) {
    a == b || LexLess(a, b)
  }

  lemma LexTotal(a: string, b: string)
    ensures LexLess(a, b) || a == b || LexLess(b, a)
    ensures !(LexLess(a, b) && LexLess(b, a))
    ensures LexLess(a, b) ==> a != b
  {
    if a != [] && b != [] {
      LexTotal(a[1..], b[1..]);
      assert a == [a[0]] + a[1..] && b == [b[0]] + b[1..];
    }
  }

  lemma LexTransitive(a: string, b: string, c: string)
    requires LexLess(a, b) && LexLess(b, c)
    ensures LexLess(a, c)
  {
    if a != [] && a[0] == b[0] == c[0] {
      LexTransitive(a[1..], b[1..], c[1..]);
    }
  }

  /** k comes first when a std::map with these keys is iterated. */
  predicate IsLeast(k: string, s: set<string>) {
    k in s && forall x | x in s :: LexLeq(k, x)
  }

  lemma LeastExists(s: set<string>) returns (k: string)
    requires s != {}
    ensures IsLeast(k, s)
  {
    k :| k in s;
    if s != {k} {
      assert s - {k} != {} by { assert s == {k} + (s - {k}); }
      var k' := LeastExists(s - {k});
      LexTotal(k, k');
      if LexLess(k', k) {
        k := k';
      } else {
        forall x | x in s && x != k ensures LexLess(k, x) {
          assert LexLeq(k', x);
          if k' != x { LexTransitive(k, k', x); }
        }
      }
    }
  }

  lemma LeastUnique(k: string, k': string, s: set<string>)
    requires IsLeast(k, s) && IsLeast(k', s)
    ensures k == k'
  {
    LexTotal(k, k');
  }

  ghost function Least(s: set<string>): (k: string)
    requires s != {}
    ensures IsLeast(k, s)
  {
    assert exists k :: IsLeast(k, s) by { var k := LeastExists(s); }
    var k :| IsLeast(k, s);
    k
  }

  /** The keys of a std::map in iteration order. */
  ghost function Ordered(s: set<string>): (r: seq<string>)
    ensures |r| == |s| && forall x :: x in r <==> x in s
  {
    if s == {} then [] else
      var k := Least(s);
      assert s == {k} + (s - {k});
      [k] + Ordered(s - {k})
  }

  lemma OrderedStep(s: set<string>, k: string)
    requires IsLeast(k, s)
    ensures Ordered(s) == [k] + Ordered(s - {k})
  {
    LeastUnique(k, Least(s), s);
  }

  /** Iterating over a std::map with these keys. */
  method InOrder(s: set<string>) returns (keys: seq<string>)
    ensures keys == Ordered(s)
  {
    keys := [];
    var rest := s;
    while rest != {}
      invariant keys + Ordered(rest) == Ordered(s)
      decreases |rest|
    {
      assert IsLeast(Least(rest), rest);
      var k :| IsLeast(k, rest);
      OrderedStep(rest, k);
      Associative(keys, [k], Ordered(rest - {k}));
      keys, rest := keys + [k], rest - {k};
    }
  }

  lemma TakeOneMore<T>(s: seq<T>, i: nat)
    requires i < |s|
    ensures s[..i + 1] == s[..i] + [s[i]]
  {
  }

  lemma TakeAll<T>(s: seq<T>)
    ensures s[..|s|] == s
  {
  }

  predicate Ascending(keys: seq<string>) {
    forall i, j | 0 <= i < j < |keys| :: LexLess(keys[i], keys[j])
  }

  lemma OrderedAscends(s: set<string>)
    ensures Ascending(Ordered(s))
  {
    if s != {} {
      var k, rest := Least(s), s - {Least(s)};
      OrderedAscends(rest);
      forall x | x in rest ensures LexLess(k, x) {
        assert LexLeq(k, x);
      }
      AscendingCons(k, Ordered(rest));
    }
  }

  lemma AscendingCons(k: string, keys: seq<string>)
    requires Ascending(keys) && forall x | x in keys :: LexLess(k, x)
    ensures Ascending([k] + keys)
  {
    var all := [k] + keys;
    forall i, j | 0 <= i < j < |all| ensures LexLess(all[i], all[j]) {
      assert all[j] == keys[j - 1];
      if 0 < i { assert all[i] == keys[i - 1]; }
    }
  }

  // ---------------------------------------------------------------- the order of int keys

  lemma EmptyOrNot(s: set<int>)
    ensures s == {} || exists x :: x in s
  {
    assert (forall x :: x !in s) ==> s == {};
  }

  lemma {:induction false} LeastInt(s: set<int>) returns (k: int)
    requires s != {}
    ensures k in s && forall r | r in s :: k <= r
  {
    EmptyOrNot(s);
    k :| k in s;
    if s != {k} {
      ghost var x, rest := k, s - {k};
      assert rest != {} by { assert s == {x} + rest; }
      var least := LeastInt(rest);
      k := if x < least then x else least;
      forall r | r in s ensures k <= r {
        assert r == x || r in rest;
      }
    }
  }

  // ---------------------------------------------------------------- decimal numbers

  predicate IsDigit(c: char) {
    '0' <= c <= '9'
  }

  predicate Digits(s: string) {
    forall i | 0 <= i < |s| :: IsDigit(s[i])
  }

  function Decimal(n: nat): (s: string)
    ensures s != [] && Digits(s)
  {
    var d := [(n % 10) as char + '0'];
    if n < 10 then d else Decimal(n / 10) + d
  }

  /** The number a string of digits denotes; std::stoi on such a string, before its range test. */
  function DecimalValue(s: string): nat
    requires Digits(s)
  {
    if s == [] then 0 else 10 * DecimalValue(s[..|s| - 1]) + (s[|s| - 1] as int - '0' as int)
  }

  lemma DecimalRoundTrip(n: nat)
    ensures DecimalValue(Decimal(n)) == n
  {
    var s := Decimal(n);
    if n >= 10 {
      assert s[..|s| - 1] == Decimal(n / 10);
      DecimalRoundTrip(n / 10);
    }
  }
}
