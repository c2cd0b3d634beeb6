/** The regular expressions that infiniband_extractor.cc uses, with the backtracking semantics of
    an ECMAScript std::regex_search anchored at the start of the line. */
module Regex {
  import opened Text

  /** \d, \w, [\w-], [^"], [^)], \s and the dot, which matches no line terminator. */
  datatype Class = Digit | Word | WordOrHyphen | NotQuote | NotParen | Space | AnyChar

  predicate In(c: char, cls: Class) {
    match cls
    case Digit => IsDigit(c)
    case Word => IsWord(c)
    case WordOrHyphen => IsWord(c) || c == '-'
    case NotQuote => c != '"'
    case NotParen => c != ')'
    case Space => IsSpace(c)
    case AnyChar => c != '\n' && c != '\r'
  }

  predicate IsWord(c: char) {
    IsDigit(c) || 'a' <= c <= 'z' || 'A' <= c <= 'Z' || c == '_'
  }

  /** A chain of items. Slot and Gap are a class repeated at least min times, greedily, with and
      without a capturing group; Group is `(?:\( ([^)]+) \))?`. */
  datatype Pattern =
    | End
    | Lit(text: string, next: Pattern)
    | Slot(cls: Class, min: nat, next: Pattern)
    | Gap(next: Pattern)
    | Group(next: Pattern)

  /** How far s stays in the class. */
  function Run(cls: Class, s: string): (n: nat)
    ensures n <= |s| && (forall i | 0 <= i < n :: In(s[i], cls)) && (n < |s| ==> !In(s[n], cls))
  {
    if s == [] || !In(s[0], cls) then 0 else
      var n := Run(cls, s[1..]);
      assert forall i | 0 < i < n + 1 :: s[i] == s[1..][i - 1];
      n + 1
  }

  /** The classes and least lengths of the captures. */
  function Slots(p: Pattern): seq<(Class, nat)> {
    match p
    case End => []
    case Lit(_, next) => Slots(next)
    case Slot(cls, min, next) => [(cls, min)] + Slots(next)
    case Gap(next) => Slots(next)
    case Group(next) => [(NotParen, 0)] + Slots(next)
  }

  function Fields(p: Pattern): nat {
    |Slots(p)|
  }

  function Prefixed(field: string, r: Option<seq<string>>): Option<seq<string>> {
    if r.None? then None else Some([field] + r.value)
  }

  /** The captures of the first match in the order a backtracking matcher tries: the longest
      repetition first, the optional group first present, then absent (and captured as empty). */
  function Match(p: Pattern, s: string): (r: Option<seq<string>>)
    ensures r.Some? ==> |r.value| == Fields(p)
    decreases p, 0
  {
    match p
    case End => if s == [] then Some([]) else None
    case Lit(text, next) => if text <= s then Match(next, s[|text|..]) else None
    case Slot(cls, min, next) => TrySlot(cls, min, next, s, Run(cls, s))
    case Gap(next) => TryGap(next, s, Run(Space, s))
    case Group(next) =>
      var present := if s != [] && s[0] == '(' then TryGroup(next, s[1..], Run(NotParen, s[1..])) else None;
      if present.Some? then present else Prefixed([], Match(next, s))
  }

  /** Repetitions of length n, n - 1, ..., min. */
  function TrySlot(cls: Class, min: nat, next: Pattern, s: string, n: nat): (r: Option<seq<string>>)
    requires n <= |s|
    ensures r.Some? ==> |r.value| == 1 + Fields(next)
    decreases next, 1, n
  {
    if n < min then None else
      var r := Prefixed(s[..n], Match(next, s[n..]));
      if r.Some? || n == 0 then r else TrySlot(cls, min, next, s, n - 1)
  }

  function TryGap(next: Pattern, s: string, n: nat): (r: Option<seq<string>>)
    requires n <= |s|
    ensures r.Some? ==> |r.value| == Fields(next)
    decreases next, 1, n
  {
    if n < 1 then None else
      var r := Match(next, s[n..]);
      if r.Some? then r else TryGap(next, s, n - 1)
  }

  /** `[^)]+` of length n, n - 1, ..., 1 and then the closing parenthesis. */
  function TryGroup(next: Pattern, s: string, n: nat): (r: Option<seq<string>>)
    requires n <= |s|
    ensures r.Some? ==> |r.value| == 1 + Fields(next)
    decreases next, 1, n
  {
    if n < 1 then None else
      var r := if n < |s| && s[n] == ')' then Prefixed(s[..n], Match(next, s[n + 1..])) else None;
      if r.Some? then r else TryGroup(next, s, n - 1)
  }

  // ---------------------------------------------------------------- writing a line for a pattern

  function Gaps(p: Pattern): nat {
    match p
    case End => 0
    case Lit(_, next) => Gaps(next)
    case Slot(_, _, next) => Gaps(next)
    case Gap(next) => 1 + Gaps(next)
    case Group(next) => Gaps(next)
  }

  /** A line of this form with the given captures and the given stretches of blanks. */
  function Write(p: Pattern, fields: seq<string>, gaps: seq<string>): string
    requires |fields| == Fields(p) && |gaps| == Gaps(p)
  {
    match p
    case End => []
    case Lit(text, next) => text + Write(next, fields, gaps)
    case Slot(_, _, next) => fields[0] + Write(next, fields[1..], gaps)
    case Gap(next) => gaps[0] + Write(next, fields, gaps[1..])
    case Group(next) =>
      (if fields[0] == [] then [] else "(" + (fields[0] + ")")) + Write(next, fields[1..], gaps)
  }

  predicate AllIn(s: string, cls: Class) {
    forall i | 0 <= i < |s| :: In(s[i], cls)
  }

  /** Each field can be captured by its slot. */
  predicate Capturable(p: Pattern, fields: seq<string>) {
    |fields| == Fields(p) && forall i | 0 <= i < |fields| :: AllIn(fields[i], Slots(p)[i].0) && Slots(p)[i].1 <= |fields[i]|
  }

  predicate Blanks(gaps: seq<string>) {
    forall i | 0 <= i < |gaps| :: gaps[i] != [] && AllIn(gaps[i], Space)
  }

  /** In a form that leaves no choice, what follows a repetition cannot continue it: a literal that
      starts outside the class, blanks outside the class, a field of a disjoint class, or the end.
      A last field `(.*)` behind a repetition is the one place where this depends on the field. */
  predicate NoChoice(p: Pattern) {
    match p
    case End => true
    case Lit(_, next) => NoChoice(next)
    case Slot(cls, _, next) => Stops(next, cls) && NoChoice(next)
    case Gap(next) => Stops(next, Space) && NoChoice(next)
    case Group(next) => (next.Gap? || (next.Lit? && next.text != [] && next.text[0] != '(')) && NoChoice(next)
  }

  predicate Stops(p: Pattern, cls: Class) {
    match p
    case End => true
    case Lit(text, _) => text != [] && !In(text[0], cls)
    case Slot(AnyChar, _, next) => next.End?
    case Slot(cls', min, _) => 1 <= min && cls.Space? && cls' in {Digit, Word, WordOrHyphen}
    case Gap(_) => cls in {Digit, Word, WordOrHyphen}
    case Group(_) => false
  }

  /** The class of the repetition right before a final `(.*)`. */
  function BeforeRest(p: Pattern): Option<Class> {
    match p
    case End => None
    case Lit(_, next) => BeforeRest(next)
    case Slot(cls, _, next) => if next.Slot? && next.cls.AnyChar? then Some(cls) else BeforeRest(next)
    case Gap(next) => if next.Slot? && next.cls.AnyChar? then Some(Space) else BeforeRest(next)
    case Group(next) => BeforeRest(next)
  }

  /** The final field does not continue the repetition before it. */
  predicate RestApart(p: Pattern, fields: seq<string>) {
    BeforeRest(p).Some? && fields != [] ==> Apart(fields[|fields| - 1], BeforeRest(p).value)
  }

  predicate Apart(s: string, cls: Class) {
    s == [] || !In(s[0], cls)
  }

  lemma {:induction false} RunIs(cls: Class, field: string, rest: string)
    requires AllIn(field, cls) && Apart(rest, cls)
    ensures Run(cls, field + rest) == |field|
    ensures (field + rest)[..|field|] == field && (field + rest)[|field|..] == rest
  {
    if field == [] {
      assert field + rest == rest;
    } else {
      assert In(field[0], cls) && (field + rest)[1..] == field[1..] + rest;
      RunIs(cls, field[1..], rest);
    }
  }

  lemma StopsSound(p: Pattern, cls: Class, fields: seq<string>, gaps: seq<string>)
    requires |fields| == Fields(p) && |gaps| == Gaps(p) && Capturable(p, fields) && Blanks(gaps) && Stops(p, cls)
    requires p.Slot? && p.cls.AnyChar? ==> Apart(fields[0], cls)
    ensures Apart(Write(p, fields, gaps), cls)
  {
    match p
    case End =>
    case Lit(_, _) =>
    case Slot(cls', _, next) =>
      if cls'.AnyChar? {
        assert Write(p, fields, gaps) == fields[0];
      } else {
        assert In(fields[0][0], cls');
        assert Write(p, fields, gaps)[0] == fields[0][0];
      }
    case Gap(_) =>
      assert In(gaps[0][0], Space);
      assert Write(p, fields, gaps)[0] == gaps[0][0];
  }

  lemma CapturableTail(p: Pattern, fields: seq<string>)
    requires Capturable(p, fields) && (p.Slot? || p.Group?)
    ensures Capturable(p.next, fields[1..])
    ensures p.Slot? ==> AllIn(fields[0], p.cls) && p.min <= |fields[0]|
    ensures p.Group? ==> AllIn(fields[0], NotParen)
  {
    assert Slots(p)[1..] == Slots(p.next);
    assert forall i | 0 <= i < |fields| - 1 :: fields[1..][i] == fields[i + 1] && Slots(p.next)[i] == Slots(p)[i + 1];
  }

  lemma RestApartTail(p: Pattern, fields: seq<string>, tail: seq<string>)
    requires !p.End? && NoChoice(p) && |fields| == Fields(p) && RestApart(p, fields)
    requires tail == if p.Slot? || p.Group? then fields[1..] else fields
    ensures RestApart(p.next, tail)
    ensures p.next.Slot? && p.next.cls.AnyChar? && p.Slot? ==> tail != [] && Apart(tail[0], p.cls)
    ensures p.next.Slot? && p.next.cls.AnyChar? && p.Gap? ==> tail != [] && Apart(tail[0], Space)
  {
    if p.next.Slot? && p.next.cls.AnyChar? && (p.Slot? || p.Gap?) {
      assert p.next.next.End? && Slots(p.next.next) == [];
      assert |Slots(p.next)| == 1;
      assert tail[0] == fields[|fields| - 1];
    }
  }

  lemma LitMatches(text: string, next: Pattern, rest: string)
    ensures Match(Lit(text, next), text + rest) == Match(next, rest)
  {
    assert (text + rest)[|text|..] == rest;
  }

  lemma SlotMatches(cls: Class, min: nat, next: Pattern, field: string, rest: string)
    requires AllIn(field, cls) && min <= |field| && Apart(rest, cls) && Match(next, rest).Some?
    ensures Match(Slot(cls, min, next), field + rest) == Some([field] + Match(next, rest).value)
  {
    RunIs(cls, field, rest);
  }

  lemma GapMatches(next: Pattern, gap: string, rest: string)
    requires AllIn(gap, Space) && gap != [] && Apart(rest, Space) && Match(next, rest).Some?
    ensures Match(Gap(next), gap + rest) == Match(next, rest)
  {
    RunIs(Space, gap, rest);
  }

  lemma AbsentMatches(next: Pattern, rest: string)
    requires rest == [] || rest[0] != '('
    ensures Match(Group(next), rest) == Prefixed([], Match(next, rest))
  {
  }

  lemma PresentMatches(next: Pattern, field: string, rest: string)
    requires AllIn(field, NotParen) && field != [] && Match(next, rest).Some?
    ensures Match(Group(next), "(" + (field + ")") + rest) == Some([field] + Match(next, rest).value)
  {
    var s, inner := "(" + (field + ")") + rest, field + (")" + rest);
    Associative("(", field + ")", rest);
    Associative(field, ")", rest);
    assert s[0] == '(' && s[1..] == inner;
    RunIs(NotParen, field, ")" + rest);
    ClosedAt(field, rest);
  }

  lemma ClosedAt(field: string, rest: string)
    ensures var inner := field + (")" + rest);
            |field| < |inner| && inner[|field|] == ')' && inner[|field| + 1..] == rest && inner[..|field|] == field
  {
  }

  /** Matching what was written recovers the fields, whatever the blanks: the first choice of the
      backtracking matcher is the right one everywhere. */
  lemma {:induction false} MatchWritten(p: Pattern, fields: seq<string>, gaps: seq<string>)
    requires |fields| == Fields(p) && |gaps| == Gaps(p)
    requires NoChoice(p) && Capturable(p, fields) && Blanks(gaps) && RestApart(p, fields)
    ensures Match(p, Write(p, fields, gaps)) == Some(fields)
  {
    match p
    case End =>
    case Lit(text, next) =>
      RestApartTail(p, fields, fields);
      MatchWritten(next, fields, gaps);
      LitMatches(text, next, Write(next, fields, gaps));
    case Slot(cls, min, next) =>
      var field, tail := fields[0], fields[1..];
      CapturableTail(p, fields);
      RestApartTail(p, fields, tail);
      MatchWritten(next, tail, gaps);
      StopsSound(next, cls, tail, gaps);
      SlotMatches(cls, min, next, field, Write(next, tail, gaps));
      HeadAndTail(fields);
    case Gap(next) =>
      RestApartTail(p, fields, fields);
      MatchWritten(next, fields, gaps[1..]);
      StopsSound(next, Space, fields, gaps[1..]);
      GapMatches(next, gaps[0], Write(next, fields, gaps[1..]));
    case Group(next) =>
      CapturableTail(p, fields);
      RestApartTail(p, fields, fields[1..]);
      MatchWritten(next, fields[1..], gaps);
      HeadAndTail(fields);
      GroupWritten(next, fields[0], fields[1..], gaps);
  }

  lemma HeadAndTail<T>(s: seq<T>)
    requires s != []
    ensures s == [s[0]] + s[1..]
  {
  }

  lemma GroupWritten(next: Pattern, field: string, fields: seq<string>, gaps: seq<string>)
    requires |fields| == Fields(next) && |gaps| == Gaps(next) && NoChoice(Group(next)) && Blanks(gaps)
    requires AllIn(field, NotParen) && Match(next, Write(next, fields, gaps)) == Some(fields)
    ensures Match(Group(next), (if field == [] then [] else "(" + (field + ")")) + Write(next, fields, gaps))
         == Some([field] + fields)
  {
    var rest := Write(next, fields, gaps);
    if field == [] {
      assert [] + rest == rest;
      if next.Gap? {
        assert In(gaps[0][0], Space) && rest[0] == gaps[0][0];
      } else {
        assert rest[0] == next.text[0];
      }
      AbsentMatches(next, rest);
    } else {
      PresentMatches(next, field, rest);
    }
  }

  // ---------------------------------------------------------------- what a match has captured

  lemma CapturableCons(p: Pattern, field: string, tail: seq<string>)
    requires (p.Slot? && AllIn(field, p.cls) && p.min <= |field|) || (p.Group? && AllIn(field, NotParen))
    requires Capturable(p.next, tail)
    ensures Capturable(p, [field] + tail)
  {
    var fields, slots := [field] + tail, Slots(p);
    forall i | 0 <= i < |fields| ensures AllIn(fields[i], slots[i].0) && slots[i].1 <= |fields[i]| {
      if 0 < i {
        assert fields[i] == tail[i - 1] && slots[i] == Slots(p.next)[i - 1];
      }
    }
  }

  predicate NoBreaks(texts: seq<string>) {
    forall i | 0 <= i < |texts| :: '\n' !in texts[i]
  }

  lemma RunTake(cls: Class, s: string, n: nat)
    requires n <= Run(cls, s)
    ensures AllIn(s[..n], cls) && |s[..n]| == n
  {
    assert forall i | 0 <= i < n :: s[..n][i] == s[i];
  }

  /** Every capture of a match lies in its class, has at least its least length, and has no line
      break when the line has none. */
  lemma {:induction false} MatchCaptures(p: Pattern, s: string)
    requires Match(p, s).Some?
    ensures Capturable(p, Match(p, s).value) && ('\n' !in s ==> NoBreaks(Match(p, s).value))
    decreases p, 0
  {
    match p
    case End =>
    case Lit(text, next) => MatchCaptures(next, s[|text|..]);
    case Slot(cls, min, next) => SlotCaptures(cls, min, next, s, Run(cls, s));
    case Gap(next) => GapCaptures(next, s, Run(Space, s));
    case Group(next) =>
      if s != [] && s[0] == '(' && TryGroup(next, s[1..], Run(NotParen, s[1..])).Some? {
        GroupCaptures(next, s[1..], Run(NotParen, s[1..]));
      } else {
        MatchCaptures(next, s);
        CapturableCons(p, [], Match(next, s).value);
      }
  }

  lemma {:induction false} SlotCaptures(cls: Class, min: nat, next: Pattern, s: string, n: nat)
    requires n <= Run(cls, s) && TrySlot(cls, min, next, s, n).Some?
    ensures Capturable(Slot(cls, min, next), TrySlot(cls, min, next, s, n).value)
    ensures '\n' !in s ==> NoBreaks(TrySlot(cls, min, next, s, n).value)
    decreases next, 1, n
  {
    if Match(next, s[n..]).Some? {
      MatchCaptures(next, s[n..]);
      RunTake(cls, s, n);
      CapturableCons(Slot(cls, min, next), s[..n], Match(next, s[n..]).value);
    } else {
      SlotCaptures(cls, min, next, s, n - 1);
    }
  }

  lemma {:induction false} GapCaptures(next: Pattern, s: string, n: nat)
    requires n <= |s| && TryGap(next, s, n).Some?
    ensures Capturable(next, TryGap(next, s, n).value) && ('\n' !in s ==> NoBreaks(TryGap(next, s, n).value))
    decreases next, 1, n
  {
    if Match(next, s[n..]).Some? {
      MatchCaptures(next, s[n..]);
    } else {
      GapCaptures(next, s, n - 1);
    }
  }

  lemma {:induction false} GroupCaptures(next: Pattern, s: string, n: nat)
    requires n <= Run(NotParen, s) && TryGroup(next, s, n).Some?
    ensures Capturable(Group(next), TryGroup(next, s, n).value) && ('\n' !in s ==> NoBreaks(TryGroup(next, s, n).value))
    decreases next, 1, n
  {
    if n < |s| && s[n] == ')' && Match(next, s[n + 1..]).Some? {
      MatchCaptures(next, s[n + 1..]);
      RunTake(NotParen, s, n);
      CapturableCons(Group(next), s[..n], Match(next, s[n + 1..]).value);
    } else {
      GroupCaptures(next, s, n - 1);
    }
  }

  // ---------------------------------------------------------------- what a match needs

  /** A capture behind which a character outside its class must follow ends where the class ends. */
  lemma {:induction false} SlotEndsRun(cls: Class, min: nat, text: string, next: Pattern, s: string, n: nat)
    requires n <= Run(cls, s) && text != [] && !In(text[0], cls)
    requires TrySlot(cls, min, Lit(text, next), s, n).Some?
    ensures n == Run(cls, s) && min <= n && text <= s[n..] && Match(next, s[n + |text|..]).Some?
    decreases n
  {
    var rest := s[n..];
    if text <= rest {
      assert rest[0] == s[n] == text[0];
      assert rest[|text|..] == s[n + |text|..];
    }
    if !(text <= rest) || Match(next, rest[|text|..]).None? {
      SlotEndsRun(cls, min, text, next, s, n - 1);
    }
  }
}
