/** The lines of a dump written out, character by character, as ibnetdiscover prints them, and what
    is read from them. */
module DumpLines {
  import opened Text
  import opened Streams
  import opened FirstWins
  import opened Regex
  import opened Infiniband

  // ---------------------------------------------------------------- the texts in the lines

  predicate IsWordChar(c: char) {
    '0' <= c <= '9' || 'a' <= c <= 'z' || 'A' <= c <= 'Z' || c == '_'
  }

  /** Letters, digits, underscores and hyphens. */
  predicate IsGuid(s: string) {
    s != [] && forall i | 0 <= i < |s| :: IsWordChar(s[i]) || s[i] == '-'
  }

  predicate IsPortType(s: string) {
    s != [] && forall i | 0 <= i < |s| :: IsWordChar(s[i])
  }

  /** What can stand between double quotes. */
  predicate IsQuotable(s: string) {
    s != [] && Trimmed(s) && '"' !in s
  }

  /** What can stand between parentheses. */
  predicate IsBracketable(s: string) {
    s != [] && Trimmed(s) && ')' !in s
  }

  predicate IsSpeed(s: string) {
    Trimmed(s) && '\n' !in s && '\r' !in s
  }

  /** What follows the port type of a switch. */
  predicate IsRemainder(s: string) {
    '\n' !in s && '\r' !in s && (s == [] || !IsWordChar(s[0]))
  }

  predicate IsInt(n: nat) {
    n < 2147483648
  }

  // ---------------------------------------------------------------- the lines

  function SwitchLine(ports: nat, guid: string, description: string, portType: string, remainder: string): string {
    "Switch\t" + (Decimal(ports) + (" \"" + (guid + ("\"\t\t# \"" + (description + ("\" " + (portType + remainder)))))))
  }

  function HostLine(ports: nat, guid: string, description: string): string {
    "Ca\t" + (Decimal(ports) + (" \"" + (guid + ("\"\t\t# \"" + (description + "\"")))))
  }

  /** The end of a connectivity line. */
  function PeerEnd(description: string, lid: nat, speed: string): string {
    description + ("\" lid " + (Decimal(lid) + (" " + speed)))
  }

  function SwitchPortLine(local: nat, guid: string, port: nat, description: string, lid: nat, speed: string): string {
    "[" + (Decimal(local) + ("]\t\"" + (guid + ("\"[" + (Decimal(port) + ("]\t\t# \"" + PeerEnd(description, lid, speed)))))))
  }

  function NamedPortLine(local: nat, guid: string, port: nat, portGuid: string, description: string, lid: nat, speed: string): string {
    "[" + (Decimal(local) + ("]\t\"" + (guid + ("\"[" + (Decimal(port) + ("](" + (portGuid
    + (") \t\t# \"" + PeerEnd(description, lid, speed)))))))))
  }

  function HostPortLine(local: nat, portGuid: string, guid: string, port: nat, localLid: nat, lmc: nat,
                        description: string, lid: nat, speed: string): string {
    "[" + (Decimal(local) + ("](" + (portGuid + (") \t\"" + (guid + ("\"[" + (Decimal(port)
    + ("]\t\t# lid " + (Decimal(localLid) + (" lmc " + (Decimal(lmc) + (" \"" + PeerEnd(description, lid, speed)))))))))))))
  }

  // ---------------------------------------------------------------- writing part by part

  lemma WriteNumber(next: Pattern, fields: seq<string>, gaps: seq<string>)
    requires |fields| == 1 + Fields(next) && |gaps| == Gaps(next)
    ensures Write(Slot(Digit, 1, next), fields, gaps) == fields[0] + Write(next, fields[1..], gaps)
  {
  }

  lemma WriteQuoted(cls: Class, next: Pattern, fields: seq<string>, gaps: seq<string>)
    requires |fields| == 1 + Fields(next) && |gaps| == Gaps(next)
    ensures Fields(Quoted(cls, next)) == |fields| && Gaps(Quoted(cls, next)) == |gaps|
    ensures Write(Quoted(cls, next), fields, gaps) == "\"" + (fields[0] + ("\"" + Write(next, fields[1..], gaps)))
  {
    AboutQuoted(cls, next);
    var slot := Slot(cls, 1, Lit("\"", next));
    assert Write(slot, fields, gaps) == fields[0] + ("\"" + Write(next, fields[1..], gaps));
  }

  lemma WriteBracketed(next: Pattern, fields: seq<string>, gaps: seq<string>)
    requires |fields| == 1 + Fields(next) && |gaps| == Gaps(next)
    ensures Fields(Bracketed(next)) == |fields| && Gaps(Bracketed(next)) == |gaps|
    ensures Write(Bracketed(next), fields, gaps) == "[" + (fields[0] + ("]" + Write(next, fields[1..], gaps)))
  {
    AboutBracketed(next);
    var slot := Slot(Digit, 1, Lit("]", next));
    assert Write(slot, fields, gaps) == fields[0] + ("]" + Write(next, fields[1..], gaps));
  }

  lemma WriteKeyword(word: string, next: Pattern, fields: seq<string>, gaps: seq<string>)
    requires next.Lit? || (next.Slot? && !next.cls.AnyChar?)
    requires |fields| == Fields(next) && |gaps| == 2 + Gaps(next)
    ensures Fields(Keyword(word, next)) == |fields| && Gaps(Keyword(word, next)) == |gaps|
    ensures Write(Keyword(word, next), fields, gaps) == gaps[0] + (word + (gaps[1] + Write(next, fields, gaps[2..])))
  {
    AboutKeyword(word, next);
    var inner := Lit(word, Gap(next));
    assert gaps[1..][1..] == gaps[2..];
    assert Write(inner, fields, gaps[1..]) == word + (gaps[1] + Write(next, fields, gaps[2..]));
  }

  lemma Two(a: string, b: string, rest: string)
    ensures a + (b + rest) == a + b + rest
  {
  }

  lemma Three(a: string, b: string, c: string, rest: string)
    ensures a + (b + (c + rest)) == a + b + c + rest
  {
    Two(a, b, c + rest);
    Two(a + b, c, rest);
  }

  lemma Four(a: string, b: string, c: string, d: string, rest: string)
    ensures a + (b + (c + (d + rest))) == a + b + c + d + rest
  {
    Three(a, b, c, d + rest);
    Two(a + b + c, d, rest);
  }

  lemma Five(a: string, b: string, c: string, d: string, e: string, rest: string)
    ensures a + (b + (c + (d + (e + rest)))) == a + b + c + d + e + rest
  {
    Four(a, b, c, d, e + rest);
    Two(a + b + c + d, e, rest);
  }

  lemma Six(a: string, b: string, c: string, d: string, e: string, f: string, rest: string)
    ensures a + (b + (c + (d + (e + (f + rest))))) == a + b + c + d + e + f + rest
  {
    Five(a, b, c, d, e, f + rest);
    Two(a + b + c + d + e, f, rest);
  }

  lemma HeaderLiterals()
    ensures "Switch" + "\t" == "Switch\t" && "Ca" + "\t" == "Ca\t" && " " + "\"" == " \"" && "\"" + " " == "\" "
    ensures "\"" + "\t\t" + "#" + " " + "\"" == "\"\t\t# \""
  {
  }

  lemma EndLiterals()
    ensures "\"" + " " + "lid" + " " == "\" lid "
  {
  }

  lemma SwitchPortLiterals()
    ensures "]" + "\t" + "\"" == "]\t\"" && "\"" + "[" == "\"["
    ensures "]" + [] + "\t\t" + "#" + " " + "\"" == "]\t\t# \""
    ensures "]" + "(" == "](" && ")" + " \t\t" + "#" + " " + "\"" == ") \t\t# \""
  {
  }

  lemma HostPortLiterals()
    ensures ")" + " \t" + "\"" == ") \t\"" && "\"" + "[" == "\"["
    ensures "]" + "\t\t" + "#" + " " + "lid" + " " == "]\t\t# lid "
    ensures " " + "lmc" + " " == " lmc " && " " + "\"" == " \""
  {
  }

  lemma Slices(s: seq<string>, i: nat, j: nat)
    requires i + j <= |s|
    ensures s[i..][j..] == s[i + j..]
    ensures i + j < |s| ==> s[i..][j] == s[i + j]
  {
  }

  /** A pattern that ends with a class and `(.*)`. */
  lemma WriteLast(cls: Class, min: nat, f: seq<string>)
    requires |f| == 2
    ensures var p := Slot(cls, min, Slot(AnyChar, 0, End)); Fields(p) == 2 && Gaps(p) == 0 && Write(p, f, []) == f[0] + f[1]
  {
    var rest := Slot(AnyChar, 0, End);
    assert Slots(rest) == [(AnyChar, 0)] + Slots(End) && f[1..][0] == f[1];
    assert Write(rest, f[1..], []) == f[1] + [] == f[1];
  }

  lemma SwitchWritten(f: seq<string>, g: seq<string>)
    requires |f| == 5 && |g| == 5
    ensures Fields(SWITCH) == 5 && Gaps(SWITCH) == 5
    ensures Write(SWITCH, f, g)
         == "Switch" + (g[0] + (f[0] + (g[1] + ("\"" + (f[1] + ("\"" + (g[2] + ("#" + (g[3] + ("\"" + (f[2] + ("\"" + (g[4]
            + (f[3] + f[4]))))))))))))))
  {
    AboutSwitch();
    var last := Slot(Word, 1, Slot(AnyChar, 0, End));
    var description := Quoted(NotQuote, Gap(last));
    var guid := Quoted(WordOrHyphen, Keyword("#", description));
    WriteLast(Word, 1, f[3..]);
    assert g[4..][1..] == [];
    Slices(f, 2, 1);
    WriteQuoted(NotQuote, Gap(last), f[2..], g[4..]);
    Slices(g, 2, 2);
    Slices(f, 1, 1);
    WriteKeyword("#", description, f[2..], g[2..]);
    WriteQuoted(WordOrHyphen, Keyword("#", description), f[1..], g[2..]);
    Slices(g, 1, 1);
    WriteNumber(Gap(guid), f, g[1..]);
  }

  lemma SwitchLineIs(ports: nat, guid: string, description: string, portType: string, remainder: string)
    ensures Fields(SWITCH) == 5 && Gaps(SWITCH) == 5
    ensures SwitchLine(ports, guid, description, portType, remainder)
         == Write(SWITCH, [Decimal(ports), guid, description, portType, remainder], ["\t", " ", "\t\t", " ", " "])
  {
    var rest := portType + remainder;
    SwitchWritten([Decimal(ports), guid, description, portType, remainder], ["\t", " ", "\t\t", " ", " "]);
    HeaderLiterals();
    Two("\"", " ", rest);
    Five("\"", "\t\t", "#", " ", "\"", description + ("\" " + rest));
    var inner := guid + ("\"\t\t# \"" + (description + ("\" " + rest)));
    Two(" ", "\"", inner);
    Two("Switch", "\t", Decimal(ports) + (" \"" + inner));
  }

  lemma HostWritten(f: seq<string>, g: seq<string>)
    requires |f| == 3 && |g| == 4
    ensures Fields(HOST) == 3 && Gaps(HOST) == 4
    ensures Write(HOST, f, g)
         == "Ca" + (g[0] + (f[0] + (g[1] + ("\"" + (f[1] + ("\"" + (g[2] + ("#" + (g[3] + ("\"" + (f[2] + "\"")))))))))))
  {
    AboutHost();
    var description := Quoted(NotQuote, End);
    var guid := Quoted(WordOrHyphen, Keyword("#", description));
    assert "\"" + [] == "\"";
    WriteQuoted(NotQuote, End, f[2..], g[4..]);
    Slices(g, 2, 2);
    Slices(f, 1, 1);
    WriteKeyword("#", description, f[2..], g[2..]);
    WriteQuoted(WordOrHyphen, Keyword("#", description), f[1..], g[2..]);
    Slices(g, 1, 1);
    WriteNumber(Gap(guid), f, g[1..]);
  }

  lemma HostLineIs(ports: nat, guid: string, description: string)
    ensures Fields(HOST) == 3 && Gaps(HOST) == 4
    ensures HostLine(ports, guid, description)
         == Write(HOST, [Decimal(ports), guid, description], ["\t", " ", "\t\t", " "])
  {
    HostWritten([Decimal(ports), guid, description], ["\t", " ", "\t\t", " "]);
    HeaderLiterals();
    Five("\"", "\t\t", "#", " ", "\"", description + "\"");
    var inner := guid + ("\"\t\t# \"" + (description + "\""));
    Two(" ", "\"", inner);
    Two("Ca", "\t", Decimal(ports) + (" \"" + inner));
  }

  /** `"description" lid n speed` */
  lemma EndWritten(f: seq<string>, g: seq<string>)
    requires |f| == 3 && |g| == 3
    ensures var p := Quoted(NotQuote, LID_AND_SPEED); Fields(p) == 3 && Gaps(p) == 3
    ensures Write(Quoted(NotQuote, LID_AND_SPEED), f, g)
         == "\"" + (f[0] + ("\"" + (g[0] + ("lid" + (g[1] + (f[1] + (g[2] + f[2])))))))
  {
    AboutEnd();
    var rest := Gap(Slot(AnyChar, 0, End));
    var number := Slot(Digit, 1, rest);
    assert Write(Slot(AnyChar, 0, End), f[2..], []) == f[2] + [] == f[2];
    assert Slots(Slot(AnyChar, 0, End)) == [(AnyChar, 0)] + Slots(End);
    assert g[2..][1..] == [];
    Slices(f, 1, 1);
    WriteNumber(rest, f[1..], g[2..]);
    WriteKeyword("lid", number, f[1..], g);
    WriteQuoted(NotQuote, LID_AND_SPEED, f, g);
  }

  function InParentheses(portGuid: string): string {
    if portGuid == [] then [] else "(" + (portGuid + ")")
  }

  lemma WriteGroup(next: Pattern, f: seq<string>, g: seq<string>)
    requires |f| == 1 + Fields(next) && |g| == Gaps(next)
    ensures Fields(Group(next)) == |f| && Gaps(Group(next)) == |g|
    ensures Write(Group(next), f, g) == InParentheses(f[0]) + Write(next, f[1..], g)
  {
  }

  lemma SwitchPortWritten(f: seq<string>, g: seq<string>)
    requires |f| == 7 && |g| == 6
    ensures Fields(SWITCH_PORT) == 7 && Gaps(SWITCH_PORT) == 6
    ensures Write(SWITCH_PORT, f, g)
         == "[" + (f[0] + ("]" + (g[0] + ("\"" + (f[1] + ("\"" + ("[" + (f[2] + ("]" + (InParentheses(f[3])
            + (g[1] + ("#" + (g[2] + ("\"" + (f[4] + ("\"" + (g[3] + ("lid" + (g[4] + (f[5] + (g[5] + f[6])))))))))))))))))))))
  {
    AboutSwitchPort();
    var peer := Quoted(NotQuote, LID_AND_SPEED);
    var described := Keyword("#", peer);
    var port := Bracketed(Group(described));
    var guid := Quoted(WordOrHyphen, port);
    EndWritten(f[4..], g[3..]);
    Slices(g, 1, 2);
    WriteKeyword("#", peer, f[4..], g[1..]);
    Slices(f, 3, 1);
    WriteGroup(described, f[3..], g[1..]);
    Slices(f, 2, 1);
    WriteBracketed(Group(described), f[2..], g[1..]);
    Slices(f, 1, 1);
    WriteQuoted(WordOrHyphen, port, f[1..], g[1..]);
    WriteBracketed(Gap(guid), f, g);
  }

  lemma HostPortWritten(f: seq<string>, g: seq<string>)
    requires |f| == 9 && |g| == 10
    ensures Fields(HOST_PORT) == 9 && Gaps(HOST_PORT) == 10
    ensures Write(HOST_PORT, f, g)
         == "[" + (f[0] + ("](" + (f[1] + (")" + (g[0] + ("\"" + (f[2] + ("\"" + ("[" + (f[3] + ("]" + (g[1] + ("#" + (g[2]
            + ("lid" + (g[3] + (f[4] + (g[4] + ("lmc" + (g[5] + (f[5] + (g[6] + ("\"" + (f[6] + ("\"" + (g[7] + ("lid" + (g[8]
            + (f[7] + (g[9] + f[8]))))))))))))))))))))))))))))))
  {
    AboutHostPort();
    var peer := Quoted(NotQuote, LID_AND_SPEED);
    var lmc := Slot(Digit, 1, Gap(peer));
    var lid := Slot(Digit, 1, Keyword("lmc", lmc));
    var numbers := Keyword("#", Lit("lid", Gap(lid)));
    EndWritten(f[6..], g[7..]);
    Slices(g, 6, 1);
    Slices(f, 5, 1);
    WriteNumber(Gap(peer), f[5..], g[6..]);
    Slices(g, 4, 2);
    WriteKeyword("lmc", lmc, f[5..], g[4..]);
    Slices(f, 4, 1);
    WriteNumber(Keyword("lmc", lmc), f[4..], g[4..]);
    Slices(g, 3, 1);
    Slices(g, 1, 2);
    WriteKeyword("#", Lit("lid", Gap(lid)), f[4..], g[1..]);
    Slices(f, 3, 1);
    WriteBracketed(numbers, f[3..], g[1..]);
    Slices(f, 2, 1);
    WriteQuoted(NotQuote, Bracketed(numbers), f[2..], g[1..]);
    HostPortHead(Gap(Quoted(NotQuote, Bracketed(numbers))), f, g);
  }

  lemma HostPortHead(next: Pattern, f: seq<string>, g: seq<string>)
    requires |f| == 2 + Fields(next) && |g| == Gaps(next)
    ensures var p := Lit("[", Slot(Digit, 1, Lit("](", Slot(NotParen, 1, Lit(")", next)))));
            && Fields(p) == |f| && Gaps(p) == |g|
            && Write(p, f, g) == "[" + (f[0] + ("](" + (f[1] + (")" + Write(next, f[2..], g)))))
  {
    var guid := Slot(NotParen, 1, Lit(")", next));
    var behind := Lit("](", guid);
    Slices(f, 1, 1);
    assert Slots(guid) == [(NotParen, 1)] + Slots(next) && Gaps(guid) == Gaps(next);
    assert Write(guid, f[1..], g) == f[1] + (")" + Write(next, f[2..], g));
    assert Slots(behind) == Slots(guid) && Gaps(behind) == Gaps(guid);
    assert Write(behind, f[1..], g) == "](" + Write(guid, f[1..], g);
    assert Slots(Slot(Digit, 1, behind)) == [(Digit, 1)] + Slots(behind) && Gaps(Slot(Digit, 1, behind)) == Gaps(behind);
    assert Write(Slot(Digit, 1, behind), f, g) == f[0] + Write(behind, f[1..], g);
  }

  // ---------------------------------------------------------------- the same as the lines above

  lemma PeerEndIs(description: string, lid: string, speed: string)
    ensures "\"" + (description + ("\"" + (" " + ("lid" + (" " + (lid + (" " + speed)))))))
         == "\"" + (description + ("\" lid " + (lid + (" " + speed))))
  {
    EndLiterals();
    Four("\"", " ", "lid", " ", lid + (" " + speed));
  }

  lemma SwitchPortLineIs(local: nat, guid: string, port: nat, description: string, lid: nat, speed: string)
    ensures Fields(SWITCH_PORT) == 7 && Gaps(SWITCH_PORT) == 6
    ensures SwitchPortLine(local, guid, port, description, lid, speed)
         == Write(SWITCH_PORT, [Decimal(local), guid, Decimal(port), [], description, Decimal(lid), speed],
                  ["\t", "\t\t", " ", " ", " ", " "])
  {
    SwitchPortWritten([Decimal(local), guid, Decimal(port), [], description, Decimal(lid), speed],
                      ["\t", "\t\t", " ", " ", " ", " "]);
    PeerEndIs(description, Decimal(lid), speed);
    SwitchPortLiterals();
    var end := PeerEnd(description, lid, speed);
    Six("]", [], "\t\t", "#", " ", "\"", end);
    var behind := Decimal(port) + ("]\t\t# \"" + end);
    Two("\"", "[", behind);
    Three("]", "\t", "\"", guid + ("\"[" + behind));
  }

  lemma NamedPortLineIs(local: nat, guid: string, port: nat, portGuid: string, description: string, lid: nat, speed: string)
    requires portGuid != []
    ensures Fields(SWITCH_PORT) == 7 && Gaps(SWITCH_PORT) == 6
    ensures NamedPortLine(local, guid, port, portGuid, description, lid, speed)
         == Write(SWITCH_PORT, [Decimal(local), guid, Decimal(port), portGuid, description, Decimal(lid), speed],
                  ["\t", " \t\t", " ", " ", " ", " "])
  {
    SwitchPortWritten([Decimal(local), guid, Decimal(port), portGuid, description, Decimal(lid), speed],
                      ["\t", " \t\t", " ", " ", " ", " "]);
    PeerEndIs(description, Decimal(lid), speed);
    SwitchPortLiterals();
    var end := PeerEnd(description, lid, speed);
    var rest := " \t\t" + ("#" + (" " + ("\"" + end)));
    Five(")", " \t\t", "#", " ", "\"", end);
    Associative("(", portGuid + ")", rest);
    Associative(portGuid, ")", rest);
    Two("]", "(", portGuid + (")" + rest));
    var behind := Decimal(port) + ("](" + (portGuid + (") \t\t# \"" + end)));
    Two("\"", "[", behind);
    Three("]", "\t", "\"", guid + ("\"[" + behind));
  }

  lemma HostPortLineIs(local: nat, portGuid: string, guid: string, port: nat, localLid: nat, lmc: nat,
                       description: string, lid: nat, speed: string)
    ensures Fields(HOST_PORT) == 9 && Gaps(HOST_PORT) == 10
    ensures HostPortLine(local, portGuid, guid, port, localLid, lmc, description, lid, speed)
         == Write(HOST_PORT, [Decimal(local), portGuid, guid, Decimal(port), Decimal(localLid), Decimal(lmc), description,
                              Decimal(lid), speed], [" \t", "\t\t", " ", " ", " ", " ", " ", " ", " ", " "])
  {
    HostPortWritten([Decimal(local), portGuid, guid, Decimal(port), Decimal(localLid), Decimal(lmc), description,
                     Decimal(lid), speed], [" \t", "\t\t", " ", " ", " ", " ", " ", " ", " ", " "]);
    PeerEndIs(description, Decimal(lid), speed);
    HostPortLiterals();
    var end := PeerEnd(description, lid, speed);
    Two(" ", "\"", end);
    var a := Decimal(lmc) + (" \"" + end);
    Three(" ", "lmc", " ", a);
    var b := Decimal(localLid) + (" lmc " + a);
    Six("]", "\t\t", "#", " ", "lid", " ", b);
    var c := Decimal(port) + ("]\t\t# lid " + b);
    Two("\"", "[", c);
    Three(")", " \t", "\"", guid + ("\"[" + c));
  }

  // ---------------------------------------------------------------- the fields fit their places

  lemma GuidFits(s: string)
    requires IsGuid(s)
    ensures Filled(s, WordOrHyphen) && Trim(s) == s
  {
    assert forall i | 0 <= i < |s| :: In(s[i], WordOrHyphen);
    TrimOfTrimmed(s);
  }

  lemma PortTypeFits(s: string)
    requires IsPortType(s)
    ensures Filled(s, Word) && Trim(s) == s
  {
    assert forall i | 0 <= i < |s| :: In(s[i], Word);
    TrimOfTrimmed(s);
  }

  lemma QuotableFits(s: string)
    requires IsQuotable(s)
    ensures Filled(s, NotQuote) && Trim(s) == s
  {
    assert forall i | 0 <= i < |s| :: s[i] in s;
    TrimOfTrimmed(s);
  }

  lemma BracketableFits(s: string)
    requires IsBracketable(s)
    ensures Filled(s, NotParen) && Trim(s) == s
  {
    assert forall i | 0 <= i < |s| :: s[i] in s;
    TrimOfTrimmed(s);
  }

  lemma SpeedFits(s: string)
    requires IsSpeed(s)
    ensures AllIn(s, AnyChar) && Apart(s, Space) && Trim(s) == s
  {
    assert forall i | 0 <= i < |s| :: s[i] in s;
    TrimOfTrimmed(s);
  }

  lemma RemainderFits(s: string)
    requires IsRemainder(s)
    ensures AllIn(s, AnyChar) && Apart(s, Word)
  {
    assert forall i | 0 <= i < |s| :: s[i] in s;
  }

  lemma BlankTexts(gaps: seq<string>)
    requires forall i | 0 <= i < |gaps| :: gaps[i] in {" ", "\t", "\t\t", " \t", " \t\t"}
    ensures Blanks(gaps)
  {
    forall i | 0 <= i < |gaps| ensures gaps[i] != [] && AllIn(gaps[i], Space) {
      assert forall k | 0 <= k < |gaps[i]| :: gaps[i][k] == ' ' || gaps[i][k] == '\t';
    }
  }

  // ---------------------------------------------------------------- what is read

  /** A switch. */
  lemma ReadSwitchLine(ports: nat, guid: string, description: string, portType: string, remainder: string)
    requires IsGuid(guid) && IsQuotable(description) && IsPortType(portType) && IsRemainder(remainder)
    ensures Read(SwitchLine(ports, guid, description, portType, remainder))
         == if IsInt(ports) then SwitchRecord(Switch(ports, guid, description, portType)) else Overflow
  {
    var r, layout := SwitchRecord(Switch(ports, guid, description, portType)), Layout(["\t", " ", "\t\t", " ", " "], remainder);
    GuidFits(guid);
    QuotableFits(description);
    PortTypeFits(portType);
    RemainderFits(remainder);
    BlankTexts(layout.gaps);
    SwitchLineIs(ports, guid, description, portType, remainder);
    ReadWritten(r, layout);
  }

  /** A host. */
  lemma ReadHostLine(ports: nat, guid: string, description: string)
    requires IsGuid(guid) && IsQuotable(description)
    ensures Read(HostLine(ports, guid, description))
         == if IsInt(ports) then HostRecord(Host(ports, guid, description)) else Overflow
  {
    var r, layout := HostRecord(Host(ports, guid, description)), Layout(["\t", " ", "\t\t", " "], []);
    GuidFits(guid);
    QuotableFits(description);
    BlankTexts(layout.gaps);
    HostLineIs(ports, guid, description);
    ReadWritten(r, layout);
  }

  /** A connection of a switch, without the guid of the peer's port. */
  lemma ReadSwitchPortLine(local: nat, guid: string, port: nat, description: string, lid: nat, speed: string)
    requires IsGuid(guid) && IsQuotable(description) && IsSpeed(speed)
    ensures Read(SwitchPortLine(local, guid, port, description, lid, speed))
         == if IsInt(local) && IsInt(port) && IsInt(lid)
            then PortRecord(SwitchPort(local, guid, port, [], description, lid, speed)) else Overflow
  {
    var r := PortRecord(SwitchPort(local, guid, port, [], description, lid, speed));
    var layout := Layout(["\t", "\t\t", " ", " ", " ", " "], []);
    GuidFits(guid);
    QuotableFits(description);
    SpeedFits(speed);
    BlankTexts(layout.gaps);
    SwitchPortLineIs(local, guid, port, description, lid, speed);
    ReadWritten(r, layout);
  }

  /** And with it. */
  lemma ReadNamedPortLine(local: nat, guid: string, port: nat, portGuid: string, description: string, lid: nat, speed: string)
    requires IsGuid(guid) && IsBracketable(portGuid) && IsQuotable(description) && IsSpeed(speed)
    ensures Read(NamedPortLine(local, guid, port, portGuid, description, lid, speed))
         == if IsInt(local) && IsInt(port) && IsInt(lid)
            then PortRecord(SwitchPort(local, guid, port, portGuid, description, lid, speed)) else Overflow
  {
    var r := PortRecord(SwitchPort(local, guid, port, portGuid, description, lid, speed));
    var layout := Layout(["\t", " \t\t", " ", " ", " ", " "], []);
    GuidFits(guid);
    BracketableFits(portGuid);
    QuotableFits(description);
    SpeedFits(speed);
    BlankTexts(layout.gaps);
    NamedPortLineIs(local, guid, port, portGuid, description, lid, speed);
    ReadWritten(r, layout);
  }

  /** A connection of a host. */
  lemma ReadHostPortLine(local: nat, portGuid: string, guid: string, port: nat, localLid: nat, lmc: nat,
                         description: string, lid: nat, speed: string)
    requires IsBracketable(portGuid) && IsQuotable(guid) && IsQuotable(description) && IsSpeed(speed)
    ensures Read(HostPortLine(local, portGuid, guid, port, localLid, lmc, description, lid, speed))
         == if IsInt(local) && IsInt(port) && IsInt(localLid) && IsInt(lmc) && IsInt(lid)
            then PortRecord(HostPort(local, portGuid, guid, port, localLid, lmc, description, lid, speed)) else Overflow
  {
    var r := PortRecord(HostPort(local, portGuid, guid, port, localLid, lmc, description, lid, speed));
    var layout := Layout([" \t", "\t\t", " ", " ", " ", " ", " ", " ", " ", " "], []);
    BracketableFits(portGuid);
    QuotableFits(guid);
    QuotableFits(description);
    SpeedFits(speed);
    BlankTexts(layout.gaps);
    HostPortLineIs(local, portGuid, guid, port, localLid, lmc, description, lid, speed);
    ReadWritten(r, layout);
  }

  /** All other lines are ignored: empty ones, and those that begin with another character. */
  lemma ReadOtherLine(line: string)
    requires line == [] || line[0] !in {'S', 'C', '['}
    ensures Read(line) == Other
  {
    if Match(SWITCH, line).Some? { LitFirst(SWITCH.text, SWITCH.next, line); }
    if Match(HOST, line).Some? { LitFirst(HOST.text, HOST.next, line); }
    if Match(SWITCH_PORT, line).Some? { LitFirst(SWITCH_PORT.text, SWITCH_PORT.next, line); }
    if Match(HOST_PORT, line).Some? { LitFirst(HOST_PORT.text, HOST_PORT.next, line); }
  }

  // ---------------------------------------------------------------- an excerpt of a dump

  lemma ThreeLines(a: string, b: string, c: string)
    requires '\n' !in a && '\n' !in b && '\n' !in c
    ensures LinesOf(a + "\n" + b + "\n" + c + "\n") == [a, b, c]
  {
    var text := a + "\n" + b + "\n" + c + "\n";
    assert text == Terminated([a, b, c]) by {
      assert [a, b, c][1..] == [b, c] && [b, c][1..] == [c] && [c][1..] == [];
      assert Terminated([c]) == c + "\n" + [] == c + "\n";
      assert Terminated([b, c]) == b + "\n" + (c + "\n");
      Associative(a + "\n" + b + "\n", c, "\n");
      Associative(a + "\n", b + "\n", c + "\n");
      Associative(a + "\n", b, "\n");
    }
    LinesRoundTrip([a, b, c]);
  }

  /** A switch, then a host, then a connection. */
  lemma ThreeCollected(a: string, b: string, c: string, s: Switch, h: Host, p: Port)
    requires '\n' !in a && '\n' !in b && '\n' !in c
    requires Read(a) == SwitchRecord(s) && Read(b) == HostRecord(h) && Read(c) == PortRecord(p)
    ensures Scan(ReadAll(LinesOf(a + "\n" + b + "\n" + c + "\n")))
         == Some(State(h.guid, Fabric(map[s.guid := s], map[h.guid := h], [Connection(h.guid, p)])))
  {
    ThreeLines(a, b, c);
    ScanMore([], a);
    ScanMore([a], b);
    ScanMore([a, b], c);
    assert [] + [a] == [a] && [a] + [b] == [a, b] && [a, b] + [c] == [a, b, c];
    assert ReadAll([]) == [];
    assert [] + [Connection(h.guid, p)] == [Connection(h.guid, p)];
  }

  /** The text of a switch, a host and the host's connection, and what is collected from it. */
  lemma ExcerptCollected(s: Switch, remainder: string, h: Host, p: Port, a: string, b: string, c: string)
    requires IsInt(s.numPorts) && IsGuid(s.guid) && IsQuotable(s.description) && IsPortType(s.portType) && IsRemainder(remainder)
    requires IsInt(h.numPorts) && IsGuid(h.guid) && IsQuotable(h.description)
    requires p.HostPort? && IsBracketable(p.peerPortGuid) && IsQuotable(p.peerGuid) && IsQuotable(p.peerDescription)
    requires IsSpeed(p.speed) && IsInt(p.localPort) && IsInt(p.peerPort) && IsInt(p.localLid) && IsInt(p.localLmc) && IsInt(p.peerLid)
    requires a == SwitchLine(s.numPorts, s.guid, s.description, s.portType, remainder) && '\n' !in a
    requires b == HostLine(h.numPorts, h.guid, h.description) && '\n' !in b
    requires c == HostPortLine(p.localPort, p.peerPortGuid, p.peerGuid, p.peerPort, p.localLid, p.localLmc,
                               p.peerDescription, p.peerLid, p.speed) && '\n' !in c
    ensures Scan(ReadAll(LinesOf(a + "\n" + b + "\n" + c + "\n")))
         == Some(State(h.guid, Fabric(map[s.guid := s], map[h.guid := h], [Connection(h.guid, p)])))
  {
    ReadSwitchLine(s.numPorts, s.guid, s.description, s.portType, remainder);
    ReadHostLine(h.numPorts, h.guid, h.description);
    ReadHostPortLine(p.localPort, p.peerPortGuid, p.peerGuid, p.peerPort, p.localLid, p.localLmc,
                     p.peerDescription, p.peerLid, p.speed);
    ThreeCollected(a, b, c, s, h, p);
  }
}
