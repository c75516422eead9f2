/**
 * The two money parsers of the hard scenarios and the printer they share: `Money.parse` / `Money.__repr__` and
 * `parse_amount` / `format_amount` (evals/hardbench/scenarios.py). Amounts are integer cents. Decimal digits of other
 * scripts are taken to be written as the ASCII digits that `int` reads them as.
 */
module Money {
  import opened Decimal
  import opened Options
  import opened Text

  // ------------------------------------------------------------------------------------------- Python's int(str)

  /** Digits with single underscores between them. */
  predicate Numeral(s: string) {
    && s != ""
    && IsDigit(s[0]) && IsDigit(s[|s| - 1])
    && (forall i :: 0 <= i < |s| ==> IsDigit(s[i]) || s[i] == '_')
    && (forall i :: 0 <= i < |s| - 1 ==> s[i] != '_' || s[i + 1] != '_')
  }

  function Digits(s: string): (r: string)
    requires forall i :: 0 <= i < |s| ==> IsDigit(s[i]) || s[i] == '_'
    ensures AllDigits(r)
    ensures AllDigits(s) ==> r == s
  {
    if s == "" then "" else if s[0] == '_' then Digits(s[1..]) else [s[0]] + Digits(s[1..])
  }

  predicate Minus(s: string) {
    s != "" && s[0] == '-'
  }

  /** The blanks that `int` skips at both ends: those of `str.strip` but for the four separators U+001C to U+001F. */
  predicate IsIntSpace(c: char) {
    IsSpace(c) && !('\U{1c}' <= c <= '\U{1f}')
  }

  /** `int(s)`, or None for the ValueError: blanks around, a sign, then a numeral. */
  function PyInt(s: string): Option<int> {
    var t := Trim(s, IsIntSpace);
    var body := if Minus(t) || (t != "" && t[0] == '+') then t[1..] else t;
    if !Numeral(body) then None
    else
      var n: int := Value(Digits(body));
      Some(if Minus(t) then -n else n)
  }

  /** The characters that `int` skips as blanks. */
  const INT_BLANKS: set<char> :=
    {'\t', '\n', '\U{0b}', '\U{0c}', '\r', ' ', '\U{85}', '\U{a0}', '\U{1680}',
     '\U{2000}', '\U{2001}', '\U{2002}', '\U{2003}', '\U{2004}', '\U{2005}', '\U{2006}', '\U{2007}', '\U{2008}',
     '\U{2009}', '\U{200a}', '\U{2028}', '\U{2029}', '\U{202f}', '\U{205f}', '\U{3000}'}

  predicate Blanks(s: string) {
    forall i :: 0 <= i < |s| ==> s[i] in INT_BLANKS
  }

  /** Groups of digits, none empty. */
  predicate Groups(groups: seq<string>) {
    groups != [] && forall i :: 0 <= i < |groups| ==> groups[i] != "" && AllDigits(groups[i])
  }

  /** `"_".join(groups)` */
  function Underscored(groups: seq<string>): string {
    if groups == [] then "" else if |groups| == 1 then groups[0] else groups[0] + "_" + Underscored(groups[1..])
  }

  /** s is an integer literal: groups of digits joined by underscores, an optional sign, any blanks around. */
  predicate Literal(s: string, lead: string, sign: string, groups: seq<string>, trail: string) {
    && s == lead + (sign + Underscored(groups)) + trail
    && Blanks(lead) && Blanks(trail)
    && sign in {"", "+", "-"}
    && Groups(groups)
  }

  /** The number that the digits of all groups denote, with the sign. */
  function LiteralValue(sign: string, groups: seq<string>): int
    requires Groups(groups)
  {
    JoinedDigits(groups);
    if sign == "-" then 0 - Value(Join(groups)) else Value(Join(groups))
  }

  lemma {:induction false} JoinedDigits(groups: seq<string>)
    requires forall i :: 0 <= i < |groups| ==> AllDigits(groups[i])
    ensures AllDigits(Join(groups))
  {
    if groups != [] {
      JoinedDigits(groups[1..]);
    }
  }

  /** `int` accepts exactly the integer literals, and gives them their value. */
  lemma {:induction false} PyIntExactly(s: string)
    ensures PyInt(s).Some? <==> exists lead, sign, groups, trail :: Literal(s, lead, sign, groups, trail)
    ensures forall lead, sign, groups, trail :: Literal(s, lead, sign, groups, trail) ==>
      PyInt(s) == Some(LiteralValue(sign, groups))
  {
    hide AllBlank, Numeral, PyInt, BodyValue, Blanks, Groups, Underscored, LiteralValue;
    BlanksAreAllBlank();
    if PyInt(s).Some? {
      var lead, sign, body, trail := LiteralOf(s);
      var groups := GroupsOf(body);
      assert Literal(s, lead, sign, groups, trail);
    }
    forall lead, sign, groups, trail | Literal(s, lead, sign, groups, trail)
      ensures PyInt(s) == Some(LiteralValue(sign, groups))
    {
      GroupsAreNumeral(groups);
      PyIntOfLiteral(s, lead, sign, Underscored(groups), trail);
      SameValue(sign, groups);
    }
  }

  lemma {:induction false} BlanksAreAllBlank()
    ensures forall s :: Blanks(s) <==> AllBlank(s, IsIntSpace)
  {
    assert forall c: char :: c in INT_BLANKS <==> IsIntSpace(c);
  }

  lemma {:induction false} SameValue(sign: string, groups: seq<string>)
    requires Groups(groups) && Numeral(Underscored(groups)) && Digits(Underscored(groups)) == Join(groups)
    ensures BodyValue(sign, Underscored(groups)) == LiteralValue(sign, groups)
  {
    hide Numeral, Digits, Value, Underscored;
  }

  /** A numeral falls into groups at its underscores... */
  lemma {:induction false} GroupsOf(s: string) returns (groups: seq<string>)
    requires Numeral(s)
    ensures Groups(groups) && Underscored(groups) == s
  {
    if AllDigits(s) {
      groups := [s];
    } else {
      var k := FirstUnderscore(s);
      var rest := GroupsOf(s[k + 1..]);
      groups := [s[..k]] + rest;
      assert groups[1..] == rest;
      assert s == s[..k] + "_" + s[k + 1..];
    }
  }

  lemma {:induction false} FirstUnderscore(s: string) returns (k: nat)
    requires Numeral(s) && !AllDigits(s)
    ensures 0 < k < |s| - 1 && s[k] == '_' && AllDigits(s[..k]) && Numeral(s[k + 1..])
  {
    k := 0;
    while IsDigit(s[k])
      invariant k < |s| && forall i :: 0 <= i < k ==> IsDigit(s[i])
      decreases |s| - k
    {
      k := k + 1;
    }
  }

  /** ... and joined groups are a numeral with their digits. */
  lemma {:induction false} GroupsAreNumeral(groups: seq<string>)
    requires Groups(groups)
    ensures Numeral(Underscored(groups)) && Digits(Underscored(groups)) == Join(groups)
  {
    if |groups| == 1 {
      assert groups[1..] == [] && groups[0] + "" == groups[0];
    } else {
      GroupsAreNumeral(groups[1..]);
      NumeralAfter(groups[0], Underscored(groups[1..]));
      DigitsAfter(groups[0], Underscored(groups[1..]));
    }
  }

  lemma {:induction false} NumeralAfter(a: string, s: string)
    requires a != "" && AllDigits(a) && Numeral(s)
    ensures Numeral(a + "_" + s)
  {
    var t := a + "_" + s;
    assert t[..|a|] == a && t[|a|] == '_' && t[|a| + 1..] == s;
    assert forall i :: 0 <= i < |a| ==> t[i] == a[i];
    assert forall i :: |a| < i < |t| ==> t[i] == s[i - |a| - 1];
  }

  lemma {:induction false} DigitsAfter(a: string, s: string)
    requires AllDigits(a) && (forall i :: 0 <= i < |s| ==> IsDigit(s[i]) || s[i] == '_')
    requires forall i :: 0 <= i < |a + "_" + s| ==> IsDigit((a + "_" + s)[i]) || (a + "_" + s)[i] == '_'
    ensures Digits(a + "_" + s) == a + Digits(s)
  {
    var t := a + "_" + s;
    if a == "" {
      DigitsOfUnderscore(t, s);
    } else {
      assert t[0] == a[0] && t[1..] == a[1..] + "_" + s;
      DigitsAfter(a[1..], s);
      DigitsOfDigit(t, a[0]);
      assert a == [a[0]] + a[1..];
    }
  }

  lemma {:induction false} DigitsOfUnderscore(t: string, s: string)
    requires t == "_" + s && forall i :: 0 <= i < |t| ==> IsDigit(t[i]) || t[i] == '_'
    ensures (forall i :: 0 <= i < |s| ==> IsDigit(s[i]) || s[i] == '_') && Digits(t) == Digits(s)
  {
    assert t[1..] == s;
  }

  lemma {:induction false} DigitsOfDigit(t: string, d: char)
    requires t != "" && t[0] == d && IsDigit(d) && forall i :: 0 <= i < |t| ==> IsDigit(t[i]) || t[i] == '_'
    ensures Digits(t) == [d] + Digits(t[1..])
  {
  }

  /** The same with the numeral in one piece. */
  predicate BodyLiteral(s: string, lead: string, sign: string, body: string, trail: string) {
    && s == lead + (sign + body) + trail
    && AllBlank(lead, IsIntSpace) && AllBlank(trail, IsIntSpace)
    && sign in {"", "+", "-"}
    && Numeral(body)
  }

  function BodyValue(sign: string, body: string): int
    requires Numeral(body)
  {
    if sign == "-" then 0 - Value(Digits(body)) else Value(Digits(body))
  }

  lemma {:induction false} LiteralOf(s: string) returns (lead: string, sign: string, body: string, trail: string)
    requires PyInt(s).Some?
    ensures BodyLiteral(s, lead, sign, body, trail)
  {
    hide Numeral, AllBlank, Trim, Value;
    var t := Trim(s, IsIntSpace);
    lead, trail := TrimSplits(s, IsIntSpace);
    if Minus(t) || (t != "" && t[0] == '+') {
      sign, body := t[..1], t[1..];
      assert t == sign + body && sign == [t[0]];
    } else {
      sign, body := "", t;
      assert sign + body == t;
    }
  }

  lemma {:induction false} PyIntOfLiteral(s: string, lead: string, sign: string, body: string, trail: string)
    requires BodyLiteral(s, lead, sign, body, trail)
    ensures PyInt(s) == Some(BodyValue(sign, body))
  {
    hide AllBlank, Trim, Value, IsSpace, Digits;
    var t := sign + body;
    SignsAndDigitsAreNoSpace();
    assert t[|t| - 1] == body[|body| - 1];
    TrimBlanks(lead, t, trail, IsIntSpace);
    assert sign != "" ==> t[1..] == body;
    assert sign == "" ==> t == body;
  }

  lemma SignsAndDigitsAreNoSpace()
    ensures !IsSpace('-') && !IsSpace('+') && forall c :: IsDigit(c) ==> !IsSpace(c)
  {
  }

  /** So a text with one of the four separators in it is no integer, although `strip` would take it off an end. */
  lemma {:induction false} SeparatorsFail(s: string, i: nat)
    requires i < |s| && '\U{1c}' <= s[i] <= '\U{1f}'
    ensures PyInt(s) == None
  {
    hide PyInt, BodyLiteral;
    if PyInt(s).Some? {
      var lead, sign, body, trail := LiteralOf(s);
      NoSeparator(s, lead, sign, body, trail, i);
    }
  }

  lemma {:induction false} NoSeparator(s: string, lead: string, sign: string, body: string, trail: string, i: nat)
    requires i < |s| && BodyLiteral(s, lead, sign, body, trail)
    ensures !('\U{1c}' <= s[i] <= '\U{1f}')
  {
    hide IsSpace;
    assert s[i] == if i < |lead| then lead[i] else if i < |s| - |trail| then (sign + body)[i - |lead|]
      else trail[i - (|s| - |trail|)];
  }

  lemma {:induction false} PyIntOfDigits(s: string)
    requires s != "" && AllDigits(s)
    ensures PyInt(s) == Some(Value(s))
  {
    TrimNothing(s, IsIntSpace);
  }

  // ------------------------------------------------------------------------------------------------- the parsers

  /** `str.isdigit` on ASCII text. */
  predicate IsDigits(s: string) {
    s != "" && AllDigits(s)
  }

  /** The text after its minus sign, if it has one. */
  function Unsigned(t: string): string {
    if Minus(t) then t[1..] else t
  }

  /** The parsed amount, negated if the text began with a minus sign. */
  function Signed(t: string, cents: Option<int>): Option<int> {
    if cents == None then None else Some(if Minus(t) then -cents.value else cents.value)
  }

  /** `(frac + "00")[:2]` */
  function TwoDigits(frac: string): (r: string)
    ensures |r| == 2
    ensures AllDigits(frac) ==> AllDigits(r)
  {
    (frac + "00")[..2]
  }

  /** `Money.parse`, or None for the ValidationError. */
  function MoneyParse(text: string): Option<int> {
    var t := Strip(text);
    Signed(t, MoneyCents(Unsigned(t)))
  }

  function MoneyCents(u: string): Option<int> {
    var dot := Find(u, ".", 0);
    if dot < 0 then MoneyParts(u, "0") else MoneyParts(u[..dot], u[dot + 1..])
  }

  function MoneyParts(whole: string, frac: string): Option<int> {
    if !IsDigits(whole) || !IsDigits(frac) || |frac| > 2 then None
    else Some(Value(whole) * 100 + Value(TwoDigits(frac)))
  }

  /** `parse_amount`, or None for the ValueError. */
  function ParseAmount(text: string): Option<int> {
    var t := Strip(text);
    Signed(t, AmountCents(Unsigned(t)))
  }

  /** A second point fails when the split is unpacked. */
  function AmountCents(u: string): Option<int> {
    var dot := Find(u, ".", 0);
    if dot < 0 then AmountParts(u, "00")
    else if Find(u, ".", dot + 1) >= 0 then None
    else AmountParts(u[..dot], TwoDigits(u[dot + 1..]))
  }

  function AmountParts(whole: string, frac: string): Option<int> {
    var w, f := PyInt(whole), PyInt(frac);
    if w == None || f == None then None else Some(w.value * 100 + f.value)
  }

  /** `format_amount(cents)`, which is also `repr(Money(cents))`. */
  function Format(cents: int): string {
    if cents < 0 then "-" + FormatUnsigned(-cents) else FormatUnsigned(cents)
  }

  function FormatUnsigned(c: nat): string {
    Print(c / 100) + "." + [DigitChar(c % 100 / 10), DigitChar(c % 10)]
  }

  // ------------------------------------------------------------------------------------------------ what they do

  /** u is a whole number, or one with a fraction of one or two digits. */
  predicate Shape(u: string, whole: string, frac: string) {
    && IsDigits(whole) && AllDigits(frac) && |frac| <= 2
    && u == if frac == "" then whole else whole + "." + frac
  }

  /** The amount, in cents, that a whole part and at most two fraction digits denote. */
  function Denotes(whole: string, frac: string): int
    requires AllDigits(whole) && AllDigits(frac) && |frac| <= 2
  {
    100 * Value(whole) + (if |frac| == 2 then Value(frac) else 10 * Value(frac))
  }

  lemma {:induction false} TwoDigitsValue(frac: string)
    requires AllDigits(frac) && |frac| <= 2
    ensures Value(TwoDigits(frac)) == if |frac| == 2 then Value(frac) else 10 * Value(frac)
  {
    if frac == "" {
      ValueOfPair('0', '0');
      assert TwoDigits(frac) == "00";
    } else if |frac| == 1 {
      ValueOfPair(frac[0], '0');
      ValueOfOne(frac[0]);
      assert TwoDigits(frac) == [frac[0], '0'] && frac == [frac[0]];
    } else {
      assert TwoDigits(frac) == frac;
    }
  }

  lemma {:induction false} ValueOfOne(a: char)
    requires IsDigit(a)
    ensures Value([a]) == DigitValue(a)
  {
    assert [a][..0] == "";
  }

  lemma {:induction false} ValueOfPair(a: char, b: char)
    requires IsDigit(a) && IsDigit(b)
    ensures Value([a, b]) == 10 * DigitValue(a) + DigitValue(b)
  {
    ValueOfOne(a);
    assert [a, b][..1] == [a];
  }

  /** The unsigned part of Money.parse gives a text of the right shape its denotation... */
  lemma {:induction false} MoneyCentsDenotes(u: string, whole: string, frac: string)
    requires Shape(u, whole, frac)
    ensures MoneyCents(u) == Some(Denotes(whole, frac))
  {
    hide Find, Value, TwoDigits;
    FindChar(u, '.', 0, |whole|);
    if frac == "" {
      TwoDigitsValue("0");
      ValueOfOne('0');
      ValueOfNothing();
    } else {
      TwoDigitsValue(frac);
      assert u[..|whole|] == whole && u[|whole| + 1..] == frac;
    }
  }

  lemma ValueOfNothing()
    ensures Value("") == 0
  {
  }

  /** ... and accepts no text of any other shape. */
  lemma {:induction false} MoneyCentsShape(u: string) returns (whole: string, frac: string)
    requires MoneyCents(u).Some?
    ensures Shape(u, whole, frac)
  {
    hide Value, TwoDigits, Find;
    var dot := Find(u, ".", 0);
    if dot < 0 {
      whole, frac := u, "";
    } else {
      whole, frac := u[..dot], u[dot + 1..];
      assert u == u[..dot] + u[dot..dot + 1] + u[dot + 1..];
    }
  }

  /** Money.parse accepts exactly the amounts of that shape, with blanks around and a minus sign, and denotes them. */
  lemma {:induction false} MoneyParseExactly(text: string)
    ensures MoneyParse(text).Some? <==> exists whole, frac :: Shape(Unsigned(Strip(text)), whole, frac)
    ensures forall whole, frac :: Shape(Unsigned(Strip(text)), whole, frac) ==>
      MoneyParse(text) == Signed(Strip(text), Some(Denotes(whole, frac)))
  {
    var u := Unsigned(Strip(text));
    if MoneyParse(text).Some? {
      var whole, frac := MoneyCentsShape(u);
    }
    forall whole, frac | Shape(u, whole, frac)
      ensures MoneyCents(u) == Some(Denotes(whole, frac))
    {
      MoneyCentsDenotes(u, whole, frac);
    }
  }

  /** parse_amount extends Money.parse: it agrees wherever Money.parse accepts. */
  lemma {:induction false} ParseAmountExtends(text: string)
    requires MoneyParse(text).Some?
    ensures ParseAmount(text) == MoneyParse(text)
  {
    hide Strip;
    AmountCentsExtends(Unsigned(Strip(text)));
  }

  lemma {:induction false} AmountCentsExtends(u: string)
    requires MoneyCents(u).Some?
    ensures AmountCents(u) == MoneyCents(u)
  {
    hide Find, Value, PyInt, TwoDigits;
    var dot := Find(u, ".", 0);
    if dot < 0 {
      PyIntOfDigits(u);
      PyIntOfDigits("00");
      assert TwoDigits("0") == "00" by { PadZero(); }
    } else {
      PyIntOfDigits(u[..dot]);
      PyIntOfDigits(TwoDigits(u[dot + 1..]));
      assert forall j :: dot + 1 <= j < |u| ==> u[j] == u[dot + 1..][j - dot - 1];
      FindChar(u, '.', dot + 1, |u|);
    }
  }

  lemma PadZero()
    ensures TwoDigits("0") == "00"
  {
  }

  /** Printing and parsing back is the identity on every number of cents, for both parsers. */
  lemma {:induction false} ParseUndoesFormat(cents: int)
    ensures MoneyParse(Format(cents)) == Some(cents)
    ensures ParseAmount(Format(cents)) == Some(cents)
  {
    hide Strip, FormatUnsigned, MoneyCents, ParseAmount, IsSpace;
    var c := if cents < 0 then -cents else cents;
    FormatShape(c);
    SignsAndDigitsAreNoSpace();
    StripNothing(Format(cents));
    ParseAmountExtends(Format(cents));
  }

  lemma {:induction false} FormatShape(c: nat)
    ensures var u := FormatUnsigned(c);
      u != "" && !IsSpace(u[|u| - 1]) && IsDigit(u[0]) && ("-" + u)[1..] == u && MoneyCents(u) == Some(c)
  {
    hide Find, Value, MoneyCents;
    var whole, frac := Print(c / 100), [DigitChar(c % 100 / 10), DigitChar(c % 10)];
    MoneyCentsDenotes(FormatUnsigned(c), whole, frac);
    ValueOfPrint(c / 100);
    ValueOfPair(frac[0], frac[1]);
  }

  /** An amount as it is printed: a whole part without needless zeros and always two digits behind the point. */
  predicate Printed(t: string, cents: int, whole: string, a: char, b: char) {
    && t == (if cents < 0 then "-" else "") + whole + "." + [a, b]
    && IsDigits(whole) && IsDigit(a) && IsDigit(b)
    && (|whole| > 1 ==> whole[0] != '0')
    && 100 * Value(whole) + 10 * DigitValue(a) + DigitValue(b) == if cents < 0 then -cents else cents
  }

  /** Every amount is printed so. */
  lemma {:induction false} FormatIsPrinted(cents: int) returns (whole: string, a: char, b: char)
    ensures Printed(Format(cents), cents, whole, a, b)
  {
    hide Value, Print;
    var c: nat := if cents < 0 then -cents else cents;
    whole, a, b := Print(c / 100), DigitChar(c % 100 / 10), DigitChar(c % 10);
    ValueOfPrint(c / 100);
    NoNeedlessZero(c / 100);
    DigitOfChar(c % 100 / 10);
    DigitOfChar(c % 10);
    assert "" + whole == whole;
    assert "-" + whole + "." + [a, b] == "-" + (whole + "." + [a, b]);
  }

  lemma {:induction false} NoNeedlessZero(n: nat)
    ensures |Print(n)| > 1 ==> Print(n)[0] != '0'
  {
  }

  lemma {:induction false} DigitOfChar(d: nat)
    requires d < 10
    ensures DigitValue(DigitChar(d)) == d
  {
  }

  /** Two amounts are the same exactly when they print alike. */
  lemma {:induction false} FormatInjective(a: int, b: int)
    ensures Format(a) == Format(b) <==> a == b
  {
    ParseUndoesFormat(a);
    ParseUndoesFormat(b);
  }

  // ------------------------------------------------------------------------------------ what parse_amount accepts

  predicate NoPoint(s: string) {
    forall i :: 0 <= i < |s| ==> s[i] != '.'
  }

  /** u has at most one point, and `int` accepts the part before it and the padded two characters behind it. */
  predicate AmountShape(u: string, whole: string, frac: Option<string>) {
    && u == (if frac == None then whole else whole + "." + frac.value)
    && NoPoint(whole) && PyInt(whole).Some?
    && (frac.Some? ==> NoPoint(frac.value) && PyInt(TwoDigits(frac.value)).Some?)
  }

  /** The value: the sign of either part counts for that part alone. */
  function AmountValue(whole: string, frac: Option<string>): int
    requires PyInt(whole).Some? && (frac.Some? ==> PyInt(TwoDigits(frac.value)).Some?)
  {
    100 * PyInt(whole).value + if frac == None then 0 else PyInt(TwoDigits(frac.value)).value
  }

  /** parse_amount accepts exactly the texts of that shape, with blanks around and a minus sign (see PyIntExactly). */
  lemma {:induction false} ParseAmountExactly(text: string)
    ensures ParseAmount(text).Some? <==> exists whole, frac :: AmountShape(Unsigned(Strip(text)), whole, frac)
    ensures forall whole, frac :: AmountShape(Unsigned(Strip(text)), whole, frac) ==>
      ParseAmount(text) == Signed(Strip(text), Some(AmountValue(whole, frac)))
  {
    hide Strip, PyInt, TwoDigits, AmountCents;
    var u := Unsigned(Strip(text));
    if ParseAmount(text).Some? {
      var whole, frac := AmountCentsShape(u);
    }
    forall whole, frac | AmountShape(u, whole, frac)
      ensures AmountCents(u) == Some(AmountValue(whole, frac))
    {
      AmountCentsValue(u, whole, frac);
    }
  }

  lemma {:induction false} AmountCentsShape(u: string) returns (whole: string, frac: Option<string>)
    requires AmountCents(u).Some?
    ensures AmountShape(u, whole, frac)
  {
    hide PyInt, TwoDigits, Find;
    var dot := Find(u, ".", 0);
    if dot < 0 {
      whole, frac := u, None;
      NoFind(u, 0);
    } else {
      whole, frac := u[..dot], Some(u[dot + 1..]);
      assert u == u[..dot] + u[dot..dot + 1] + u[dot + 1..];
      NoFind(u, dot + 1);
      FirstFind(u, dot);
    }
  }

  /** No hit means no point. */
  lemma {:induction false} NoFind(u: string, from: nat)
    requires Find(u, ".", from) < 0
    ensures forall i :: from <= i < |u| ==> u[i] != '.'
  {
    hide Find;
    forall i | from <= i < |u|
      ensures u[i] != '.'
    {
      if u[i] == '.' {
        assert u[i..i + 1] == ".";
        FindIsFirst(u, ".", from, i);
      }
    }
  }

  /** The first hit has no point before it. */
  lemma {:induction false} FirstFind(u: string, dot: nat)
    requires Find(u, ".", 0) == dot
    ensures dot < |u| && NoPoint(u[..dot])
  {
    hide Find;
    forall i | 0 <= i < dot
      ensures u[i] != '.'
    {
      if u[i] == '.' {
        assert u[i..i + 1] == ".";
        FindIsFirst(u, ".", 0, i);
      }
    }
  }

  lemma {:induction false} AmountCentsValue(u: string, whole: string, frac: Option<string>)
    requires AmountShape(u, whole, frac)
    ensures AmountCents(u) == Some(AmountValue(whole, frac))
  {
    hide PyInt, TwoDigits, Find;
    PointOf(u, whole, frac);
    PyIntOfZeros();
  }

  /** Where the splits of a text with at most one point fall. */
  lemma {:induction false} PointOf(u: string, whole: string, frac: Option<string>)
    requires u == (if frac == None then whole else whole + "." + frac.value)
    requires NoPoint(whole) && (frac.Some? ==> NoPoint(frac.value))
    ensures Find(u, ".", 0) == if frac == None then -1 else |whole|
    ensures frac.Some? ==> Find(u, ".", |whole| + 1) == -1 && u[..|whole|] == whole && u[|whole| + 1..] == frac.value
  {
    hide Find;
    FindChar(u, '.', 0, |whole|);
    if frac.Some? {
      assert forall j :: |whole| + 1 <= j < |u| ==> u[j] == frac.value[j - |whole| - 1];
      FindChar(u, '.', |whole| + 1, |u|);
    }
  }

  lemma PyIntOfZeros()
    ensures PyInt("00") == Some(0)
  {
    hide Value;
    PyIntOfDigits("00");
    ValueOfPair('0', '0');
  }

  /** Plain digits on both sides of the point, one or two behind it: what Money.parse insists on. */
  predicate Plain(whole: string, frac: Option<string>) {
    IsDigits(whole) && (frac.Some? ==> IsDigits(frac.value) && |frac.value| <= 2)
  }

  /** The two parsers agree on a text exactly when parse_amount rejects it or its parts are plain. */
  lemma {:induction false} ParsersAgreeExactly(text: string)
    ensures ParseAmount(text) == MoneyParse(text) <==>
      forall whole, frac :: AmountShape(Unsigned(Strip(text)), whole, frac) ==> Plain(whole, frac)
  {
    hide Strip, PyInt, AmountShape, Plain, MoneyCents, AmountCents;
    var u := Unsigned(Strip(text));
    forall whole, frac | AmountShape(u, whole, frac)
      ensures AmountCents(u).Some? && (Plain(whole, frac) <==> MoneyCents(u).Some?)
    {
      AmountCentsValue(u, whole, frac);
      PlainIsMoney(u, whole, frac);
    }
    if MoneyCents(u).Some? {
      AmountCentsExtends(u);
    }
    if AmountCents(u).Some? {
      var whole, frac := AmountCentsShape(u);
    }
  }

  lemma {:induction false} PlainIsMoney(u: string, whole: string, frac: Option<string>)
    requires AmountShape(u, whole, frac)
    ensures Plain(whole, frac) <==> MoneyCents(u).Some?
  {
    hide PyInt, TwoDigits, Find;
    PointOf(u, whole, frac);
  }

  /** Every other text of that shape is an amount to parse_amount alone. */
  lemma {:induction false} OnlyParseAmount(u: string, whole: string, frac: Option<string>)
    requires u != "" && !IsSpace(u[0]) && !IsSpace(u[|u| - 1]) && !Minus(u)
    requires AmountShape(u, whole, frac) && !Plain(whole, frac)
    ensures ParseAmount(u) == Some(AmountValue(whole, frac)) && MoneyParse(u) == None
  {
    hide PyInt, Plain, MoneyCents, AmountCents, IsSpace, AmountShape, Strip;
    StripNothing(u);
    AmountCentsValue(u, whole, frac);
    PlainIsMoney(u, whole, frac);
  }

  /** So a sign can hide in a part: "5.-1" is 4.99. */
  lemma SignInside()
    ensures ParseAmount("5.-1") == Some(499) && MoneyParse("5.-1") == None
  {
    hide PyInt, ParseAmount, MoneyParse;
    PyIntOfDigits("5");
    ValueOfOne('5');
    PyIntOfMinusOne();
    assert "5.-1" == "5" + "." + "-1" && TwoDigits("-1") == "-1";
    assert !IsDigit("-1"[0]);
    OnlyParseAmount("5.-1", "5", Some("-1"));
  }

  /** A separator in a part fails both parsers, in contrast to one at an end of the text. */
  lemma {:induction false} SeparatorInside(c: char, d: char)
    requires '\U{1c}' <= c <= '\U{1f}' && IsDigit(d)
    ensures var u := "5." + [c, d];
      ParseAmount(u) == None && MoneyParse(u) == None
    ensures MoneyParse([d, c]) == Some(100 * DigitValue(d)) && ParseAmount([d, c]) == MoneyParse([d, c])
  {
    hide Strip, AmountCents, MoneyCents, IsSpace;
    SeparatorInPart(c, d);
    SeparatorAtEnd(c, d);
    ParseAmountExtends([d, c]);
  }

  lemma {:induction false} SeparatorInPart(c: char, d: char)
    requires '\U{1c}' <= c <= '\U{1f}' && IsDigit(d)
    ensures var u := "5." + [c, d];
      Strip(u) == u && AmountCents(u) == None && MoneyCents(u) == None
  {
    hide Strip, PyInt, MoneyCents, Find;
    var u, frac := "5." + [c, d], [c, d];
    StripNothing(u);
    assert u == "5" + "." + frac;
    PointOf(u, "5", Some(frac));
    assert TwoDigits(frac) == frac && frac[0] == c;
    SeparatorsFail(frac, 0);
    if MoneyCents(u).Some? {
      AmountCentsExtends(u);
    }
  }

  lemma {:induction false} SeparatorAtEnd(c: char, d: char)
    requires '\U{1c}' <= c <= '\U{1f}' && IsDigit(d)
    ensures Strip([d, c]) == [d] && MoneyCents([d]) == Some(100 * DigitValue(d))
  {
    hide MoneyCents, Trim;
    SignsAndDigitsAreNoSpace();
    assert [d, c] == "" + [d] + [c];
    TrimBlanks("", [d], [c], IsSpace);
    MoneyCentsDenotes([d], [d], "");
    ValueOfOne(d);
    ValueOfNothing();
  }

  /** The characters that `strip` takes off. */
  const BLANKS: set<char> := INT_BLANKS + {'\U{1c}', '\U{1d}', '\U{1e}', '\U{1f}'}

  /** What may stand in front of a digit: one of the blanks, a minus sign, or another digit. */
  lemma {:induction false} CharInFront(c: char, d: char)
    requires IsDigit(d)
    ensures MoneyParse([c, d]) ==
      if c in BLANKS then Some(100 * DigitValue(d))
      else if c == '-' then Some(-100 * DigitValue(d))
      else if IsDigit(c) then Some(100 * (10 * DigitValue(c) + DigitValue(d)))
      else None
    ensures PyInt([c, d]) ==
      if c in INT_BLANKS || c == '+' then Some(DigitValue(d))
      else if c == '-' then Some(0 - DigitValue(d))
      else if IsDigit(c) then Some(10 * DigitValue(c) + DigitValue(d))
      else None
  {
    hide MoneyCents, PyInt, Value, Strip, BLANKS, INT_BLANKS;
    BlanksMean(c);
    SignsAndDigitsAreNoSpace();
    StripsInFront(c, d);
    CentsInFront(c, d);
    IntInFront(c, d);
  }

  lemma {:induction false} BlanksMean(c: char)
    ensures c in BLANKS <==> IsSpace(c)
    ensures c in INT_BLANKS <==> IsIntSpace(c)
  {
  }

  lemma {:induction false} StripsInFront(c: char, d: char)
    requires IsDigit(d)
    ensures Strip([c, d]) == if IsSpace(c) then [d] else [c, d]
  {
    hide IsSpace, Trim;
    SignsAndDigitsAreNoSpace();
    if IsSpace(c) {
      assert [c, d] == [c] + [d] + "";
      TrimBlanks([c], [d], "", IsSpace);
    } else {
      StripNothing([c, d]);
    }
  }

  lemma {:induction false} CentsInFront(c: char, d: char)
    requires IsDigit(d)
    ensures [c, d][1..] == [d] && MoneyCents([d]) == Some(100 * DigitValue(d))
    ensures MoneyCents([c, d]) == if IsDigit(c) then Some(100 * (10 * DigitValue(c) + DigitValue(d))) else None
  {
    hide MoneyCents, Value;
    MoneyCentsDenotes([d], [d], "");
    ValueOfOne(d);
    ValueOfNothing();
    if IsDigit(c) {
      MoneyCentsDenotes([c, d], [c, d], "");
      ValueOfPair(c, d);
    } else if MoneyCents([c, d]).Some? {
      var whole, frac := MoneyCentsShape([c, d]);
      ShapeStarts([c, d], whole, frac);
    }
  }

  lemma {:induction false} ShapeStarts(u: string, whole: string, frac: string)
    requires Shape(u, whole, frac)
    ensures u != "" && IsDigit(u[0])
  {
    assert u[0] == whole[0];
  }

  lemma {:induction false} IntInFront(c: char, d: char)
    requires IsDigit(d)
    ensures PyInt([c, d]) ==
      if IsIntSpace(c) || c == '+' then Some(DigitValue(d))
      else if c == '-' then Some(0 - DigitValue(d))
      else if IsDigit(c) then Some(10 * DigitValue(c) + DigitValue(d))
      else None
  {
    hide Value, Digits, IsSpace, Trim;
    SignsAndDigitsAreNoSpace();
    ValueOfOne(d);
    assert [c, d][1..] == [d];
    assert AllDigits([d]) && Digits([d]) == [d];
    if IsIntSpace(c) {
      assert [c, d] == [c] + [d] + "";
      TrimBlanks([c], [d], "", IsIntSpace);
    } else {
      TrimNothing([c, d], IsIntSpace);
      if IsDigit(c) {
        ValueOfPair(c, d);
        assert AllDigits([c, d]) && Digits([c, d]) == [c, d];
      }
    }
  }

  /** And digits beyond the second are cut off: "5.999" is 5.99. */
  lemma {:induction false} LongFraction(d: char)
    requires IsDigit(d)
    ensures var u := "5.99" + [d];
      ParseAmount(u) == Some(599) && MoneyParse(u) == None
  {
    hide PyInt, ParseAmount, MoneyParse;
    PyIntOfDigits("5");
    ValueOfOne('5');
    PyIntOfDigits("99");
    ValueOfPair('9', '9');
    SignsAndDigitsAreNoSpace();
    var frac := "99" + [d];
    assert "5.99" + [d] == "5" + "." + frac && TwoDigits(frac) == "99";
    OnlyParseAmount("5.99" + [d], "5", Some(frac));
  }

  lemma PyIntOfMinusOne()
    ensures PyInt("-1") == Some(-1)
  {
    hide Value;
    TrimNothing("-1", IsIntSpace);
    ValueOfOne('1');
    assert "-1"[1..] == "1";
  }
}
