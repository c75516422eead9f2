/**
 * JSON text as RFC 8259 defines it (sections 4, 5 and 7) and as Python writes it with
 * `json.dumps(value, ensure_ascii=False)`: separators ", " and ": ", object members in insertion
 * order, only the mandatory characters escaped. Numbers are integers.
 */
module Json {
  import opened Text
  import Decimal

  datatype Value =
    | Null
    | Bool(b: bool)
    | Int(n: int)
    | Str(s: string)
    | Arr(items: seq<Value>)
    | Obj(fields: seq<Field>)

  datatype Field = Field(key: string, value: Value)

  // ----- the serializer -----

  function HexDigit(d: nat): char
    requires d < 16
  {
    if d < 10 then '0' + d as char else 'a' + (d - 10) as char
  }

  /** One character inside a string literal. */
  function Escape(c: char): string {
    if c == '\"' then "\\\""
    else if c == '\\' then "\\\\"
    else if c == '\n' then "\\n"
    else if c == '\r' then "\\r"
    else if c == '\t' then "\\t"
    else if c == '\U{0c}' then "\\f"
    else if c == '\U{08}' then "\\b"
    else if c < ' ' then "\\u00" + [HexDigit(c as nat / 16), HexDigit(c as nat % 16)]
    else [c]
  }

  function EscapeAll(s: string): string {
    if s == "" then "" else Escape(s[0]) + EscapeAll(s[1..])
  }

  function Quote(s: string): string {
    "\"" + EscapeAll(s) + "\""
  }

  function DumpInt(n: int): string {
    if n < 0 then "-" + Decimal.Print(-n) else Decimal.Print(n)
  }

  function Dumps(v: Value): string {
    match v
    case Null => "null"
    case Bool(b) => if b then "true" else "false"
    case Int(n) => DumpInt(n)
    case Str(s) => Quote(s)
    case Arr(items) => "[" + DumpItems(items) + "]"
    case Obj(fields) => "{" + DumpFields(fields) + "}"
  }

  function DumpItems(items: seq<Value>): string {
    if items == [] then ""
    else if |items| == 1 then Dumps(items[0])
    else Dumps(items[0]) + ", " + DumpItems(items[1..])
  }

  function DumpField(field: Field): string {
    Quote(field.key) + ": " + Dumps(field.value)
  }

  function DumpFields(fields: seq<Field>): string {
    if fields == [] then ""
    else if |fields| == 1 then DumpField(fields[0])
    else DumpField(fields[0]) + ", " + DumpFields(fields[1..])
  }

  // ----- the reader -----

  /** A reader either fails or gives what it read together with the text after it. */
  datatype Reading<+T> = Fail | Got(value: T, rest: string) {
    predicate IsFailure() { Fail? }
    function PropagateFailure<U>(): Reading<U>
      requires Fail?
    {
      Fail
    }
    function Extract(): (T, string)
      requires Got?
    {
      (value, rest)
    }
  }

  predicate IsWs(c: char) {
    c == ' ' || c == '\t' || c == '\n' || c == '\r'
  }

  function SkipWs(s: string): (r: string)
    ensures |r| <= |s|
    ensures r != "" ==> !IsWs(r[0])
  {
    if s != "" && IsWs(s[0]) then SkipWs(s[1..]) else s
  }

  predicate Starts(s: string, c: char) {
    s != "" && s[0] == c
  }

  function HexValue(c: char): (r: int)
    ensures -1 <= r < 16
  {
    if '0' <= c <= '9' then c as int - '0' as int
    else if 'a' <= c <= 'f' then c as int - 'a' as int + 10
    else if 'A' <= c <= 'F' then c as int - 'A' as int + 10
    else -1
  }

  /** The character that the escape after a backslash stands for. */
  function ReadEscape(s: string): (r: Reading<char>)
    ensures r.Got? ==> |r.rest| < |s|
  {
    if s == "" then Fail
    else if s[0] == '\"' || s[0] == '\\' || s[0] == '/' then Got(s[0], s[1..])
    else if s[0] == 'n' then Got('\n', s[1..])
    else if s[0] == 'r' then Got('\r', s[1..])
    else if s[0] == 't' then Got('\t', s[1..])
    else if s[0] == 'f' then Got('\U{0c}', s[1..])
    else if s[0] == 'b' then Got('\U{08}', s[1..])
    else if s[0] == 'u' && |s| >= 5 then
      var a, b, c, d := HexValue(s[1]), HexValue(s[2]), HexValue(s[3]), HexValue(s[4]);
      if a < 0 || b < 0 || c < 0 || d < 0 then Fail else
        var code := 4096 * a + 256 * b + 16 * c + d;
        if 0xD800 <= code < 0xE000 then Fail else Got(code as char, s[5..])
    else Fail
  }

  /** The characters up to the closing quote. */
  function ReadChars(s: string): (r: Reading<string>)
    ensures r.Got? ==> |r.rest| < |s|
    decreases |s|
  {
    if s == "" || s[0] < ' ' then Fail
    else if s[0] == '\"' then Got("", s[1..])
    else if s[0] == '\\' then
      var (c, rest) :- ReadEscape(s[1..]);
      var (cs, end) :- ReadChars(rest);
      Got([c] + cs, end)
    else
      var (cs, end) :- ReadChars(s[1..]);
      Got([s[0]] + cs, end)
  }

  function ReadDigits(acc: nat, s: string): (nat, string)
    decreases |s|
  {
    if s != "" && IsDigit(s[0]) then ReadDigits(10 * acc + Decimal.DigitValue(s[0]), s[1..]) else (acc, s)
  }

  /** An integer without leading zeros: after a 0 the number ends. */
  function ReadNat(s: string): (r: Reading<nat>)
    ensures r.Got? ==> |r.rest| < |s|
  {
    if s == "" || !IsDigit(s[0]) then Fail
    else if s[0] == '0' then Got(0, s[1..])
    else
      ReadDigitsShrinks(Decimal.DigitValue(s[0]), s[1..]);
      var (n, rest) := ReadDigits(Decimal.DigitValue(s[0]), s[1..]);
      Got(n, rest)
  }

  lemma {:induction false} ReadDigitsShrinks(acc: nat, s: string)
    ensures |ReadDigits(acc, s).1| <= |s|
    decreases |s|
  {
    if s != "" && IsDigit(s[0]) {
      ReadDigitsShrinks(10 * acc + Decimal.DigitValue(s[0]), s[1..]);
    }
  }

  function ReadValue(s: string): (r: Reading<Value>)
    ensures r.Got? ==> |r.rest| < |s|
    decreases |s|, 0
  {
    if s == "" then Fail
    else if s[0] == '\"' then
      var (t, rest) :- ReadChars(s[1..]);
      Got(Str(t), rest)
    else if s[0] == '[' then
      var t := SkipWs(s[1..]);
      if Starts(t, ']') then Got(Arr([]), t[1..]) else
        var (items, rest) :- ReadItems(t);
        Got(Arr(items), rest)
    else if s[0] == '{' then
      var t := SkipWs(s[1..]);
      if Starts(t, '}') then Got(Obj([]), t[1..]) else
        var (fields, rest) :- ReadFields(t);
        Got(Obj(fields), rest)
    else if StartsWith(s, "null") then Got(Null, s[4..])
    else if StartsWith(s, "true") then Got(Bool(true), s[4..])
    else if StartsWith(s, "false") then Got(Bool(false), s[5..])
    else if s[0] == '-' then
      var (n, rest) :- ReadNat(s[1..]);
      Got(Int(0 - n), rest)
    else
      var (n, rest) :- ReadNat(s);
      Got(Int(n), rest)
  }

  function ReadItems(s: string): (r: Reading<seq<Value>>)
    ensures r.Got? ==> |r.rest| < |s|
    decreases |s|, 1
  {
    var (v, afterValue) :- ReadValue(s);
    var t := SkipWs(afterValue);
    if Starts(t, ']') then Got([v], t[1..])
    else if Starts(t, ',') then
      var (more, rest) :- ReadItems(SkipWs(t[1..]));
      Got([v] + more, rest)
    else Fail
  }

  function ReadFields(s: string): (r: Reading<seq<Field>>)
    ensures r.Got? ==> |r.rest| < |s|
    decreases |s|, 1
  {
    if !Starts(s, '\"') then Fail else
      var (key, afterKey) :- ReadChars(s[1..]);
      var colon := SkipWs(afterKey);
      if !Starts(colon, ':') then Fail else
        var (v, afterValue) :- ReadValue(SkipWs(colon[1..]));
        var t := SkipWs(afterValue);
        if Starts(t, '}') then Got([Field(key, v)], t[1..])
        else if Starts(t, ',') then
          var (more, rest) :- ReadFields(SkipWs(t[1..]));
          Got([Field(key, v)] + more, rest)
        else Fail
  }

  /** `json.loads(s)` on texts without fractions, exponents or surrogate escapes. */
  function Loads(s: string): Reading<Value> {
    var (v, rest) :- ReadValue(SkipWs(s));
    if SkipWs(rest) == "" then Got(v, "") else Fail
  }

  // ----- reading back what was written -----

  /** v's text is recognised as v when x follows it: only a nonzero number can run on into x. */
  predicate Delimited(v: Value, x: string) {
    v.Int? && v.n != 0 && x != "" ==> !IsDigit(x[0])
  }

  lemma {:induction false} ReadEscaped(s: string, x: string)
    ensures ReadChars(EscapeAll(s) + "\"" + x) == Got(s, x)
  {
    if s == "" {
      assert EscapeAll(s) + "\"" + x == "\"" + x;
    } else {
      var e, t := Escape(s[0]), EscapeAll(s[1..]) + "\"" + x;
      assert EscapeAll(s) + "\"" + x == e + t;
      ReadEscaped(s[1..], x);
      assert [s[0]] + s[1..] == s;
      ReadOneEscaped(s[0], t);
    }
  }

  lemma {:induction false} EscapeShape(c: char)
    ensures Escape(c) == [c] ==> c >= ' ' && c != '\"' && c != '\\'
    ensures Escape(c) != [c] ==> |Escape(c)| in {2, 6} && Escape(c)[0] == '\\'
  {
  }

  lemma {:induction false} ReadOneEscaped(c: char, t: string)
    requires ReadChars(t).Got?
    ensures ReadChars(Escape(c) + t) == Got([c] + ReadChars(t).value, ReadChars(t).rest)
  {
    EscapeShape(c);
    hide Escape;
    var s := Escape(c) + t;
    if Escape(c) == [c] {
      assert s[1..] == t;
    } else {
      assert s[0] == '\\' && s[1..] == Escape(c)[1..] + t;
      ReadEscapeOfEscape(c, t);
    }
  }

  lemma {:induction false} ReadEscapeOfEscape(c: char, t: string)
    requires Escape(c) != [c]
    ensures ReadEscape(Escape(c)[1..] + t) == Got(c, t)
  {
    var s := Escape(c)[1..] + t;
    if |Escape(c)| == 2 {
      assert s[1..] == t;
    } else {
      ReadUnicodeEscape(c as nat / 16, c as nat % 16, t);
      assert Escape(c)[1..] == "u00" + [HexDigit(c as nat / 16), HexDigit(c as nat % 16)];
    }
  }

  lemma {:induction false} ReadUnicodeEscape(h: nat, l: nat, t: string)
    requires h < 16 && l < 16
    ensures ReadEscape("u00" + [HexDigit(h), HexDigit(l)] + t) == Got((16 * h + l) as char, t)
  {
    var s := "u00" + [HexDigit(h), HexDigit(l)] + t;
    assert s[0] == 'u' && s[1] == '0' && s[2] == '0' && s[3] == HexDigit(h) && s[4] == HexDigit(l);
    assert s[5..] == t;
  }

  lemma {:induction false} ReadPrinted(n: nat, x: string)
    requires n > 0
    ensures ReadDigits(0, Decimal.Print(n) + x) == ReadDigits(n, x)
  {
    var p := Decimal.Print(n) + x;
    if n < 10 {
      assert p[1..] == x;
    } else {
      var d := [Decimal.DigitChar(n % 10)] + x;
      assert p == Decimal.Print(n / 10) + d;
      ReadPrinted(n / 10, d);
      assert d[1..] == x;
      assert Decimal.DigitValue(d[0]) == n % 10;
    }
  }

  lemma {:induction false} ReadNatPrinted(n: nat, x: string)
    requires Delimited(Int(n), x)
    ensures ReadNat(Decimal.Print(n) + x) == Got(n, x)
  {
    var p := Decimal.Print(n) + x;
    if n == 0 {
      assert p[1..] == x;
    } else {
      ReadPrinted(n, x);
      assert p[0] == Decimal.Print(n)[0];
      assert ReadDigits(0, p) == ReadDigits(Decimal.DigitValue(p[0]), p[1..]);
    }
  }

  lemma {:induction false} DumpsHead(v: Value)
    ensures Dumps(v) != "" && !IsWs(Dumps(v)[0]) && Dumps(v)[0] !in {']', '}', ','}
  {
  }

  /** Every value is read back from its own text, whatever delimited text follows. */
  lemma {:induction false} ReadDumped(v: Value, x: string)
    requires Delimited(v, x)
    ensures ReadValue(Dumps(v) + x) == Got(v, x)
    decreases v, 0
  {
    match v
    case Null => ReadDumpedLiteral(v, x);
    case Bool(_) => ReadDumpedLiteral(v, x);
    case Int(n) => ReadDumpedInt(n, x);
    case Str(t) => ReadDumpedStr(t, x);
    case Arr(items) =>
      if items != [] {
        ReadDumpedItems(items, x);
      }
      ReadDumpedArr(items, x);
    case Obj(fields) =>
      if fields != [] {
        ReadDumpedFields(fields, x);
      }
      ReadDumpedObj(fields, x);
  }

  lemma {:induction false} ReadDumpedLiteral(v: Value, x: string)
    requires v.Null? || v.Bool?
    ensures ReadValue(Dumps(v) + x) == Got(v, x)
  {
    var s := Dumps(v) + x;
    assert s[0] == Dumps(v)[0];
    assert s[|Dumps(v)|..] == x;
    assert s[..|Dumps(v)|] == Dumps(v);
  }

  lemma {:induction false} ReadDumpedInt(n: int, x: string)
    requires Delimited(Int(n), x)
    ensures ReadValue(DumpInt(n) + x) == Got(Int(n), x)
  {
    hide ReadValue, ReadNat, Decimal.Print;
    if n < 0 {
      var s := Decimal.Print(-n) + x;
      ReadNatPrinted(-n, x);
      assert DumpInt(n) + x == "-" + s;
      ReadNegative(s);
    } else {
      var s := Decimal.Print(n) + x;
      ReadNatPrinted(n, x);
      assert s[0] == Decimal.Print(n)[0];
      ReadNonnegative(s);
    }
  }

  lemma {:induction false} ReadNegative(s: string)
    requires ReadNat(s).Got?
    ensures ReadValue("-" + s) == Got(Int(0 - ReadNat(s).value), ReadNat(s).rest)
  {
    assert ("-" + s)[1..] == s;
  }

  lemma {:induction false} ReadNonnegative(s: string)
    requires ReadNat(s).Got? && IsDigit(s[0])
    ensures ReadValue(s) == Got(Int(ReadNat(s).value), ReadNat(s).rest)
  {
  }

  lemma {:induction false} ReadDumpedStr(t: string, x: string)
    ensures ReadValue(Quote(t) + x) == Got(Str(t), x)
  {
    assert (Quote(t) + x)[1..] == EscapeAll(t) + "\"" + x;
    ReadEscaped(t, x);
  }

  lemma {:induction false} ReadDumpedArr(items: seq<Value>, x: string)
    requires items != [] ==> ReadItems(DumpItems(items) + "]" + x) == Got(items, x)
    ensures ReadValue(Dumps(Arr(items)) + x) == Got(Arr(items), x)
  {
    var s := Dumps(Arr(items)) + x;
    var inner := DumpItems(items) + "]" + x;
    assert s[0] == '[' && s[1..] == inner;
    if items == [] {
      assert inner[1..] == x;
    } else {
      DumpsHead(items[0]);
      assert inner[0] == Dumps(items[0])[0];
    }
  }

  lemma {:induction false} ReadDumpedObj(fields: seq<Field>, x: string)
    requires fields != [] ==> ReadFields(DumpFields(fields) + "}" + x) == Got(fields, x)
    ensures ReadValue(Dumps(Obj(fields)) + x) == Got(Obj(fields), x)
  {
    var s := Dumps(Obj(fields)) + x;
    var inner := DumpFields(fields) + "}" + x;
    assert s[0] == '{' && s[1..] == inner;
    if fields == [] {
      assert inner[1..] == x;
    } else {
      assert inner[0] == '\"';
    }
  }

  /** A separator written as c followed by a space is skipped as a whole. */
  lemma {:induction false} SkipSeparator(c: char, more: string)
    requires !IsWs(c)
    requires more != "" && !IsWs(more[0])
    ensures Starts([c, ' '] + more, c)
    ensures SkipWs([c, ' '] + more) == [c, ' '] + more
    ensures SkipWs(([c, ' '] + more)[1..]) == more
  {
    var s := ([c, ' '] + more)[1..];
    assert s == [' '] + more;
    assert s[1..] == more;
  }

  lemma {:induction false} ReadDumpedItems(items: seq<Value>, x: string)
    requires items != []
    ensures ReadItems(DumpItems(items) + "]" + x) == Got(items, x)
    decreases items, 1
  {
    hide ReadValue, ReadItems, Dumps;
    var s := DumpItems(items) + "]" + x;
    if |items| == 1 {
      var after := "]" + x;
      assert s == Dumps(items[0]) + after;
      ReadDumped(items[0], after);
      assert after[1..] == x;
      ReadLastItem(s, items[0], after);
      assert items == [items[0]];
    } else {
      var more := DumpItems(items[1..]) + "]" + x;
      var after := [',', ' '] + more;
      assert s == Dumps(items[0]) + after;
      ReadDumped(items[0], after);
      ReadDumpedItems(items[1..], x);
      DumpsHead(items[1]);
      assert more[0] == Dumps(items[1])[0];
      SkipSeparator(',', more);
      ReadNextItem(s, items[0], after, more);
      assert items == [items[0]] + items[1..];
    }
  }

  lemma {:induction false} ReadLastItem(s: string, v: Value, after: string)
    requires ReadValue(s) == Got(v, after)
    requires Starts(after, ']')
    ensures ReadItems(s) == Got([v], after[1..])
  {
  }

  lemma {:induction false} ReadNextItem(s: string, v: Value, after: string, more: string)
    requires ReadValue(s) == Got(v, after)
    requires Starts(after, ',') && SkipWs(after[1..]) == more
    requires ReadItems(more).Got?
    ensures ReadItems(s) == Got([v] + ReadItems(more).value, ReadItems(more).rest)
  {
  }

  lemma {:induction false} ReadDumpedFields(fields: seq<Field>, x: string)
    requires fields != []
    ensures ReadFields(DumpFields(fields) + "}" + x) == Got(fields, x)
    decreases fields, 1
  {
    var field, after := fields[0], AfterField(fields, x);
    FirstFieldText(fields, x);
    AfterFieldText(fields, x);
    hide ReadValue, ReadFields, ReadsAs, Dumps, DumpFields;
    ReadDumped(field.value, after);
    ReadKey(field, after);
    if |fields| == 1 {
      ReadLastField(DumpField(field) + after, field, after);
      assert fields == [field];
    } else {
      ReadDumpedFields(fields[1..], x);
      ReadNextField(DumpField(field) + after, field, after, DumpFields(fields[1..]) + "}" + x);
      assert fields == [field] + fields[1..];
    }
  }

  /** What follows the first member in the object's text. */
  function AfterField(fields: seq<Field>, x: string): string
    requires fields != []
  {
    if |fields| == 1 then "}" + x else [',', ' '] + (DumpFields(fields[1..]) + "}" + x)
  }

  lemma {:induction false} FirstFieldText(fields: seq<Field>, x: string)
    requires fields != []
    ensures DumpFields(fields) + "}" + x == DumpField(fields[0]) + AfterField(fields, x)
  {
    hide DumpField;
    if |fields| > 1 {
      var d, more := DumpField(fields[0]), DumpFields(fields[1..]);
      hide DumpFields;
      Assoc(d, ", ", more);
      Assoc(d, ", " + more, "}");
      Assoc(d, ", " + more + "}", x);
      Assoc(", ", more, "}");
      Assoc(", ", more + "}", x);
    }
  }

  lemma {:induction false} DumpFieldsHead(fields: seq<Field>)
    requires fields != []
    ensures Starts(DumpFields(fields), '\"')
  {
    assert Starts(DumpField(fields[0]), '\"');
  }

  lemma {:induction false} AfterFieldText(fields: seq<Field>, x: string)
    requires fields != []
    ensures |fields| == 1 ==> Starts(AfterField(fields, x), '}') && AfterField(fields, x)[1..] == x
    ensures |fields| > 1 ==>
      (Starts(AfterField(fields, x), ',') && SkipWs(AfterField(fields, x)[1..]) == DumpFields(fields[1..]) + "}" + x)
  {
    hide Dumps, EscapeAll;
    if |fields| == 1 {
      assert AfterField(fields, x)[1..] == x;
    } else {
      var more := DumpFields(fields[1..]) + "}" + x;
      DumpFieldsHead(fields[1..]);
      hide DumpFields;
      SkipSeparator(',', more);
    }
  }

  /** s is a member whose value reads as field.value with `after` behind it. */
  ghost predicate ReadsAs(s: string, field: Field, after: string) {
    && Starts(s, '\"')
    && ReadChars(s[1..]).Got?
    && ReadChars(s[1..]).value == field.key
    && var colon := SkipWs(ReadChars(s[1..]).rest);
    && Starts(colon, ':')
    && ReadValue(SkipWs(colon[1..])) == Got(field.value, after)
  }

  lemma {:induction false} ReadKey(field: Field, after: string)
    requires ReadValue(Dumps(field.value) + after) == Got(field.value, after)
    ensures ReadsAs(DumpField(field) + after, field, after)
  {
    hide ReadValue, Dumps;
    var value := Dumps(field.value) + after;
    var colon := [':', ' '] + value;
    assert (DumpField(field) + after)[1..] == EscapeAll(field.key) + "\"" + colon;
    ReadEscaped(field.key, colon);
    DumpsHead(field.value);
    assert value[0] == Dumps(field.value)[0];
    SkipSeparator(':', value);
  }

  lemma {:induction false} ReadLastField(s: string, field: Field, after: string)
    requires ReadsAs(s, field, after)
    requires Starts(after, '}')
    ensures ReadFields(s) == Got([field], after[1..])
  {
  }

  lemma {:induction false} ReadNextField(s: string, field: Field, after: string, more: string)
    requires ReadsAs(s, field, after)
    requires Starts(after, ',') && SkipWs(after[1..]) == more
    requires ReadFields(more).Got?
    ensures ReadFields(s) == Got([field] + ReadFields(more).value, ReadFields(more).rest)
  {
  }

  /** `json.loads(json.dumps(v)) == v`, so two values with the same text are the same value. */
  lemma {:induction false} LoadsDumps(v: Value)
    ensures Loads(Dumps(v)) == Got(v, "")
  {
    DumpsHead(v);
    ReadDumped(v, "");
    assert Dumps(v) + "" == Dumps(v);
  }

  // ----- what the text is, told by the reader alone -----

  /** Equal but for the case of hexadecimal digits. */
  predicate SameButForCase(t: string, u: string) {
    |t| == |u| && forall i :: 0 <= i < |t| ==> t[i] == u[i] || HexValue(t[i]) == HexValue(u[i]) >= 10
  }

  /**
   * No text that reads as a string, a number or a literal is shorter than the one Dumps writes, and one of the same
   * length is the same text but for the case of hexadecimal digits. Dumps writes none in upper case (see NoCapitals).
   */
  lemma {:induction false} DumpsIsShortest(v: Value, t: string, rest: string)
    requires !v.Arr? && !v.Obj?
    requires ReadValue(t) == Got(v, rest)
    ensures |t| >= |Dumps(v)| + |rest|
    ensures |t| == |Dumps(v)| + |rest| ==> SameButForCase(t, Dumps(v) + rest)
  {
    match v
    case Str(s) => StrIsShortest(s, t, rest);
    case Int(n) => IntIsShortest(n, t, rest);
    case _ => LiteralIsShortest(v, t, rest);
  }

  lemma {:induction false} LiteralIsShortest(v: Value, t: string, rest: string)
    requires v.Null? || v.Bool?
    requires ReadValue(t) == Got(v, rest)
    ensures t == Dumps(v) + rest
  {
    hide ReadItems, ReadFields, ReadChars, ReadNat, SkipWs;
    var n := |Dumps(v)|;
    assert t[..n] == Dumps(v) && t == t[..n] + t[n..];
  }

  lemma {:induction false} StrIsShortest(s: string, t: string, rest: string)
    requires ReadValue(t) == Got(Str(s), rest)
    ensures |t| >= |Quote(s)| + |rest|
    ensures |t| == |Quote(s)| + |rest| ==> SameButForCase(t, Quote(s) + rest)
  {
    hide ReadItems, ReadFields, ReadNat, SkipWs, ReadChars, HexValue, EscapeAll;
    assert t[0] == '\"' && ReadChars(t[1..]) == Got(s, rest);
    CharsAreShortest(s, t[1..], rest);
    if |t| == |Quote(s)| + |rest| {
      SameAfter("\"", t[1..], "\"", EscapeAll(s) + "\"" + rest);
      assert t == "\"" + t[1..] && Quote(s) + rest == "\"" + (EscapeAll(s) + "\"" + rest);
    }
  }

  lemma {:induction false} SameAfter(t: string, t2: string, u: string, u2: string)
    requires SameButForCase(t, u) && SameButForCase(t2, u2)
    ensures SameButForCase(t + t2, u + u2)
  {
    hide HexValue;
  }

  lemma {:induction false} CharsAreShortest(s: string, t: string, rest: string)
    requires ReadChars(t) == Got(s, rest)
    ensures |t| >= |EscapeAll(s)| + 1 + |rest|
    ensures |t| == |EscapeAll(s)| + 1 + |rest| ==> SameButForCase(t, EscapeAll(s) + "\"" + rest)
  {
    CharsBegin(t);
    hide ReadChars, Escape, EscapeAll, SameButForCase;
    if t[0] == '\"' {
      QuoteEnds(t);
    } else {
      var n := OneIsShortest(t);
      CharsAreShortest(s[1..], t[n..], rest);
      CharsCombine(s, t, n, rest);
    }
  }

  lemma {:induction false} CharsBegin(t: string)
    requires ReadChars(t).Got?
    ensures t != ""
  {
  }

  lemma {:induction false} QuoteEnds(t: string)
    requires Starts(t, '\"')
    ensures ReadChars(t) == Got("", t[1..])
    ensures t == EscapeAll("") + "\"" + t[1..] && SameButForCase(t, EscapeAll("") + "\"" + t[1..])
  {
    assert t == EscapeAll("") + "\"" + t[1..];
    SameAsItself(t);
  }

  lemma {:induction false} CharsCombine(s: string, t: string, n: nat, rest: string)
    requires s != "" && n <= |t|
    requires n >= |Escape(s[0])| && (n == |Escape(s[0])| ==> SameButForCase(t[..n], Escape(s[0])))
    requires var tail, more := t[n..], EscapeAll(s[1..]) + "\"" + rest;
      |tail| >= |more| && (|tail| == |more| ==> SameButForCase(tail, more))
    ensures |t| >= |EscapeAll(s)| + 1 + |rest|
    ensures |t| == |EscapeAll(s)| + 1 + |rest| ==> SameButForCase(t, EscapeAll(s) + "\"" + rest)
  {
    hide Escape, SameButForCase;
    var more := EscapeAll(s[1..]) + "\"" + rest;
    assert EscapeAll(s) + "\"" + rest == Escape(s[0]) + more;
    assert t == t[..n] + t[n..];
    if |t| == |EscapeAll(s)| + 1 + |rest| {
      SameAfter(t[..n], t[n..], Escape(s[0]), more);
    }
  }

  lemma {:induction false} SameAsItself(t: string)
    ensures SameButForCase(t, t)
  {
  }

  /** The first character of a string that is read: n characters of text stand for it, no fewer than Escape writes. */
  lemma {:induction false} OneIsShortest(t: string) returns (n: nat)
    requires ReadChars(t).Got? && t[0] != '\"'
    ensures 0 < n <= |t| && ReadChars(t[n..]).Got? && ReadChars(t).rest == ReadChars(t[n..]).rest
    ensures ReadChars(t).value != "" && ReadChars(t).value[1..] == ReadChars(t[n..]).value
    ensures var c := ReadChars(t).value[0];
      n >= |Escape(c)| && (n == |Escape(c)| ==> SameButForCase(t[..n], Escape(c)))
  {
    if t[0] == '\\' {
      var c, after := ReadEscape(t[1..]).value, ReadEscape(t[1..]).rest;
      n := |t| - |after|;
      EscapeIsShortest(t[1..]);
      assert t[n..] == t[1..][n - 1..];
      assert t[..n] == ['\\'] + t[1..][..n - 1];
    } else {
      n := 1;
    }
  }

  lemma {:induction false} EscapeIsShortest(s: string)
    requires ReadEscape(s).Got?
    ensures var c, n := ReadEscape(s).value, |s| - |ReadEscape(s).rest|;
      && n in {1, 5} && ReadEscape(s).rest == s[n..]
      && n + 1 >= |Escape(c)|
      && (n + 1 == |Escape(c)| ==> SameButForCase(['\\'] + s[..n], Escape(c)))
  {
    if s[0] == 'u' {
      UnicodeIsShortest(s);
    }
  }

  lemma {:induction false} UnicodeIsShortest(s: string)
    requires ReadEscape(s).Got? && s[0] == 'u'
    ensures var c := ReadEscape(s).value;
      && ReadEscape(s).rest == s[5..] && |Escape(c)| <= 6
      && (|Escape(c)| == 6 ==> SameButForCase(['\\'] + s[..5], Escape(c)))
  {
    var c := ReadEscape(s).value;
    if |Escape(c)| == 6 {
      HexOfControl(s);
      EscapeOfControl(c);
      hide ReadEscape, HexValue, HexDigit, Escape;
      assert s[..5] == [s[0], s[1], s[2], s[3], s[4]];
    }
  }

  /** The digits of a \u escape for a control character. */
  lemma {:induction false} HexOfControl(s: string)
    requires ReadEscape(s).Got? && s[0] == 'u' && ReadEscape(s).value < ' '
    ensures var c := ReadEscape(s).value as nat;
      && |s| >= 5 && s[1] == s[2] == '0' && HexValue(s[3]) == c / 16 && HexValue(s[4]) == c % 16
      && (s[3] == HexDigit(c / 16) || HexValue(s[3]) == HexValue(HexDigit(c / 16)) >= 10)
      && (s[4] == HexDigit(c % 16) || HexValue(s[4]) == HexValue(HexDigit(c % 16)) >= 10)
  {
    OneDigit(s[3]);
    OneDigit(s[4]);
  }

  lemma {:induction false} OneDigit(x: char)
    requires HexValue(x) >= 0
    ensures x == HexDigit(HexValue(x)) || HexValue(x) == HexValue(HexDigit(HexValue(x))) >= 10
  {
  }

  lemma {:induction false} EscapeOfControl(c: char)
    requires |Escape(c)| == 6
    ensures c < ' ' && Escape(c) == ['\\', 'u', '0', '0', HexDigit(c as nat / 16), HexDigit(c as nat % 16)]
  {
    hide HexDigit;
  }

  /** A natural number has one text only. */
  lemma {:induction false} NatTextIsUnique(t: string, n: nat, rest: string)
    requires ReadNat(t) == Got(n, rest)
    ensures t == Decimal.Print(n) + rest
  {
    if t[0] == '0' {
      assert t == "0" + t[1..];
    } else {
      var d := Decimal.DigitValue(t[0]);
      DigitsText(d, t[1..]);
      assert t == [t[0]] + t[1..];
    }
  }

  lemma {:induction false} DigitsText(acc: nat, s: string)
    requires acc > 0
    ensures var (n, rest) := ReadDigits(acc, s);
      Decimal.Print(acc) + s == Decimal.Print(n) + rest
    decreases |s|
  {
    if s != "" && IsDigit(s[0]) {
      var d := Decimal.DigitValue(s[0]);
      DigitsText(10 * acc + d, s[1..]);
      assert Decimal.Print(10 * acc + d) == Decimal.Print(acc) + [s[0]];
      assert Decimal.Print(acc) + s == (Decimal.Print(acc) + [s[0]]) + s[1..];
    }
  }

  lemma {:induction false} IntIsShortest(n: int, t: string, rest: string)
    requires ReadValue(t) == Got(Int(n), rest)
    ensures |t| >= |DumpInt(n)| + |rest|
    ensures |t| == |DumpInt(n)| + |rest| ==> t == DumpInt(n) + rest
  {
    IntIsRead(n, t, rest);
    hide ReadValue, ReadNat, DumpInt;
    if t[0] == '-' {
      NatTextIsUnique(t[1..], -n, rest);
      assert t == "-" + t[1..];
      NegativeText(n, rest);
    } else {
      NatTextIsUnique(t, n, rest);
      NaturalText(n);
    }
  }

  lemma {:induction false} NegativeText(n: int, rest: string)
    requires n <= 0
    ensures n < 0 ==> DumpInt(n) + rest == "-" + (Decimal.Print(-n) + rest)
    ensures n == 0 ==> |DumpInt(n)| + |rest| < |"-" + (Decimal.Print(-n) + rest)|
  {
    hide Decimal.Print;
  }

  lemma {:induction false} NaturalText(n: nat)
    ensures DumpInt(n) == Decimal.Print(n)
  {
    hide Decimal.Print;
  }

  lemma {:induction false} IntIsRead(n: int, t: string, rest: string)
    requires ReadValue(t) == Got(Int(n), rest)
    ensures t != "" && if t[0] == '-' then n <= 0 && ReadNat(t[1..]) == Got(-n, rest) else n >= 0 && ReadNat(t) == Got(n, rest)
  {
    hide ReadItems, ReadFields, ReadNat, SkipWs, ReadChars;
  }

  /** The text of a string has no capital letter that is not in the string. */
  lemma {:induction false} NoCapitals(s: string)
    ensures forall c :: c in Dumps(Str(s)) && 'A' <= c <= 'Z' ==> c in s
  {
    if s != "" {
      NoCapitals(s[1..]);
      NoCapitalsInEscape(s[0]);
      hide Escape;
      assert s == [s[0]] + s[1..];
    }
  }

  lemma {:induction false} NoCapitalsInEscape(x: char)
    ensures forall c :: c in Escape(x) && 'A' <= c <= 'Z' ==> c == x
  {
  }

  /** A string without quotes, backslashes and control characters is written as itself, whatever its script. */
  lemma {:induction false} PlainIsItself(s: string)
    requires forall i :: 0 <= i < |s| ==> s[i] >= ' ' && s[i] != '\"' && s[i] != '\\'
    ensures Dumps(Str(s)) == "\"" + s + "\""
  {
    PlainChars(s);
  }

  lemma {:induction false} PlainChars(s: string)
    requires forall i :: 0 <= i < |s| ==> s[i] >= ' ' && s[i] != '\"' && s[i] != '\\'
    ensures EscapeAll(s) == s
  {
    if s != "" {
      PlainChars(s[1..]);
    }
  }

  // ----- the text of an object -----

  /** The members of an object are written one after the other with ", " between them... */
  lemma {:induction false} DumpFieldsConcat(a: seq<Field>, b: seq<Field>)
    requires a != [] && b != []
    ensures DumpFields(a + b) == DumpFields(a) + ", " + DumpFields(b)
  {
    hide DumpField;
    if |a| == 1 {
      assert (a + b)[1..] == b;
    } else {
      assert (a + b)[1..] == a[1..] + b;
      DumpFieldsConcat(a[1..], b);
    }
  }

  /** ... each as its key's text and its value's text with ": " between them. */
  lemma {:induction false} DumpOneField(key: string, v: Value)
    ensures Dumps(Obj([Field(key, v)])) == "{" + Dumps(Str(key)) + ": " + Dumps(v) + "}"
  {
    hide Quote;
    var field := Field(key, v);
    assert DumpFields([field]) == DumpField(field);
  }
}
