/** The parts of Python's str type that the modelled tools use. Text is a sequence of code points. */
module Text {

  predicate StartsWith(s: string, prefix: string) {
    prefix <= s
  }

  predicate EndsWith(s: string, suffix: string) {
    |suffix| <= |s| && s[|s| - |suffix|..] == suffix
  }

  /** sub occurs in s at offset i. */
  predicate OccursAt(s: string, sub: string, i: int) {
    0 <= i <= |s| - |sub| && s[i..i + |sub|] == sub
  }

  /** `s.find(sub, from)`: the first occurrence at or after `from`, or -1 (see FindIsFirst). */
  function Find(s: string, sub: string, from: nat): (r: int)
    ensures r == -1 || (from <= r && OccursAt(s, sub, r))
    decreases |s| - from
  {
    if from + |sub| > |s| then -1
    else if OccursAt(s, sub, from) then from
    else Find(s, sub, from + 1)
  }

  lemma {:induction false} FindIsFirst(s: string, sub: string, from: nat, i: nat)
    requires from <= i && OccursAt(s, sub, i)
    ensures 0 <= Find(s, sub, from) <= i
    decreases |s| - from
  {
    if !OccursAt(s, sub, from) {
      FindIsFirst(s, sub, from + 1, i);
    }
  }

  /** A search passes over offsets where sub does not occur, and stops where it does. */
  lemma {:induction false} FindSkips(s: string, sub: string, from: nat, i: nat)
    requires from <= i && forall j :: from <= j < i ==> !OccursAt(s, sub, j)
    ensures Find(s, sub, from) == -1 || Find(s, sub, from) >= i
    ensures OccursAt(s, sub, i) ==> Find(s, sub, from) == i
    decreases i - from
  {
    if OccursAt(s, sub, i) {
      FindIsFirst(s, sub, from, i);
    }
    if from < i {
      FindSkips(s, sub, from + 1, i);
    }
  }

  /** Looking for one character. */
  lemma {:induction false} FindChar(s: string, c: char, from: nat, i: nat)
    requires from <= i <= |s|
    requires forall j :: from <= j < i ==> s[j] != c
    ensures i < |s| && s[i] == c ==> Find(s, [c], from) == i
    ensures i == |s| ==> Find(s, [c], from) == -1
    decreases i - from
  {
    if from < |s| {
      assert s[from..from + 1][0] == s[from];
      assert OccursAt(s, [c], from) <==> s[from] == c;
    }
    if from < i {
      FindChar(s, c, from + 1, i);
    }
  }

  /** The last occurrence of sub that starts before `upto`, or -1 (see RFindIsLast). */
  function RFindBefore(s: string, sub: string, upto: nat): (r: int)
    ensures r == -1 || (r < upto && OccursAt(s, sub, r))
  {
    if upto == 0 then -1
    else if OccursAt(s, sub, upto - 1) then upto - 1
    else RFindBefore(s, sub, upto - 1)
  }

  /** `s.rfind(sub)` for a nonempty sub. */
  function RFind(s: string, sub: string): (r: int)
    ensures r == -1 || OccursAt(s, sub, r)
  {
    RFindBefore(s, sub, |s|)
  }

  lemma {:induction false} RFindIsLast(s: string, sub: string, upto: nat, i: nat)
    requires i < upto && OccursAt(s, sub, i)
    ensures i <= RFindBefore(s, sub, upto)
  {
    if !OccursAt(s, sub, upto - 1) {
      RFindIsLast(s, sub, upto - 1, i);
    }
  }

  predicate IsDigit(c: char) {
    '0' <= c <= '9'
  }

  /** The characters for which `str.isspace()` holds. */
  predicate IsSpace(c: char) {
    || '\t' <= c <= '\r'
    || '\U{1c}' <= c <= ' '
    || c == '\U{85}' || c == '\U{a0}' || c == '\U{1680}'
    || '\U{2000}' <= c <= '\U{200a}'
    || c == '\U{2028}' || c == '\U{2029}' || c == '\U{202f}' || c == '\U{205f}' || c == '\U{3000}'
  }

  predicate AllBlank(s: string, blank: char -> bool) {
    forall i :: 0 <= i < |s| ==> blank(s[i])
  }

  function TrimLeft(s: string, blank: char -> bool): string {
    if s != "" && blank(s[0]) then TrimLeft(s[1..], blank) else s
  }

  function TrimRight(s: string, blank: char -> bool): string {
    if s != "" && blank(s[|s| - 1]) then TrimRight(s[..|s| - 1], blank) else s
  }

  /** s without the blanks at both ends (see TrimSplits). */
  function Trim(s: string, blank: char -> bool): string {
    TrimRight(TrimLeft(s, blank), blank)
  }

  /** `s.strip()` */
  function Strip(s: string): string {
    Trim(s, IsSpace)
  }

  lemma {:induction false} TrimNothing(s: string, blank: char -> bool)
    requires s != "" ==> !blank(s[0]) && !blank(s[|s| - 1])
    ensures Trim(s, blank) == s
  {
  }

  lemma {:induction false} StripNothing(s: string)
    requires s != "" ==> !IsSpace(s[0]) && !IsSpace(s[|s| - 1])
    ensures Strip(s) == s
  {
    TrimNothing(s, IsSpace);
  }

  /** Trim takes off all blanks at both ends and nothing else. */
  lemma {:induction false} TrimSplits(s: string, blank: char -> bool) returns (lead: string, trail: string)
    ensures var core := Trim(s, blank);
      && s == lead + core + trail && AllBlank(lead, blank) && AllBlank(trail, blank)
      && (core != "" ==> !blank(core[0]) && !blank(core[|core| - 1]))
  {
    lead := TrimLeftSplits(s, blank);
    trail := TrimRightSplits(TrimLeft(s, blank), blank);
  }

  lemma {:induction false} TrimLeftSplits(s: string, blank: char -> bool) returns (lead: string)
    ensures s == lead + TrimLeft(s, blank) && AllBlank(lead, blank)
    ensures TrimLeft(s, blank) != "" ==> !blank(TrimLeft(s, blank)[0])
  {
    if s != "" && blank(s[0]) {
      var more := TrimLeftSplits(s[1..], blank);
      lead := [s[0]] + more;
    } else {
      lead := "";
    }
  }

  lemma {:induction false} TrimRightSplits(s: string, blank: char -> bool) returns (trail: string)
    ensures s == TrimRight(s, blank) + trail && AllBlank(trail, blank)
    ensures TrimRight(s, blank) != "" ==> !blank(TrimRight(s, blank)[|TrimRight(s, blank)| - 1])
  {
    if s != "" && blank(s[|s| - 1]) {
      var more := TrimRightSplits(s[..|s| - 1], blank);
      trail := more + [s[|s| - 1]];
    } else {
      trail := "";
    }
  }

  /** So a text with blanks around a core is trimmed to the core. */
  lemma {:induction false} TrimBlanks(lead: string, core: string, trail: string, blank: char -> bool)
    requires AllBlank(lead, blank) && AllBlank(trail, blank)
    requires core != "" && !blank(core[0]) && !blank(core[|core| - 1])
    ensures Trim(lead + core + trail, blank) == core
  {
    TrimLeftBlanks(lead, core + trail, blank);
    assert lead + core + trail == lead + (core + trail);
    TrimRightBlanks(core, trail, blank);
  }

  lemma {:induction false} TrimLeftBlanks(lead: string, rest: string, blank: char -> bool)
    requires AllBlank(lead, blank) && rest != "" && !blank(rest[0])
    ensures TrimLeft(lead + rest, blank) == rest
  {
    if lead == "" {
      assert lead + rest == rest;
    } else {
      assert (lead + rest)[1..] == lead[1..] + rest;
      TrimLeftBlanks(lead[1..], rest, blank);
    }
  }

  lemma {:induction false} TrimRightBlanks(core: string, trail: string, blank: char -> bool)
    requires AllBlank(trail, blank) && core != "" && !blank(core[|core| - 1])
    ensures TrimRight(core + trail, blank) == core
  {
    if trail == "" {
      assert core + trail == core;
    } else {
      assert (core + trail)[..|core + trail| - 1] == core + trail[..|trail| - 1];
      TrimRightBlanks(core, trail[..|trail| - 1], blank);
    }
  }

  /** The slice `s[lo:hi]` for nonnegative bounds: Python clamps both to the length. */
  function Slice(s: string, lo: nat, hi: nat): string {
    var h := if hi < |s| then hi else |s|;
    if lo < h then s[lo..h] else ""
  }

  lemma {:induction false} Assoc(a: string, b: string, c: string)
    ensures (a + b) + c == a + (b + c)
  {
  }

  /** The number of bytes of one code point in UTF-8. */
  function Utf8Width(c: char): nat {
    if c < '\U{80}' then 1 else if c < '\U{800}' then 2 else if c < '\U{10000}' then 3 else 4
  }

  /** `len(s.encode("utf-8"))` */
  function Utf8Len(s: string): nat {
    if s == "" then 0 else Utf8Width(s[0]) + Utf8Len(s[1..])
  }

  /** How many numbers a form of n bytes can hold (RFC 3629, section 3): seven bits, eleven, five more per further byte. */
  function Utf8Capacity(n: nat): nat {
    if n == 0 then 0 else if n == 1 then 0x80 else if n == 2 then 0x800 else 32 * Utf8Capacity(n - 1)
  }

  /** A code point takes the shortest form that can hold it. */
  lemma {:induction false} Utf8WidthIsLeast(c: char, n: nat)
    requires n <= 4
    ensures Utf8Width(c) <= n <==> c as int < Utf8Capacity(n)
  {
    assert Utf8Capacity(3) == 0x10000 && Utf8Capacity(4) == 0x200000;
  }

  lemma {:induction false} Utf8LenConcat(s: string, t: string)
    ensures Utf8Len(s + t) == Utf8Len(s) + Utf8Len(t)
  {
    if s == "" {
      assert s + t == t;
    } else {
      assert (s + t)[1..] == s[1..] + t;
      Utf8LenConcat(s[1..], t);
    }
  }

  lemma {:induction false} Utf8LenSplit(s: string, i: nat, j: nat)
    requires i <= j <= |s|
    ensures Utf8Len(s) == Utf8Len(s[0..i]) + Utf8Len(s[i..j]) + Utf8Len(s[j..])
  {
    assert s == s[..j] + s[j..];
    assert s[..j] == s[0..i] + s[i..j];
    Utf8LenConcat(s[..j], s[j..]);
    Utf8LenConcat(s[0..i], s[i..j]);
  }

  /** `"".join(parts)` */
  function Join(parts: seq<string>): string {
    if parts == [] then "" else parts[0] + Join(parts[1..])
  }

  lemma {:induction false} JoinConcat(xs: seq<string>, ys: seq<string>)
    ensures Join(xs + ys) == Join(xs) + Join(ys)
  {
    if xs == [] {
      assert xs + ys == ys;
    } else {
      assert (xs + ys)[1..] == xs[1..] + ys;
      JoinConcat(xs[1..], ys);
    }
  }
}
