/** evals/spine_probe.py: how much of one serialized request survives as a prefix of the next. */
module SpineProbe {
  import opened Text
  import opened Json
  import opened Sums
  import Turns
  import Headers

  // ----- the longest common prefix -----

  /** n is the length of the longest common prefix of a and b. */
  ghost predicate IsLongestCommonPrefix(a: string, b: string, n: nat) {
    && n <= |a| && n <= |b|
    && a[..n] == b[..n]
    && (n < |a| && n < |b| ==> a[n] != b[n])
  }

  /** The same number by comparing character by character. */
  function Lcp(a: string, b: string): (n: nat)
    ensures n <= |a| && n <= |b|
  {
    if a == "" || b == "" || a[0] != b[0] then 0 else 1 + Lcp(a[1..], b[1..])
  }

  lemma {:induction false} LcpIsLongest(a: string, b: string, n: nat)
    ensures IsLongestCommonPrefix(a, b, n) <==> n == Lcp(a, b)
  {
    if a != "" && b != "" && a[0] == b[0] {
      if n > 0 {
        LcpIsLongest(a[1..], b[1..], n - 1);
        if n <= |a| && n <= |b| {
          assert a[..n] == [a[0]] + a[1..][..n - 1] && b[..n] == [b[0]] + b[1..][..n - 1];
        }
      }
    }
  }

  /** Binary search over prefix lengths: `a[:mid] == b[:mid]` is monotone in mid. */
  method CommonPrefixLen(a: string, b: string) returns (lo: nat)
    ensures lo == Lcp(a, b)
    ensures IsLongestCommonPrefix(a, b, lo)
  {
    var n := if |a| <= |b| then |a| else |b|;
    var hi := n;
    lo := 0;
    while lo < hi
      invariant lo <= hi <= n
      invariant a[..lo] == b[..lo]
      invariant hi < n ==> a[..hi + 1] != b[..hi + 1]
    {
      var mid := (lo + hi + 1) / 2;
      if a[..mid] == b[..mid] {
        lo := mid;
      } else {
        hi := mid - 1;
      }
    }
    assert lo < n ==> a[..lo + 1] == a[..lo] + [a[lo]] && b[..lo + 1] == b[..lo] + [b[lo]];
    LcpIsLongest(a, b, lo);
  }

  // ----- append integrity -----

  /** `len(a) - cp`, the characters of the previous request that did not survive. */
  function AppendGap(a: string, b: string): int {
    |a| - Lcp(a, b)
  }

  function Serialized(messages: seq<Value>): string {
    Dumps(Arr(messages))
  }

  /** The probe's verdict that the second request only appended to the first. */
  predicate CleanAppend(a: seq<Value>, b: seq<Value>) {
    AppendGap(Serialized(a), Serialized(b)) <= 1
  }

  /** The last message's text cannot run on; chat messages are objects, so they always qualify. */
  predicate EndsDelimited(messages: seq<Value>) {
    messages != [] && messages[|messages| - 1].Int? ==> messages[|messages| - 1].n == 0
  }

  lemma {:induction false} DumpItemsConcat(a: seq<Value>, b: seq<Value>)
    requires a != [] && b != []
    ensures DumpItems(a + b) == DumpItems(a) + ", " + DumpItems(b)
  {
    if |a| == 1 {
      assert (a + b)[1..] == b;
    } else {
      assert (a + b)[1..] == a[1..] + b;
      DumpItemsConcat(a[1..], b);
    }
  }

  /** A true append changes nothing but the closing bracket. */
  lemma {:induction false} AppendLosesOneCharacter(a: seq<Value>, b: seq<Value>)
    requires a <= b
    ensures AppendGap(Serialized(a), Serialized(b)) == if a == b then 0 else 1
  {
    if a == b {
      LcpIsLongest(Serialized(a), Serialized(a), |Serialized(a)|);
    } else {
      var more := b[|a|..];
      assert b == a + more;
      var next := AppendedText(a, more);
      CloseOrContinue("[" + DumpItems(a), next);
      assert Serialized(a) == "[" + DumpItems(a) + "]";
    }
  }

  lemma {:induction false} AppendedText(a: seq<Value>, more: seq<Value>) returns (next: string)
    requires more != []
    ensures Serialized(a + more) == "[" + DumpItems(a) + next
    ensures next != "" && next[0] != ']'
  {
    DumpsHead(more[0]);
    if a == [] {
      assert a + more == more;
      next := DumpItems(more) + "]";
      assert next[0] == Dumps(more[0])[0];
      assert "[" + DumpItems(a) == "[";
    } else {
      DumpItemsConcat(a, more);
      next := ", " + DumpItems(more) + "]";
    }
  }

  lemma {:induction false} CloseOrContinue(p: string, next: string)
    requires next != "" && next[0] != ']'
    ensures AppendGap(p + "]", p + next) == 1
  {
    LcpIsLongest(p + "]", p + next, |p|);
  }

  /** The list's text after its first item, with z behind it. */
  function AfterFirst(items: seq<Value>, z: string): string
    requires items != []
  {
    if |items| == 1 then z else ", " + DumpItems(items[1..]) + z
  }

  lemma {:induction false} DumpItemsFirst(items: seq<Value>, z: string)
    requires items != []
    ensures DumpItems(items) + z == Dumps(items[0]) + AfterFirst(items, z)
    ensures |items| > 1 ==> AfterFirst(items, z)[0] == ',' && AfterFirst(items, z)[2..] == DumpItems(items[1..]) + z
  {
    if |items| > 1 {
      var d, more := Dumps(items[0]), DumpItems(items[1..]);
      Assoc(d, ", ", more);
      Assoc(d, ", " + more, z);
      Assoc(", ", more, z);
    } else {
      assert items == [items[0]];
    }
  }

  /** If the messages' text opens another list's text, the messages open the other list. */
  lemma {:induction false} ItemsPrefix(a: seq<Value>, b: seq<Value>, z: string)
    requires EndsDelimited(a)
    requires DumpItems(a) + z == DumpItems(b) + "]"
    ensures a <= b
  {
    hide Dumps, DumpItems;
    if a != [] {
      FirstItemsAgree(a, b, z);
      if |a| > 1 {
        RestsAgree(a, b, z);
        ItemsPrefix(a[1..], b[1..], z);
        assert a == [a[0]] + a[1..] && b == [b[0]] + b[1..];
      }
    }
  }

  lemma {:induction false} FirstItemsAgree(a: seq<Value>, b: seq<Value>, z: string)
    requires a != [] && EndsDelimited(a)
    requires DumpItems(a) + z == DumpItems(b) + "]"
    ensures b != [] && a[0] == b[0] && AfterFirst(a, z) == AfterFirst(b, "]")
  {
    hide Dumps, DumpItems;
    DumpItemsFirst(a, z);
    FirstIsNotBracket(a, b, z);
    DumpItemsFirst(b, "]");
    ReadBoth(a[0], AfterFirst(a, z), b[0], AfterFirst(b, "]"));
  }

  lemma {:induction false} RestsAgree(a: seq<Value>, b: seq<Value>, z: string)
    requires |a| > 1 && b != []
    requires AfterFirst(a, z) == AfterFirst(b, "]")
    ensures |b| > 1 && DumpItems(a[1..]) + z == DumpItems(b[1..]) + "]"
  {
    hide DumpItems;
    DumpItemsFirst(a, z);
    DumpItemsFirst(b, "]");
  }

  lemma {:induction false} FirstIsNotBracket(a: seq<Value>, b: seq<Value>, z: string)
    requires a != []
    requires DumpItems(a) + z == DumpItems(b) + "]"
    ensures b != []
  {
    DumpItemsFirst(a, z);
    DumpsHead(a[0]);
    assert (DumpItems(a) + z)[0] == Dumps(a[0])[0];
  }

  lemma {:induction false} ReadBoth(v: Value, x: string, w: Value, y: string)
    requires Delimited(v, x) && Delimited(w, y)
    requires Dumps(v) + x == Dumps(w) + y
    ensures v == w && x == y
  {
    ReadDumped(v, x);
    ReadDumped(w, y);
  }

  /** If all but the last character survived, the previous messages' text opens the next request. */
  lemma {:induction false} CleanMeansTextPrefix(a: seq<Value>, b: seq<Value>) returns (z: string)
    requires CleanAppend(a, b)
    ensures DumpItems(a) + z == DumpItems(b) + "]"
  {
    hide DumpItems, Lcp;
    var s, t := Serialized(a), Serialized(b);
    var n := |s| - 1;
    LcpIsLongest(s, t, Lcp(s, t));
    assert s[..n] == t[..n] by {
      assert s[..n] == s[..Lcp(s, t)][..n] && t[..n] == t[..Lcp(s, t)][..n];
    }
    assert s[..n] == "[" + DumpItems(a);
    z := t[n..];
    assert t == s[..n] + z;
    assert t[1..] == DumpItems(b) + "]";
    assert (("[" + DumpItems(a)) + z)[1..] == DumpItems(a) + z;
  }

  /** The verdict is right for every pair of requests whose first one ends delimited. */
  lemma {:induction false} AppendIntegrity(a: seq<Value>, b: seq<Value>)
    requires EndsDelimited(a)
    ensures CleanAppend(a, b) <==> a <= b
  {
    if a <= b {
      AppendLosesOneCharacter(a, b);
    }
    if CleanAppend(a, b) {
      var z := CleanMeansTextPrefix(a, b);
      ItemsPrefix(a, b, z);
    }
  }

  /** Otherwise it is wrong for some next request: a bare number can grow by a digit unnoticed. */
  lemma {:induction false} AppendIntegrityExactly(a: seq<Value>)
    ensures (forall b :: CleanAppend(a, b) <==> a <= b) <==> EndsDelimited(a)
  {
    if EndsDelimited(a) {
      forall b ensures CleanAppend(a, b) <==> a <= b {
        AppendIntegrity(a, b);
      }
    } else {
      var last := |a| - 1;
      var b := a[..last] + [Int(10 * a[last].n)];
      GrownNumberLooksClean(a);
      assert b[last] != a[last];
      assert CleanAppend(a, b) && !(a <= b);
    }
  }

  lemma {:induction false} GrownNumberLooksClean(a: seq<Value>)
    requires !EndsDelimited(a)
    ensures CleanAppend(a, a[..|a| - 1] + [Int(10 * a[|a| - 1].n)])
  {
    var init, n := a[..|a| - 1], a[|a| - 1].n;
    assert a == init + [Int(n)];
    GrownText(init, n);
    CloseOrContinue("[" + DumpItems(a), "0]");
    assert Serialized(a) == "[" + DumpItems(a) + "]";
  }

  lemma {:induction false} GrownText(init: seq<Value>, n: int)
    requires n != 0
    ensures Serialized(init + [Int(10 * n)]) == "[" + DumpItems(init + [Int(n)]) + "0]"
  {
    assert DumpInt(10 * n) == DumpInt(n) + "0";
    if init == [] {
      assert init + [Int(n)] == [Int(n)] && init + [Int(10 * n)] == [Int(10 * n)];
    } else {
      DumpItemsConcat(init, [Int(n)]);
      DumpItemsConcat(init, [Int(10 * n)]);
    }
    assert DumpItems(init + [Int(10 * n)]) == DumpItems(init + [Int(n)]) + "0";
  }

  // ----- the pair loop over a run -----

  /** One row of the report; appendGap is absent across turns, as in the report. */
  datatype Row = Row(pair: nat, sameTurn: bool, cpChars: nat, nextLen: nat, appendGap: Gap)
  datatype Gap = NoGap | SomeGap(chars: int)

  predicate SameTurn(turnOf: seq<int>, i: nat)
    requires i > 0
  {
    if i < |turnOf| then turnOf[i - 1] == turnOf[i] else true
  }

  /** A pair lies within a turn unless its second call is the first one of a turn; calls beyond the report count as such. */
  lemma {:induction false} SameTurnMeans(perTurn: seq<Turns.TurnCalls>, i: nat)
    requires Turns.Numbered(perTurn) && i > 0
    ensures SameTurn(Turns.TurnOf(perTurn), i) <==> !(i < Turns.Calls(perTurn) && Turns.Opens(perTurn, i))
  {
    Turns.TurnOfMeans(perTurn);
    if i < Turns.Calls(perTurn) {
      Turns.ChangesAreOpenings(perTurn, i);
    }
  }

  /** The pairs within one turn whose second request really extends the first. */
  ghost function TrueAppends(requests: seq<seq<Value>>, turnOf: seq<int>): set<nat> {
    set i: nat | 1 <= i < |requests| && SameTurn(turnOf, i) && requests[i - 1] <= requests[i]
  }

  /** The pairs within one turn that the probe calls clean, among the first n requests. */
  ghost function CleanPairs(requests: seq<seq<Value>>, turnOf: seq<int>, n: nat): set<nat>
    requires n <= |requests|
  {
    set i: nat | 1 <= i < n && SameTurn(turnOf, i) && CleanAppend(requests[i - 1], requests[i])
  }

  /** When every request ends in a chat message, they are the genuine appends. */
  lemma {:induction false} CleanPairsAreAppends(requests: seq<seq<Value>>, turnOf: seq<int>)
    requires forall i :: 0 <= i < |requests| ==> EndsDelimited(requests[i])
    ensures CleanPairs(requests, turnOf, |requests|) == TrueAppends(requests, turnOf)
  {
    hide CleanAppend, EndsDelimited;
    forall i: nat | 1 <= i < |requests|
      ensures CleanAppend(requests[i - 1], requests[i]) <==> requests[i - 1] <= requests[i]
    {
      AppendIntegrity(requests[i - 1], requests[i]);
    }
  }

  function SerializedAll(requests: seq<seq<Value>>): (calls: seq<string>)
    ensures |calls| == |requests|
    ensures forall i :: 0 <= i < |calls| ==> calls[i] == Serialized(requests[i])
  {
    seq(|requests|, i requires 0 <= i < |requests| => Serialized(requests[i]))
  }

  /** What a row says about the pair it reports. */
  ghost predicate Reports(row: Row, a: seq<Value>, b: seq<Value>, pair: nat, sameTurn: bool) {
    && row.pair == pair
    && row.sameTurn == sameTurn
    && IsLongestCommonPrefix(Serialized(a), Serialized(b), row.cpChars)
    && row.nextLen == |Serialized(b)|
    && (row.appendGap.SomeGap? <==> sameTurn)
    && (sameTurn ==> row.appendGap.chars == AppendGap(Serialized(a), Serialized(b)))
    && (sameTurn && EndsDelimited(a) ==> (row.appendGap.chars <= 1 <==> a <= b))
  }

  method PairRow(a: string, b: string, pair: nat, sameTurn: bool, ghost prev: seq<Value>, ghost next: seq<Value>)
    returns (row: Row)
    requires a == Serialized(prev) && b == Serialized(next)
    ensures Reports(row, prev, next, pair, sameTurn)
  {
    var cp := CommonPrefixLen(a, b);
    if EndsDelimited(prev) {
      AppendIntegrity(prev, next);
    }
    row := Row(pair, sameTurn, cp, |b|, if sameTurn then SomeGap(|a| - cp) else NoGap);
  }

  /**
   * The pair loop and the published integrity count: the number of clean same-turn pairs and so, when every request ends
   * in a chat message, of genuine appends.
   */
  method PairRows(requests: seq<seq<Value>>, turnOf: seq<int>) returns (rows: seq<Row>, clean: nat)
    ensures if requests == [] then rows == [] else AllReport(rows, requests, turnOf, |requests|)
    ensures clean == |CleanPairs(requests, turnOf, |requests|)|
    ensures (forall i :: 0 <= i < |requests| ==> EndsDelimited(requests[i])) ==> clean == |TrueAppends(requests, turnOf)|
  {
    hide EndsDelimited, CleanAppend;
    var calls := SerializedAll(requests);
    rows, clean := [], 0;
    assert |requests| == 0 ==> CleanPairs(requests, turnOf, 0) == {};
    if |calls| > 0 {
      rows, clean := PairLoop(calls, requests, turnOf);
    }
    if forall i :: 0 <= i < |requests| ==> EndsDelimited(requests[i]) {
      CleanPairsAreAppends(requests, turnOf);
    }
  }

  method PairLoop(calls: seq<string>, ghost requests: seq<seq<Value>>, turnOf: seq<int>) returns (rows: seq<Row>, clean: nat)
    requires calls == SerializedAll(requests) && calls != []
    ensures AllReport(rows, requests, turnOf, |requests|)
    ensures clean == |CleanPairs(requests, turnOf, |requests|)|
  {
    rows, clean := [], 0;
    assert CleanPairs(requests, turnOf, 1) == {};
    for i := 1 to |calls|
      invariant AllReport(rows, requests, turnOf, i)
      invariant clean == |CleanPairs(requests, turnOf, i)|
    {
      var row := PairRow(calls[i - 1], calls[i], i, SameTurn(turnOf, i), requests[i - 1], requests[i]);
      clean := Count(clean, row, requests, turnOf, i);
      AllReportStep(rows, row, requests, turnOf, i);
      rows := rows + [row];
    }
  }

  ghost predicate AllReport(rows: seq<Row>, requests: seq<seq<Value>>, turnOf: seq<int>, n: nat)
    requires 1 <= n <= |requests|
  {
    && |rows| == n - 1
    && forall i :: 0 <= i < n - 1 ==>
      Reports(rows[i], requests[i], requests[i + 1], i + 1, SameTurn(turnOf, i + 1))
  }

  lemma {:induction false} AllReportStep(rows: seq<Row>, row: Row, requests: seq<seq<Value>>, turnOf: seq<int>, n: nat)
    requires 1 <= n < |requests|
    requires AllReport(rows, requests, turnOf, n)
    requires Reports(row, requests[n - 1], requests[n], n, SameTurn(turnOf, n))
    ensures AllReport(rows + [row], requests, turnOf, n + 1)
  {
  }

  /** One more row of the count `1 for row in rows if row.same_turn and row.append_gap <= 1`. */
  function Count(clean: nat, row: Row, ghost requests: seq<seq<Value>>, ghost turnOf: seq<int>, ghost i: nat): (r: nat)
    requires 1 <= i < |requests| && Reports(row, requests[i - 1], requests[i], i, SameTurn(turnOf, i))
    requires clean == |CleanPairs(requests, turnOf, i)|
    ensures r == |CleanPairs(requests, turnOf, i + 1)|
  {
    CleanPairsStep(requests, turnOf, i);
    if row.sameTurn && row.appendGap.chars <= 1 then clean + 1 else clean
  }

  lemma {:induction false} CleanPairsStep(requests: seq<seq<Value>>, turnOf: seq<int>, i: nat)
    requires 1 <= i < |requests|
    ensures CleanPairs(requests, turnOf, i + 1) == CleanPairs(requests, turnOf, i)
      + if SameTurn(turnOf, i) && CleanAppend(requests[i - 1], requests[i]) then {i} else {}
  {
    hide CleanAppend;
  }

  // ----- the composition of the last turn's first request -----

  function MinPositive(a: int, b: int, c: nat): nat
    requires c > 0
  {
    var ab := if a > 0 && a < c then a else c;
    if b > 0 && b < ab then b else ab
  }

  /** A header's offset in the request with its name, or the request's length with "END". */
  datatype Mark = Mark(at: int, name: string)

  const PRE_FIRST_HEADER := "_pre_first_header"

  /** The header's name: up to the next escaped line break, " (" or 40 characters. */
  function MarkName(ser: string, hit: nat): string {
    var end := MinPositive(Find(ser, "\\n", hit + 4), Find(ser, " (", hit + 4), hit + 44);
    Slice(Strip(Slice(ser, hit + 4, end)), 0, 36)
  }

  /** A mark for each of the offsets. */
  function MarksAt(ser: string, hits: seq<nat>): (marks: seq<Mark>)
    ensures |marks| == |hits|
  {
    seq(|hits|, j requires 0 <= j < |hits| => Mark(hits[j], MarkName(ser, hits[j])))
  }

  /** marks are all headers of the request in order, and the end mark. */
  ghost predicate AreMarks(ser: string, marks: seq<Mark>) {
    marks == MarksAt(ser, Headers.Hits(ser, 0, |ser|)) + [Mark(|ser|, "END")]
  }

  /** The scanning loop: every header's offset and name, then an end mark. */
  method Marks(ser: string) returns (marks: seq<Mark>)
    ensures AreMarks(ser, marks)
  {
    hide MarkName, MarksAt, Find, Headers.Hits;
    marks := [];
    var pos := 0;
    ghost var done: seq<nat> := [];
    MarksStart(ser);
    while true
      invariant pos <= |ser|
      invariant marks == MarksAt(ser, done)
      invariant done + Headers.Hits(ser, pos, |ser|) == Headers.Hits(ser, 0, |ser|)
      decreases |ser| - pos
    {
      var hit := Find(ser, "\\n# ", pos);
      MarksStep(ser, pos, done);
      if hit < 0 {
        break;
      }
      done := done + [hit];
      marks := marks + [Mark(hit, MarkName(ser, hit))];
      pos := hit + 4;
    }
    marks := marks + [Mark(|ser|, "END")];
  }

  lemma {:induction false} MarksStart(ser: string)
    ensures MarksAt(ser, []) == []
    ensures [] + Headers.Hits(ser, 0, |ser|) == Headers.Hits(ser, 0, |ser|)
  {
  }

  /** One round of the scan. */
  lemma {:induction false} MarksStep(ser: string, pos: nat, done: seq<nat>)
    requires pos <= |ser|
    ensures var hit := Find(ser, Headers.ESC_HDR, pos);
      if hit < 0 then done + Headers.Hits(ser, pos, |ser|) == done
      else
        && pos <= hit && hit + 4 <= |ser|
        && done + Headers.Hits(ser, pos, |ser|) == (done + [hit]) + Headers.Hits(ser, hit + 4, |ser|)
        && MarksAt(ser, done + [hit]) == MarksAt(ser, done) + [Mark(hit, MarkName(ser, hit))]
  {
    hide Find, MarkName;
  }

  /** The text before the first header, then each region's name with the size of its span. */
  function Regions(marks: seq<Mark>): (regions: seq<(string, int)>)
    requires marks != []
    ensures |regions| == |marks|
  {
    [(PRE_FIRST_HEADER, marks[0].at)]
    + seq(|marks| - 1, j requires 0 <= j < |marks| - 1 => (marks[j].name, marks[j + 1].at - marks[j].at))
  }

  /**
   * The composition loop: `composition[name] += next - start` over consecutive marks, so the
   * characters per name add up to the whole request.
   */
  method Composition(ser: string) returns (composition: map<string, int>, marks: seq<Mark>)
    ensures AreMarks(ser, marks)
    ensures composition == Tally(Regions(marks))
    ensures SumBy(composition, x => x) == |ser|
  {
    marks := Marks(ser);
    composition := Accumulate(marks);
    TallyConserves(Regions(marks));
    RegionsTelescope(marks);
  }

  method Accumulate(marks: seq<Mark>) returns (composition: map<string, int>)
    requires marks != []
    ensures composition == Tally(Regions(marks))
  {
    hide Tally;
    ghost var regions := Regions(marks);
    composition := map[PRE_FIRST_HEADER := marks[0].at];
    TallyStep(regions, 0);
    for j := 0 to |marks| - 1
      invariant composition == Tally(regions[..j + 1])
    {
      TallyStep(regions, j + 1);
      composition := Bump(composition, (marks[j].name, marks[j + 1].at - marks[j].at));
    }
    assert regions[..|regions|] == regions;
  }

  lemma {:induction false} RegionsTelescope(marks: seq<Mark>)
    requires marks != []
    ensures Sum(Amounts(Regions(marks))) == marks[|marks| - 1].at
  {
    var n := |marks| - 1;
    var amounts := Amounts(Regions(marks));
    if n > 0 {
      RegionsTelescope(marks[..n]);
      assert amounts == Amounts(Regions(marks[..n])) + [marks[n].at - marks[n - 1].at];
      SumConcat(Amounts(Regions(marks[..n])), [marks[n].at - marks[n - 1].at]);
    } else {
      assert amounts == [marks[0].at];
    }
  }

  // ----- what the composition means -----

  /** The text behind a header: a clean name, then the end of the text or one of the two stops. */
  predicate Heads(ser: string, hit: nat, name: string, rest: string) {
    && hit + 4 <= |ser| && ser[hit + 4..] == name + rest
    && (rest == "" || StartsWith(rest, "\\n") || StartsWith(rest, " ("))
    && (forall i :: hit + 4 <= i < hit + 4 + |name| ==> !OccursAt(ser, "\\n", i) && !OccursAt(ser, " (", i))
    && (name != "" ==> !IsSpace(name[0]) && !IsSpace(name[|name| - 1]))
  }

  /** A header's region is named by its text up to a line break or " (", at most 36 characters of it. */
  lemma {:induction false} MarkNameReads(ser: string, hit: nat, name: string, rest: string)
    requires Heads(ser, hit, name, rest)
    requires |name| > 40 ==> !IsSpace(name[39])
    ensures MarkName(ser, hit) == if |name| <= 36 then name else name[..36]
  {
    hide Find, IsSpace, OccursAt, TrimLeft, TrimRight;
    var from, stop := hit + 4, hit + 4 + |name|;
    FindSkips(ser, "\\n", from, stop);
    FindSkips(ser, " (", from, stop);
    StopAt(ser, from, name, rest);
    var cut := if |name| <= 40 then name else name[..40];
    var end := if rest == "" || |name| > 40 then hit + 44 else stop;
    assert MinPositive(Find(ser, "\\n", from), Find(ser, " (", from), hit + 44) == if end < hit + 44 then end else hit + 44;
    assert Slice(ser, from, if end < hit + 44 then end else hit + 44) == cut;
    StripNothing(cut);
  }

  /** A stop behind the name occurs there. */
  lemma {:induction false} StopAt(ser: string, from: nat, name: string, rest: string)
    requires from <= |ser| && ser[from..] == name + rest
    ensures StartsWith(rest, "\\n") ==> OccursAt(ser, "\\n", from + |name|)
    ensures StartsWith(rest, " (") ==> OccursAt(ser, " (", from + |name|)
    ensures |ser| == from + |name| + |rest| && ser[from..from + |name|] == name
    ensures forall i :: OccursAt(ser, "\\n", i) || OccursAt(ser, " (", i) ==> i + 2 <= |ser|
  {
    assert ser[from + |name|..] == rest;
    assert ser[from..from + |name|] == ser[from..][..|name|];
    forall stop: string | StartsWith(rest, stop)
      ensures OccursAt(ser, stop, from + |name|)
    {
      assert ser[from + |name|..from + |name| + |stop|] == rest[..|stop|];
    }
  }

  function MarkNameOf(ser: string): nat -> string {
    (hit: nat) => MarkName(ser, hit)
  }

  /** What the spans under a name add up to. */
  lemma {:induction false} RegionsUnder(ser: string, marks: seq<Mark>, hits: seq<nat>, end: nat, key: string)
    requires |marks| == |hits| + 1 && marks[..|hits|] == MarksAt(ser, hits) && marks[|hits|].at == end
    ensures TotalOf(Regions(marks), key)
         == (if PRE_FIRST_HEADER == key then marks[0].at else 0) + Headers.PiecesUnder(hits, end, MarkNameOf(ser), key)
  {
    hide MarkName;
    if hits == [] {
      assert Regions(marks)[..0] == [];
    } else {
      var n := |hits| - 1;
      MarksBefore(ser, marks, hits);
      RegionsUnder(ser, marks[..n + 1], hits[..n], hits[n], key);
      Headers.PiecesSnoc(hits[..n], hits[n], end, MarkNameOf(ser), key);
      hide Regions, MarksAt, Headers.PiecesUnder;
      assert hits[..n] + [hits[n]] == hits;
    }
  }

  /** The last region is the last header's span. */
  lemma {:induction false} MarksBefore(ser: string, marks: seq<Mark>, hits: seq<nat>)
    requires hits != [] && |marks| == |hits| + 1 && marks[..|hits|] == MarksAt(ser, hits)
    ensures var n, regions := |hits| - 1, Regions(marks);
      && marks[..n + 1][..n] == MarksAt(ser, hits[..n]) && marks[..n + 1][n].at == hits[n]
      && regions[..n + 1] == Regions(marks[..n + 1])
      && regions[n + 1] == (MarkName(ser, hits[n]), marks[n + 1].at - hits[n])
  {
    hide MarkName;
    assert marks[|hits| - 1] == marks[..|hits|][|hits| - 1];
  }

  /** The composition counts, under each name, exactly the characters of the request that stand under such a header. */
  lemma {:induction false} CompositionCounts(ser: string, marks: seq<Mark>, composition: map<string, int>, key: string)
    requires AreMarks(ser, marks) && composition == Tally(Regions(marks))
    ensures (if key in composition then composition[key] else 0)
         == Headers.CountUnder(ser, |ser|, MarkNameOf(ser), "_pre_first_header", key)
  {
    hide MarkName, Tally, Regions, Headers.Hits, Headers.CountUnder, TotalOf;
    var hits := Headers.Hits(ser, 0, |ser|);
    TallyAt(Regions(marks), key);
    RegionsUnder(ser, marks, hits, |ser|, key);
    Headers.HitsCount(ser, |ser|, MarkNameOf(ser), PRE_FIRST_HEADER, key);
  }
}
