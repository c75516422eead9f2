/** evals/serializer_census.py, `summarize`: totals, rollup, first/later split and the token estimate. */
module CensusSummary {
  import opened Text
  import opened Json
  import opened Sums
  import opened Census
  import Turns

  // ----- grouping -----

  /** The coarse category of a part. */
  function RollupCat(cat: string): string {
    if StartsWith(cat, "seed:") then "seed"
    else if cat == "msg_list_overhead" || cat == "other_message" then "structural"
    else if cat == "assistant_content" then "assistant_prose"
    else if cat == "assistant_tool_calls" || cat == "assistant_reasoning" || cat == "assistant_json_envelope"
      then "assistant_tool_call_envelope"
    else if cat == "tool_result" then "tool_results"
    else cat
  }

  function CatChars(p: Part): (string, int) { (p.cat, p.chars) }
  function CatBytes(p: Part): (string, int) { (p.cat, p.bytes) }
  function RollupChars(p: Part): (string, int) { (RollupCat(p.cat), p.chars) }
  function RollupBytes(p: Part): (string, int) { (RollupCat(p.cat), p.bytes) }

  function Entries(parts: seq<Part>, f: Part -> (string, int)): (es: seq<(string, int)>)
    ensures |es| == |parts|
    ensures forall i :: 0 <= i < |es| ==> es[i] == f(parts[i])
  {
    seq(|parts|, i requires 0 <= i < |parts| => f(parts[i]))
  }

  /** The table one gets by adding each part under its key: totals, rollup and split all have this shape. */
  function Table(parts: seq<Part>, f: Part -> (string, int)): map<string, int> {
    Tally(Entries(parts, f))
  }

  /** The inner loop: one call's parts are added to a table that already holds `done`. */
  method AddParts(table: map<string, int>, parts: seq<Part>, f: Part -> (string, int), ghost done: seq<Part>)
    returns (out: map<string, int>)
    requires table == Table(done, f)
    ensures out == Table(done + parts, f)
  {
    out := table;
    ghost var es := Entries(done + parts, f);
    assert es[..|done|] == Entries(done, f);
    for i := 0 to |parts|
      invariant out == Tally(es[..|done| + i])
    {
      TallyStep(es, |done| + i);
      out := Bump(out, f(parts[i]));
    }
    assert es[..|done| + |parts|] == es;
  }

  datatype Bucket = FirstCalls | LaterCalls | UnmappedCalls

  /** Which of the three split tables call i belongs to. */
  function BucketOf(turnOf: seq<int>, i: nat): Bucket {
    if i >= |turnOf| then UnmappedCalls
    else if i == 0 || turnOf[i - 1] != turnOf[i] then FirstCalls
    else LaterCalls
  }

  /** The first call of every turn, its later calls, and the calls that the report does not account for. */
  lemma {:induction false} BucketMeans(perTurn: seq<Turns.TurnCalls>, i: nat)
    requires Turns.Numbered(perTurn)
    ensures BucketOf(Turns.TurnOf(perTurn), i) ==
      if i >= Turns.Calls(perTurn) then UnmappedCalls else if Turns.Opens(perTurn, i) then FirstCalls else LaterCalls
  {
    Turns.TurnOfMeans(perTurn);
    if i < Turns.Calls(perTurn) {
      Turns.ChangesAreOpenings(perTurn, i);
    }
  }

  /** The parts of calls 0..n that fall into the bucket. */
  function BucketParts(calls: seq<Call>, turnOf: seq<int>, bucket: Bucket, n: nat): seq<Part>
    requires n <= |calls|
  {
    if n == 0 then []
    else BucketParts(calls, turnOf, bucket, n - 1)
         + if BucketOf(turnOf, n - 1) == bucket then CallParts(calls[n - 1]) else []
  }

  function AllParts(calls: seq<Call>, n: nat): seq<Part>
    requires n <= |calls|
  {
    if n == 0 then [] else AllParts(calls, n - 1) + CallParts(calls[n - 1])
  }

  predicate Bad(call: Call) {
    Chars(CallParts(call)) != call.fullSerLen + |call.schemasSer| || NegativeResidual(call)
  }

  datatype Summary = Summary(
    totalChars: map<string, int>, totalBytes: map<string, int>,
    rollupChars: map<string, int>, rollupBytes: map<string, int>,
    split: map<Bucket, map<string, int>>, invalid: bool)

  ghost predicate Summarizes(s: Summary, calls: seq<Call>, turnOf: seq<int>, n: nat)
    requires n <= |calls|
  {
    && s.totalChars == Table(AllParts(calls, n), CatChars)
    && s.totalBytes == Table(AllParts(calls, n), CatBytes)
    && s.rollupChars == Table(AllParts(calls, n), RollupChars)
    && s.rollupBytes == Table(AllParts(calls, n), RollupBytes)
    && (forall b: Bucket :: b in s.split && s.split[b] == Table(BucketParts(calls, turnOf, b, n), RollupChars))
    && (s.invalid <==> exists i :: 0 <= i < n && Bad(calls[i]))
  }

  /** The accumulating loop over the captured calls. */
  method Summarize(calls: seq<Call>, turnOf: seq<int>) returns (s: Summary)
    ensures Summarizes(s, calls, turnOf, |calls|)
  {
    s := Summary(map[], map[], map[], map[],
                 map[FirstCalls := map[], LaterCalls := map[], UnmappedCalls := map[]], false);
    assert forall f: Part -> (string, int) :: Entries([], f) == [];
    forall b: Bucket ensures b in s.split && s.split[b] == Table(BucketParts(calls, turnOf, b, 0), RollupChars) {
      assert b == FirstCalls || b == LaterCalls || b == UnmappedCalls;
    }
    for n := 0 to |calls|
      invariant Summarizes(s, calls, turnOf, n)
    {
      s := AddCall(s, calls, turnOf, n);
    }
  }

  method AddCall(s: Summary, calls: seq<Call>, turnOf: seq<int>, n: nat) returns (out: Summary)
    requires n < |calls| && Summarizes(s, calls, turnOf, n)
    ensures Summarizes(out, calls, turnOf, n + 1)
  {
    hide CallParts, NegativeResidual, Table, AllParts, BucketParts;
    var parts, whole, gap, error := DecomposeCall(calls[n]);
    ghost var done := AllParts(calls, n);
    var totalChars := AddParts(s.totalChars, parts, CatChars, done);
    var totalBytes := AddParts(s.totalBytes, parts, CatBytes, done);
    var rollupChars := AddParts(s.rollupChars, parts, RollupChars, done);
    var rollupBytes := AddParts(s.rollupBytes, parts, RollupBytes, done);
    var bucket := BucketOf(turnOf, n);
    var cell := AddParts(s.split[bucket], parts, RollupChars, BucketParts(calls, turnOf, bucket, n));
    PartsStep(calls, turnOf, n);
    InvalidStep(calls, n);
    out := Summary(totalChars, totalBytes, rollupChars, rollupBytes,
                   s.split[bucket := cell], s.invalid || gap != 0 || error);
    assert Bad(calls[n]) <==> gap != 0 || error;
  }

  lemma {:induction false} PartsStep(calls: seq<Call>, turnOf: seq<int>, n: nat)
    requires n < |calls|
    ensures AllParts(calls, n + 1) == AllParts(calls, n) + CallParts(calls[n])
    ensures var b := BucketOf(turnOf, n);
      BucketParts(calls, turnOf, b, n + 1) == BucketParts(calls, turnOf, b, n) + CallParts(calls[n])
    ensures forall b :: b != BucketOf(turnOf, n) ==>
      BucketParts(calls, turnOf, b, n + 1) == BucketParts(calls, turnOf, b, n)
  {
    hide CallParts;
  }

  lemma {:induction false} InvalidStep(calls: seq<Call>, n: nat)
    requires n < |calls|
    ensures (exists i :: 0 <= i < n + 1 && Bad(calls[i])) <==> (exists i :: 0 <= i < n && Bad(calls[i])) || Bad(calls[n])
  {
    hide Bad;
  }

  // ----- conservation -----

  lemma {:induction false} EntriesSum(parts: seq<Part>, f: Part -> (string, int))
    ensures (forall p :: f(p).1 == p.chars) ==> Sum(Amounts(Entries(parts, f))) == Chars(parts)
    ensures (forall p :: f(p).1 == p.bytes) ==> Sum(Amounts(Entries(parts, f))) == Bytes(parts)
  {
    if parts != [] {
      EntriesSum(parts[1..], f);
      assert Amounts(Entries(parts, f))[1..] == Amounts(Entries(parts[1..], f));
    }
  }

  /** However the parts are keyed, the table's values sum to the parts' characters (or bytes). */
  lemma {:induction false} TableConserves(parts: seq<Part>, f: Part -> (string, int))
    ensures (forall p :: f(p).1 == p.chars) ==> SumBy(Table(parts, f), x => x) == Chars(parts)
    ensures (forall p :: f(p).1 == p.bytes) ==> SumBy(Table(parts, f), x => x) == Bytes(parts)
  {
    EntriesSum(parts, f);
    TallyConserves(Entries(parts, f));
  }

  /** The parts that are booked under a key. */
  function Under(parts: seq<Part>, f: Part -> (string, int), key: string): seq<Part> {
    if parts == [] then []
    else
      var last := parts[|parts| - 1];
      Under(parts[..|parts| - 1], f, key) + if f(last).0 == key then [last] else []
  }

  lemma {:induction false} UnderTotals(parts: seq<Part>, f: Part -> (string, int), key: string)
    ensures (forall p :: f(p).1 == p.chars) ==> TotalOf(Entries(parts, f), key) == Chars(Under(parts, f, key))
    ensures (forall p :: f(p).1 == p.bytes) ==> TotalOf(Entries(parts, f), key) == Bytes(Under(parts, f, key))
  {
    if parts != [] {
      var init, last := parts[..|parts| - 1], parts[|parts| - 1];
      UnderTotals(init, f, key);
      assert Entries(parts, f)[..|parts| - 1] == Entries(init, f);
      ExtentsConcat(Under(init, f, key), [last]);
      assert Under(init, f, key) + [] == Under(init, f, key);
    }
  }

  /** Each entry of a table is what the parts under its key hold, and there is one for every key that occurs. */
  lemma {:induction false} TableAt(parts: seq<Part>, f: Part -> (string, int), key: string)
    ensures key in Table(parts, f) <==> exists p :: p in parts && f(p).0 == key
    ensures key in Table(parts, f) && (forall p :: f(p).1 == p.chars) ==>
      Table(parts, f)[key] == Chars(Under(parts, f, key))
    ensures key in Table(parts, f) && (forall p :: f(p).1 == p.bytes) ==>
      Table(parts, f)[key] == Bytes(Under(parts, f, key))
  {
    hide Under, TotalOf, Tally, Chars, Bytes;
    TallyAt(Entries(parts, f), key);
    UnderTotals(parts, f, key);
    if key in Table(parts, f) {
      var i :| 0 <= i < |parts| && Entries(parts, f)[i].0 == key;
      assert parts[i] in parts;
    }
    if p :| p in parts && f(p).0 == key {
      var i :| 0 <= i < |parts| && parts[i] == p;
      assert Entries(parts, f)[i].0 == key;
    }
  }

  lemma {:induction false} BucketsPartition(calls: seq<Call>, turnOf: seq<int>, n: nat)
    requires n <= |calls|
    ensures Chars(AllParts(calls, n)) == Chars(BucketParts(calls, turnOf, FirstCalls, n))
      + Chars(BucketParts(calls, turnOf, LaterCalls, n)) + Chars(BucketParts(calls, turnOf, UnmappedCalls, n))
  {
    hide AllParts, BucketParts, Chars;
    if n == 0 {
      NoPartsYet(calls, turnOf);
    } else {
      BucketsPartition(calls, turnOf, n - 1);
      BucketsGrow(calls, turnOf, n);
    }
  }

  lemma {:induction false} NoPartsYet(calls: seq<Call>, turnOf: seq<int>)
    ensures Chars(AllParts(calls, 0)) == 0
    ensures forall b: Bucket :: Chars(BucketParts(calls, turnOf, b, 0)) == 0
  {
  }

  lemma {:induction false} BucketsGrow(calls: seq<Call>, turnOf: seq<int>, n: nat)
    requires 0 < n <= |calls|
    ensures Chars(AllParts(calls, n)) - Chars(AllParts(calls, n - 1))
      == Chars(BucketParts(calls, turnOf, FirstCalls, n)) - Chars(BucketParts(calls, turnOf, FirstCalls, n - 1))
       + Chars(BucketParts(calls, turnOf, LaterCalls, n)) - Chars(BucketParts(calls, turnOf, LaterCalls, n - 1))
       + Chars(BucketParts(calls, turnOf, UnmappedCalls, n)) - Chars(BucketParts(calls, turnOf, UnmappedCalls, n - 1))
  {
    assert AllParts(calls, n) == AllParts(calls, n - 1) + CallParts(calls[n - 1]);
    hide BucketParts, AllParts, Chars, CallParts;
    ExtentsConcat(AllParts(calls, n - 1), CallParts(calls[n - 1]));
    BucketGrows(calls, turnOf, FirstCalls, n);
    BucketGrows(calls, turnOf, LaterCalls, n);
    BucketGrows(calls, turnOf, UnmappedCalls, n);
    assert BucketOf(turnOf, n - 1) in {FirstCalls, LaterCalls, UnmappedCalls};
  }

  lemma {:induction false} BucketGrows(calls: seq<Call>, turnOf: seq<int>, b: Bucket, n: nat)
    requires 0 < n <= |calls|
    ensures Chars(BucketParts(calls, turnOf, b, n)) == Chars(BucketParts(calls, turnOf, b, n - 1))
      + (if BucketOf(turnOf, n - 1) == b then Chars(CallParts(calls[n - 1])) else 0)
  {
    hide CallParts;
    ExtentsConcat(BucketParts(calls, turnOf, b, n - 1), if BucketOf(turnOf, n - 1) == b then CallParts(calls[n - 1]) else []);
  }

  /** A request of a run, before it is captured. */
  datatype Request = Request(messages: seq<Value>, schemas: seq<Value>)

  /** The run's requests as the tap captured them. */
  predicate Captured(calls: seq<Call>, requests: seq<Request>) {
    && |calls| == |requests|
    && forall i :: 0 <= i < |calls| ==> calls[i] == CallOf(requests[i].messages, requests[i].schemas)
  }

  /** The characters sent: every request's messages and schemas, serialized. */
  function SentChars(requests: seq<Request>): int {
    if requests == [] then 0
    else
      var last := requests[|requests| - 1];
      SentChars(requests[..|requests| - 1]) + |Dumps(Arr(last.messages))| + |Dumps(Arr(last.schemas))|
  }

  /** The same in UTF-8 bytes. */
  function SentBytes(requests: seq<Request>): int {
    if requests == [] then 0
    else
      var last := requests[|requests| - 1];
      SentBytes(requests[..|requests| - 1]) + Utf8Len(Dumps(Arr(last.messages))) + Utf8Len(Dumps(Arr(last.schemas)))
  }

  lemma {:induction false} AllPartsAreSent(calls: seq<Call>, requests: seq<Request>, n: nat)
    requires Captured(calls, requests) && n <= |calls|
    ensures Chars(AllParts(calls, n)) == SentChars(requests[..n])
    ensures Bytes(AllParts(calls, n)) == SentBytes(requests[..n])
  {
    hide CallParts, Dumps, Utf8Len, CallOf;
    if n > 0 {
      AllPartsAreSent(calls, requests, n - 1);
      assert requests[..n][..n - 1] == requests[..n - 1];
      CallIsSent(requests[n - 1]);
      ExtentsConcat(AllParts(calls, n - 1), CallParts(calls[n - 1]));
    }
  }

  lemma {:induction false} CallIsSent(request: Request)
    ensures var parts := CallParts(CallOf(request.messages, request.schemas));
      && Chars(parts) == |Dumps(Arr(request.messages))| + |Dumps(Arr(request.schemas))|
      && Bytes(parts) == Utf8Len(Dumps(Arr(request.messages))) + Utf8Len(Dumps(Arr(request.schemas)))
  {
    hide CallParts, Utf8Len;
    Reconciles(request.messages, request.schemas);
  }

  /**
   * The census conserves: for a run of captured calls, the categories, the rollup and the three-way split each sum to
   * the characters that were sent, categories and rollup also to the bytes, and the gate never marks the run invalid.
   */
  lemma {:induction false} CensusConserves(s: Summary, calls: seq<Call>, requests: seq<Request>, turnOf: seq<int>)
    requires Captured(calls, requests) && Summarizes(s, calls, turnOf, |calls|)
    ensures !s.invalid
    ensures SumBy(s.totalChars, x => x) == SumBy(s.rollupChars, x => x) == SentChars(requests)
    ensures SumBy(s.split[FirstCalls], x => x) + SumBy(s.split[LaterCalls], x => x)
      + SumBy(s.split[UnmappedCalls], x => x) == SentChars(requests)
    ensures SumBy(s.totalBytes, x => x) == SumBy(s.rollupBytes, x => x) == SentBytes(requests)
  {
    hide CallParts, Bad, Table, Chars, Bytes, AllParts, BucketParts, SentChars, SentBytes;
    forall i | 0 <= i < |calls| ensures !Bad(calls[i]) {
      CapturedIsGood(requests[i]);
    }
    AllPartsAreSent(calls, requests, |calls|);
    assert requests[..|calls|] == requests;
    BucketsPartition(calls, turnOf, |calls|);
    var all := AllParts(calls, |calls|);
    TableConserves(all, CatChars);
    TableConserves(all, RollupChars);
    TableConserves(all, CatBytes);
    TableConserves(all, RollupBytes);
    forall b: Bucket ensures SumBy(s.split[b], x => x) == Chars(BucketParts(calls, turnOf, b, |calls|)) {
      TableConserves(BucketParts(calls, turnOf, b, |calls|), RollupChars);
    }
  }

  lemma {:induction false} CapturedIsGood(request: Request)
    ensures !Bad(CallOf(request.messages, request.schemas))
  {
    Reconciles(request.messages, request.schemas);
    NoNegativeResidual(request.messages, request.schemas);
  }

  // ----- the calibrated token estimate -----

  /** Python's `round` of the rational a/q: to the nearest integer, ties to the even one. */
  function RoundHalfEven(a: int, q: int): (r: int)
    requires q > 0
    ensures -q <= 2 * (q * r - a) <= q
  {
    var d, m := a / q, a % q;
    if 2 * m < q || (2 * m == q && d % 2 == 0) then d else d + 1
  }

  /** It is the only integer within a half of a/q that, if it is exactly a half off, is even. */
  lemma {:induction false} RoundsExactly(a: int, q: int, r: int)
    requires q > 0
    ensures r == RoundHalfEven(a, q) <==>
      -q <= 2 * (q * r - a) <= q && (2 * (q * r - a) == q || 2 * (q * r - a) == -q ==> r % 2 == 0)
  {
    var d, m := a / q, a % q;
    assert q * r - a == q * (r - d) - m;
    Steps(q, r - d);
    NearestStep(q, d, m, r - d, q * (r - d));
  }

  /** k steps of q from d * q, compared with m beyond it. */
  lemma {:induction false} NearestStep(q: int, d: int, m: int, k: int, x: int)
    requires 0 <= m < q
    requires (k >= 2 ==> x >= 2 * q) && (k <= -1 ==> x <= -q) && (k == 0 ==> x == 0) && (k == 1 ==> x == q)
    ensures k == (if 2 * m < q || (2 * m == q && d % 2 == 0) then 0 else 1) <==>
      -q <= 2 * (x - m) <= q && (2 * (x - m) == q || 2 * (x - m) == -q ==> (d + k) % 2 == 0)
  {
  }

  lemma {:induction false} Steps(q: int, k: int)
    requires q > 0
    ensures k >= 2 ==> q * k >= 2 * q
    ensures k <= -1 ==> q * k <= -q
    ensures k == 0 ==> q * k == 0
    ensures k == 1 ==> q * k == q
  {
  }

  /** A category's estimate: its bytes times the provider's tokens per byte. */
  function Estimate(meterIn: nat, promptBytes: nat): int -> int
    requires promptBytes > 0
  {
    bytes => RoundHalfEven(bytes * meterIn, promptBytes)
  }

  /** estimate is within n half tokens of meterIn/promptBytes times the bytes. */
  ghost predicate Within(promptBytes: int, meterIn: int, estimate: int, bytes: int, n: int) {
    -(promptBytes * n) <= 2 * (promptBytes * estimate - meterIn * bytes) <= promptBytes * n
  }

  lemma {:induction false} EstimateWithin(meterIn: nat, promptBytes: nat, bytes: int)
    requires promptBytes > 0
    ensures Within(promptBytes, meterIn, Estimate(meterIn, promptBytes)(bytes), bytes, 1)
  {
    assert bytes * meterIn == meterIn * bytes;
  }

  lemma {:induction false} WithinAdd(p: int, m: int, e1: int, b1: int, n1: int, e2: int, b2: int, n2: int)
    requires Within(p, m, e1, b1, n1) && Within(p, m, e2, b2, n2)
    ensures Within(p, m, e1 + e2, b1 + b2, n1 + n2)
  {
    assert p * (e1 + e2) == p * e1 + p * e2;
    assert m * (b1 + b2) == m * b1 + m * b2;
    assert p * (n1 + n2) == p * n1 + p * n2;
  }

  lemma {:induction false} EstimatesAdd(bytes: map<string, int>, meterIn: nat, promptBytes: nat)
    requires promptBytes > 0
    ensures Within(promptBytes, meterIn, SumBy(bytes, Estimate(meterIn, promptBytes)), SumBy(bytes, x => x), |bytes|)
    decreases |bytes|
  {
    if bytes != map[] {
      hide Within, Estimate;
      var k, est := AnyKey(bytes), Estimate(meterIn, promptBytes);
      var rest := bytes - {k};
      EstimatesAdd(rest, meterIn, promptBytes);
      EstimateWithin(meterIn, promptBytes, bytes[k]);
      WithinAdd(promptBytes, meterIn, est(bytes[k]), bytes[k], 1, SumBy(rest, est), SumBy(rest, x => x), |rest|);
      assert |bytes| == 1 + |rest|;
    }
  }

  lemma {:induction false} MulMonotone(p: nat, x: int, y: int)
    requires x <= y
    ensures p * x <= p * y
  {
  }

  lemma {:induction false} CancelFactor(p: int, x: int, k: int)
    requires p > 0 && -(p * k) <= p * x <= p * k
    ensures -k <= x <= k
  {
    assert p * (k + 1) == p * k + p && p * (-k - 1) == -(p * k) - p;
    if x > k {
      MulMonotone(p, k + 1, x);
    } else if x < -k {
      MulMonotone(p, x, -k - 1);
    }
  }

  /** The summed estimate misses the provider's total by at most half a token per category. */
  lemma {:induction false} DriftBound(bytes: map<string, int>, meterIn: nat)
    requires SumBy(bytes, x => x) > 0
    ensures var estSum := SumBy(bytes, Estimate(meterIn, SumBy(bytes, x => x)));
      -|bytes| <= 2 * (estSum - meterIn) <= |bytes|
  {
    var p := SumBy(bytes, x => x);
    var estSum := SumBy(bytes, Estimate(meterIn, p));
    EstimatesAdd(bytes, meterIn, p);
    DriftFactor(p, estSum, meterIn);
    CancelFactor(p, 2 * (estSum - meterIn), |bytes|);
  }

  lemma {:induction false} DriftFactor(p: int, e: int, m: int)
    ensures p * (2 * (e - m)) == 2 * (p * e - m * p)
  {
  }

  /** `drift > 0.10` for a nonzero meter. */
  predicate DriftAlarm(estSum: int, meterIn: nat) {
    meterIn != 0 && 10 * (if estSum > meterIn then estSum - meterIn else meterIn - estSum) > meterIn
  }

  /** So from ten tokens per pair of categories on, the calibrated census cannot raise its own drift alarm. */
  lemma {:induction false} DriftAlarmSilent(bytes: map<string, int>, meterIn: nat)
    requires SumBy(bytes, x => x) > 0
    requires meterIn >= 10 * (|bytes| / 2)
    ensures !DriftAlarm(SumBy(bytes, Estimate(meterIn, SumBy(bytes, x => x))), meterIn)
  {
    DriftBound(bytes, meterIn);
  }

  /** That size is sharp for two categories: at nine tokens, one below it, the bound is attained and the alarm goes off. */
  lemma DriftAlarmBelowTheBound()
    ensures var bytes := map["system" := 1, "schemas" := 1];
      && SumBy(bytes, x => x) == 2 && 9 == 10 * (|bytes| / 2) - 1
      && 2 * (SumBy(bytes, Estimate(9, 2)) - 9) == -|bytes|
      && DriftAlarm(SumBy(bytes, Estimate(9, 2)), 9)
  {
    var one, bytes := map["system" := 1], map["system" := 1, "schemas" := 1];
    assert bytes == one["schemas" := 1] && one == map[]["system" := 1];
    SizeAfterInsert(one, "schemas", 1);
    SumByUpdate(one, x => x, "schemas", 1);
    SumByUpdate(map[], x => x, "system", 1);
    SumByUpdate(one, Estimate(9, 2), "schemas", 1);
    SumByUpdate(map[], Estimate(9, 2), "system", 1);
  }
}
