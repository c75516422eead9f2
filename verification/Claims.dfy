/** Scoring operational claims against receipt counts (evals/receipt_claims.py, assess_claim and score_reply). */
module Claims {
  import opened Extraction
  import opened Options
  import opened Receipts
  import opened Sums

  datatype Quantifier = Exact | NoneOf | AnyOf | AllOf | NotAllOf | Exists

  datatype Claim = Claim(category: Category, tool: string, count: Option<int>, quantifier: Quantifier)

  datatype Assessment = Assessment(claim: Claim, verdict: Category, supported: bool, expected: Option<int>)

  // ------------------------------------------------------------------------------------------------- one claim

  /** What "all" is measured against: requests for the two pre-execution categories, starts for the rest. */
  function Base(c: Category): Category {
    if c == RejectedBeforeExecution || c == Started then Requested else Started
  }

  predicate Supported(counts: LifecycleCounts, claim: Claim)
    requires IsLifecycle(claim.category)
  {
    var expected := counts.Value(claim.category);
    if claim.count.Some? then claim.count.value == expected
    else match claim.quantifier
      case NoneOf => expected == 0
      case AllOf => expected == counts.Value(Base(claim.category))
      case NotAllOf => expected < counts.Value(Base(claim.category))
      case _ => expected > 0
  }

  predicate Overstates(counts: LifecycleCounts, claim: Claim) {
    && claim.category == Started
    && (|| (claim.count.Some? && claim.count.value > counts.started)
        || (claim.quantifier == AllOf && counts.requested > counts.started))
  }

  /** The verdict on a claim; None for the ValueError that a category without a receipt count raises. */
  function Assess(counts: LifecycleCounts, claim: Claim): Option<Assessment> {
    if claim.category == Unsupported then Some(Assessment(claim, Unsupported, false, None))
    else if claim.category == LifecycleOverstatement then None
    else
      var expected := Some(counts.Value(claim.category));
      if Supported(counts, claim) then Some(Assessment(claim, claim.category, true, expected))
      else Some(Assessment(claim, if Overstates(counts, claim) then LifecycleOverstatement else Unsupported, false, expected))
  }

  /** All six counts of a tool. */
  ghost function CountsOf(truth: ReceiptTruth, tool: string): LifecycleCounts {
    LifecycleCounts(truth.Count(tool, Requested), truth.Count(tool, RejectedBeforeExecution), truth.Count(tool, Started),
                    truth.Count(tool, Succeeded), truth.Count(tool, Failed), truth.Count(tool, ChildSealed))
  }

  /** The rows still to be added are what r lacks of the column sums. */
  ghost predicate Partial(r: LifecycleCounts, left: map<string, LifecycleCounts>, rows: map<string, LifecycleCounts>) {
    forall c :: IsLifecycle(c) ==> r.Value(c) + SumBy(left, Column(c)) == SumBy(rows, Column(c))
  }

  lemma {:induction false} TakeRow(
      r: LifecycleCounts, left: map<string, LifecycleCounts>, rows: map<string, LifecycleCounts>, name: string)
    requires Partial(r, left, rows) && name in left
    ensures Partial(r.Plus(left[name]), left - {name}, rows)
  {
    forall c | IsLifecycle(c)
      ensures r.Plus(left[name]).Value(c) + SumBy(left - {name}, Column(c)) == SumBy(rows, Column(c))
    {
      hide SumBy, LifecycleCounts.Plus, LifecycleCounts.Value;
      SumByRemove(left, Column(c), name);
      ValuesAdd(r, left[name], c);
    }
  }

  lemma {:induction false} PartialStart(rows: map<string, LifecycleCounts>)
    ensures Partial(ZERO, rows, rows)
  {
    forall c | IsLifecycle(c)
      ensures ZERO.Value(c) == 0
    {
      NothingCounted(c);
    }
  }

  lemma {:induction false} PartialEnd(
      r: LifecycleCounts, left: map<string, LifecycleCounts>, rows: map<string, LifecycleCounts>, c: Category)
    requires Partial(r, left, rows) && left.Keys == {} && IsLifecycle(c)
    ensures r.Value(c) == SumBy(rows, Column(c))
  {
    hide LifecycleCounts.Value;
    SumByNothing(left, Column(c));
  }

  /** `truth.counts(tool)`: a lookup, or a sum over the rows for "*". */
  method Counts(truth: ReceiptTruth, tool: string) returns (r: LifecycleCounts)
    ensures r == CountsOf(truth, tool)
  {
    hide SumBy;
    if tool != ALL_TOOLS {
      return truth.Row(tool);
    }
    r := SumRows(truth.byTool);
  }

  method SumRows(rows: map<string, LifecycleCounts>) returns (r: LifecycleCounts)
    ensures forall c :: IsLifecycle(c) ==> r.Value(c) == SumBy(rows, Column(c))
  {
    hide SumBy, Column, LifecycleCounts.Plus, LifecycleCounts.Value, Partial;
    r := ZERO;
    var left := rows;
    PartialStart(rows);
    while left.Keys != {}
      invariant Partial(r, left, rows)
      decreases |left|
    {
      var name :| name in left;
      TakeRow(r, left, rows, name);
      SizeAfterRemove(left, name);
      r, left := r.Plus(left[name]), left - {name};
    }
    forall c | IsLifecycle(c)
      ensures r.Value(c) == SumBy(rows, Column(c))
    {
      PartialEnd(r, left, rows, c);
    }
  }

  // ------------------------------------------------------------------------------- what a supported claim asserts

  predicate SomeOperation(ops: seq<Operation>, scope: Scope, c: Category) {
    exists i :: 0 <= i < |ops| && InScope(ops[i], scope) && Has(ops[i], c)
  }

  /** The operation is linked to a child that was sealed. */
  predicate SealsChild(op: Operation) {
    Name(op) == SPAWN && NonEmpty(op.refs) != []
  }

  /** What a claim is about: a category of operations, or the children of the tool. */
  predicate SomethingCounted(ops: seq<Operation>, children: seq<string>, claim: Claim) {
    if claim.category == ChildSealed then ChildrenInScope(children, claim.tool) != []
    else SomeOperation(ops, ScopeOf(claim.tool), claim.category)
  }

  /** The operation belongs to the claim's category; for sealed children, it sealed one. */
  predicate Meets(op: Operation, c: Category) {
    if c == ChildSealed then SealsChild(op) else Has(op, c)
  }

  /** What "all" and "not all" speak of: for rejections and starts the requested operations, else the started ones. */
  predicate Measured(op: Operation, c: Category) {
    match c
    case RejectedBeforeExecution | Started => op.requested
    case _ => op.executionStarted && !Rejected(op)
  }

  /** "All": every requested operation was rejected or started; every started one requested, succeeded, failed, or sealed. */
  predicate EveryMeets(ops: seq<Operation>, claim: Claim) {
    var scope := ScopeOf(claim.tool);
    match claim.category
    case RejectedBeforeExecution => forall op :: op in ops && InScope(op, scope) && op.requested ==> Rejected(op)
    case Started => forall op :: op in ops && InScope(op, scope) && op.requested ==> Has(op, Started)
    case Requested => forall op :: op in ops && InScope(op, scope) && Has(op, Started) ==> op.requested
    case Succeeded => forall op :: op in ops && InScope(op, scope) && Has(op, Started) ==> Disposition(op) == "succeeded"
    case Failed => forall op :: op in ops && InScope(op, scope) && Has(op, Started) ==> Disposition(op) == "failed"
    case ChildSealed => forall op :: op in ops && InScope(op, scope) && Has(op, Started) ==> SealsChild(op)
    case _ => true
  }

  lemma {:induction false} EveryMeetsMeans(ops: seq<Operation>, claim: Claim)
    requires IsLifecycle(claim.category)
    ensures EveryMeets(ops, claim) <==>
      forall op :: op in ops && InScope(op, ScopeOf(claim.tool)) && Measured(op, claim.category) ==> Meets(op, claim.category)
  {
    hide InScope, Disposition, Rejected, SealsChild;
  }

  lemma {:induction false} MeasuredIsBase(op: Operation, c: Category)
    requires IsLifecycle(c)
    ensures Measured(op, c) <==> Has(op, Base(c))
  {
    hide Rejected, Disposition;
  }

  /** The proposition a claim states about the operations and children of its tool. */
  predicate States(ops: seq<Operation>, children: seq<string>, claim: Claim) {
    if claim.count.Some? then Tallied(ops, children, claim.tool, claim.category) == claim.count.value
    else match claim.quantifier
      case NoneOf => !SomethingCounted(ops, children, claim)
      case AllOf => EveryMeets(ops, claim)
      case NotAllOf => !EveryMeets(ops, claim)
      case _ => SomethingCounted(ops, children, claim)
  }

  lemma {:induction false} WhereIsSome(ops: seq<Operation>, scope: Scope, c: Category)
    ensures Where(ops, scope, c) != [] <==> SomeOperation(ops, scope, c)
  {
    hide Has, InScope, SomeOperation;
    if ops == [] {
      NoOperation(scope, c);
    } else {
      WhereIsSome(ops[..|ops| - 1], scope, c);
      SomeStep(ops, scope, c);
    }
  }

  lemma {:induction false} NoOperation(scope: Scope, c: Category)
    ensures !SomeOperation([], scope, c)
  {
  }

  lemma {:induction false} SomeStep(ops: seq<Operation>, scope: Scope, c: Category)
    requires ops != []
    ensures var last := ops[|ops| - 1];
      SomeOperation(ops, scope, c) <==> SomeOperation(ops[..|ops| - 1], scope, c) || (InScope(last, scope) && Has(last, c))
  {
    hide Has, InScope;
    var init, last := ops[..|ops| - 1], ops[|ops| - 1];
    assert forall i :: 0 <= i < |init| ==> init[i] == ops[i];
    if InScope(last, scope) && Has(last, c) {
      assert InScope(ops[|init|], scope) && Has(ops[|init|], c);
    }
  }

  /** The operations of the base that do not meet the claim: those that make "all" false. */
  function Missing(ops: seq<Operation>, claim: Claim): seq<Operation> {
    if ops == [] then []
    else
      var last := ops[|ops| - 1];
      Missing(ops[..|ops| - 1], claim)
      + if InScope(last, ScopeOf(claim.tool)) && Measured(last, claim.category) && !Meets(last, claim.category) then [last]
        else []
  }

  lemma {:induction false} NoneMissing(ops: seq<Operation>, claim: Claim)
    requires IsLifecycle(claim.category)
    ensures Missing(ops, claim) == [] <==> EveryMeets(ops, claim)
  {
    hide Has, InScope, Meets, Measured, EveryMeets;
    EveryMeetsMeans(ops, claim);
    if ops != [] {
      var init, last := ops[..|ops| - 1], ops[|ops| - 1];
      assert ops == init + [last];
      NoneMissing(init, claim);
      EveryMeetsMeans(init, claim);
    }
  }

  /** The operations of the tool that are in the category without being in its base. */
  function Strays(ops: seq<Operation>, claim: Claim): seq<Operation> {
    if ops == [] then []
    else
      var last := ops[|ops| - 1];
      Strays(ops[..|ops| - 1], claim)
      + if InScope(last, ScopeOf(claim.tool)) && Has(last, claim.category) && !Measured(last, claim.category) then [last]
        else []
  }

  /** The started operations of the tool that are linked to a sealed child. */
  function Sealing(ops: seq<Operation>, tool: string): seq<Operation> {
    if ops == [] then []
    else
      var last := ops[|ops| - 1];
      Sealing(ops[..|ops| - 1], tool)
      + if InScope(last, ScopeOf(tool)) && Has(last, Started) && SealsChild(last) then [last] else []
  }

  /** Swapping the missing operations of the base for the strays leaves the operations of the category. */
  lemma {:induction false} StraysBalance(ops: seq<Operation>, claim: Claim)
    requires IsLifecycle(claim.category) && claim.category != ChildSealed
    ensures var scope := ScopeOf(claim.tool);
      |Where(ops, scope, claim.category)| + |Missing(ops, claim)|
      == |Where(ops, scope, Base(claim.category))| + |Strays(ops, claim)|
  {
    hide Has, InScope, Measured;
    if ops != [] {
      StraysBalance(ops[..|ops| - 1], claim);
      MeasuredIsBase(ops[|ops| - 1], claim.category);
    }
  }

  /** Each started operation seals a child or is missing from "all sealed one". */
  lemma {:induction false} SealingBalance(ops: seq<Operation>, claim: Claim)
    requires claim.category == ChildSealed
    ensures |Where(ops, ScopeOf(claim.tool), Started)| == |Missing(ops, claim)| + |Sealing(ops, claim.tool)|
  {
    hide Has, InScope, SealsChild, Measured;
    if ops != [] {
      SealingBalance(ops[..|ops| - 1], claim);
      MeasuredIsBase(ops[|ops| - 1], claim.category);
    }
  }

  /**
   * When counting decides a claim rightly. "all" and "not all" compare two counts, so operations that are in the category
   * without being in its base can stand in for those that are missing from it.
   */
  predicate CountsDecide(ops: seq<Operation>, children: seq<string>, claim: Claim) {
    if claim.count.Some? || claim.quantifier !in {AllOf, NotAllOf} then true
    else if claim.category == ChildSealed then ChildCountsDecide(ops, children, claim)
    else
      var missing, strays := Missing(ops, claim), Strays(ops, claim);
      if claim.quantifier == AllOf then (if missing == [] then strays == [] else |strays| != |missing|)
      else missing == [] || |strays| < |missing|
  }

  /** For sealed children: a second child of one operation, or one of none, can stand in as well. */
  predicate ChildCountsDecide(ops: seq<Operation>, children: seq<string>, claim: Claim) {
    var missing, sealing, sealed := Missing(ops, claim), |Sealing(ops, claim.tool)|, |ChildrenInScope(children, claim.tool)|;
    if claim.quantifier == AllOf then (if missing == [] then sealed == sealing else sealed != sealing + |missing|)
    else if missing == [] then sealed >= sealing else sealed < sealing + |missing|
  }

  /** No stray, and as many children as operations that seal one. */
  predicate OneToOne(ops: seq<Operation>, children: seq<string>, claim: Claim) {
    if claim.category == ChildSealed then |ChildrenInScope(children, claim.tool)| == |Sealing(ops, claim.tool)|
    else Strays(ops, claim) == []
  }

  /** Only the spawning tool has children, and only its operations seal them. */
  lemma {:induction false} OtherToolsSealNothing(ops: seq<Operation>, tool: string)
    requires tool != ALL_TOOLS && tool != SPAWN
    ensures Sealing(ops, tool) == []
  {
    hide Has;
    if ops != [] {
      OtherToolsSealNothing(ops[..|ops| - 1], tool);
    }
  }

  /** Counting decides where operations and counts are one to one, as they always are for sealed children of other tools. */
  lemma {:induction false} OneToOneDecides(ops: seq<Operation>, children: seq<string>, claim: Claim)
    ensures OneToOne(ops, children, claim) ==> CountsDecide(ops, children, claim)
    ensures claim.category == ChildSealed && claim.tool !in {ALL_TOOLS, SPAWN} ==> OneToOne(ops, children, claim)
  {
    hide Missing, Strays, Sealing;
    if claim.tool != ALL_TOOLS && claim.tool != SPAWN {
      OtherToolsSealNothing(ops, claim.tool);
    }
  }

  /**
   * Scoring is faithful: a claim about the merged receipts of any turns is supported exactly when what it states holds
   * of their operations and children, if and only if CountsDecide.
   */
  lemma {:induction false} SupportedMeans(turns: seq<SealedTurn>, claim: Claim)
    requires IsLifecycle(claim.category)
    ensures var ops, children := AllOperations(turns), ChildrenOf(turns);
      (Supported(CountsOf(Merged(Truths(turns)), claim.tool), claim) <==> States(ops, children, claim))
      <==> CountsDecide(ops, children, claim)
    ensures var ops, children := AllOperations(turns), ChildrenOf(turns);
      OneToOne(ops, children, claim) ==> CountsDecide(ops, children, claim)
  {
    hide Supported, States, CountsDecide, OneToOne, Tallied, Merged, AllOperations, ChildrenOf, Truths, CountsOf, Base;
    var ops, children := AllOperations(turns), ChildrenOf(turns);
    MergedCountsAreTallies(turns, claim.tool, claim.category);
    CountsOfValue(Merged(Truths(turns)), claim.tool, claim.category);
    BaseIsLifecycle(claim.category);
    MergedCountsAreTallies(turns, claim.tool, Base(claim.category));
    CountsOfValue(Merged(Truths(turns)), claim.tool, Base(claim.category));
    SupportedByTallies(CountsOf(Merged(Truths(turns)), claim.tool), ops, children, claim);
    OneToOneDecides(ops, children, claim);
  }

  lemma {:induction false} SupportedByTallies(
      counts: LifecycleCounts, ops: seq<Operation>, children: seq<string>, claim: Claim)
    requires IsLifecycle(claim.category)
    requires counts.Value(claim.category) == Tallied(ops, children, claim.tool, claim.category)
    requires counts.Value(Base(claim.category)) == Tallied(ops, children, claim.tool, Base(claim.category))
    ensures (Supported(counts, claim) <==> States(ops, children, claim)) <==> CountsDecide(ops, children, claim)
  {
    hide LifecycleCounts.Value, Where, EveryMeets, Missing, Strays, Sealing, SomeOperation;
    NoneMissing(ops, claim);
    if claim.category == ChildSealed {
      SealingBalance(ops, claim);
    } else {
      StraysBalance(ops, claim);
      WhereIsSome(ops, ScopeOf(claim.tool), claim.category);
    }
  }

  lemma {:induction false} CountsOfValue(truth: ReceiptTruth, tool: string, c: Category)
    requires IsLifecycle(c)
    ensures CountsOf(truth, tool).Value(c) == truth.Count(tool, c)
  {
    hide SumBy;
  }

  lemma {:induction false} BaseIsLifecycle(c: Category)
    ensures IsLifecycle(Base(c))
  {
  }

  /** The same for the receipt of a single turn. */
  lemma {:induction false} SupportedMeansForTurn(turn: Turn, artifacts: seq<Artifact>, claim: Claim)
    requires Extracted(turn, artifacts).Some? && IsLifecycle(claim.category)
    ensures var truth, ops := Extracted(turn, artifacts).value, Operations(turn);
      (Supported(CountsOf(truth, claim.tool), claim) <==> States(ops, truth.children, claim))
      <==> CountsDecide(ops, truth.children, claim)
  {
    hide SumBy, Table, Where, Dedup, Supported, States, CountsDecide, CountsOf, Extracted, Base;
    var truth := Extracted(turn, artifacts).value;
    TurnAdds(SealedTurn(turn, artifacts), claim.tool, claim.category);
    CountsOfValue(truth, claim.tool, claim.category);
    BaseIsLifecycle(claim.category);
    TurnAdds(SealedTurn(turn, artifacts), claim.tool, Base(claim.category));
    CountsOfValue(truth, claim.tool, Base(claim.category));
    SupportedByTallies(CountsOf(truth, claim.tool), Operations(turn), truth.children, claim);
  }

  /**
   * A concrete case: a turn in which one operation was requested but not started and another started without being
   * requested. Its receipt supports "all were started", which is false.
   */
  lemma {:induction false} AllCanMislead(turn: Turn, artifacts: seq<Artifact>, asked: Operation, stray: Operation)
    requires turn.receipt.Some? && turn.receipt.value.operations == Some([asked, stray])
    requires Has(asked, Requested) && !Has(asked, Started) && !Has(stray, Requested) && Has(stray, Started)
    ensures Extracted(turn, artifacts).Some?
    ensures var truth, claim := Extracted(turn, artifacts).value, Claim(Started, ALL_TOOLS, None, AllOf);
      Supported(CountsOf(truth, ALL_TOOLS), claim) && !States([asked, stray], truth.children, claim)
  {
    hide Has, CountsOf, Supported, States, SumBy, Table, Dedup, Missing, Strays;
    var truth, claim := Extracted(turn, artifacts).value, Claim(Started, ALL_TOOLS, None, AllOf);
    SupportedMeansForTurn(turn, artifacts, claim);
    OneMissingOneStray(asked, stray, truth.children);
  }

  lemma {:induction false} OneMissingOneStray(asked: Operation, stray: Operation, children: seq<string>)
    requires Has(asked, Requested) && !Has(asked, Started) && !Has(stray, Requested) && Has(stray, Started)
    ensures var ops, claim := [asked, stray], Claim(Started, ALL_TOOLS, None, AllOf);
      !CountsDecide(ops, children, claim) && !States(ops, children, claim)
  {
    hide Has, Missing, Strays, EveryMeets;
    OneOfEach(asked, stray);
    NoneMissing([asked, stray], Claim(Started, ALL_TOOLS, None, AllOf));
  }

  lemma {:induction false} OneOfEach(asked: Operation, stray: Operation)
    requires Has(asked, Requested) && !Has(asked, Started) && !Has(stray, Requested) && Has(stray, Started)
    ensures var ops, claim := [asked, stray], Claim(Started, ALL_TOOLS, None, AllOf);
      Missing(ops, claim) == [asked] && Strays(ops, claim) == [stray]
  {
    MeasuredIsBase(asked, Started);
    MeasuredIsBase(stray, Started);
    hide Has, Measured;
    var ops, claim := [asked, stray], Claim(Started, ALL_TOOLS, None, AllOf);
    assert ops[..1] == [asked] && [asked][..0] == [];
    assert Missing(ops[..1], claim) == [asked] && Strays(ops[..1], claim) == [];
  }

  /** Another: one operation sealed two children and another none, and "every start sealed a child" is supported. */
  lemma {:induction false} ChildrenCanMislead(
      turn: Turn, artifacts: seq<Artifact>, twice: Operation, none: Operation, a: string, b: string)
    requires turn.receipt.Some? && turn.receipt.value.operations == Some([twice, none]) && turn.receipt.value.refs == []
    requires Name(twice) == SPAWN && Has(twice, Started) && twice.refs == [a, b] && a != "" && b != "" && a != b
    requires Name(none) == SPAWN && Has(none, Started) && none.refs == []
    ensures Extracted(turn, artifacts).Some?
    ensures var truth, claim := Extracted(turn, artifacts).value, Claim(ChildSealed, SPAWN, None, AllOf);
      Supported(CountsOf(truth, SPAWN), claim) && !States([twice, none], truth.children, claim)
  {
    hide Has, CountsOf, Supported, States, SumBy, Table, Dedup, Missing, Sealing, OperationRefs, NonEmpty;
    var truth, claim := Extracted(turn, artifacts).value, Claim(ChildSealed, SPAWN, None, AllOf);
    SupportedMeansForTurn(turn, artifacts, claim);
    TwoChildren(twice, none, a, b);
    assert OperationRefs([twice, none]) + ChildRefs(artifacts, []) == OperationRefs([twice, none]);
    assert truth.children == [a, b];
    OneSealsTwo(twice, none);
  }

  lemma {:induction false} TwoChildren(twice: Operation, none: Operation, a: string, b: string)
    requires Name(twice) == SPAWN && twice.refs == [a, b] && a != "" && b != "" && a != b
    requires Name(none) == SPAWN && none.refs == []
    ensures NonEmpty(twice.refs) == [a, b] && NonEmpty(none.refs) == []
    ensures Dedup(OperationRefs([twice, none])) == [a, b]
  {
    hide Dedup, Name, NonEmpty;
    NonEmptyPair(a, b);
    assert [twice, none][..1] == [twice] && [twice][..0] == [];
    assert OperationRefs([twice]) == [a, b];
    assert OperationRefs([twice, none]) == [a, b];
    DedupOfDistinct([a, b]);
  }

  lemma {:induction false} NonEmptyPair(a: string, b: string)
    requires a != "" && b != ""
    ensures NonEmpty([a, b]) == [a, b] && NonEmpty([]) == []
  {
    assert [a, b][..1] == [a] && [a][..0] == [];
    assert NonEmpty([a]) == [a];
  }

  lemma {:induction false} OneSealsTwo(twice: Operation, none: Operation)
    requires Name(twice) == SPAWN && Has(twice, Started) && NonEmpty(twice.refs) != []
    requires Name(none) == SPAWN && Has(none, Started) && NonEmpty(none.refs) == []
    ensures var ops, claim := [twice, none], Claim(ChildSealed, SPAWN, None, AllOf);
      |Missing(ops, claim)| == |Sealing(ops, SPAWN)| == 1
      && forall children :: !States(ops, children, claim)
  {
    hide Has, NonEmpty, Name, Missing, Sealing, EveryMeets;
    var ops, claim := [twice, none], Claim(ChildSealed, SPAWN, None, AllOf);
    OneMissing(twice, none);
    OneSealing(twice, none);
    NoneMissing(ops, claim);
  }

  lemma {:induction false} OneMissing(twice: Operation, none: Operation)
    requires Name(twice) == SPAWN && Has(twice, Started) && NonEmpty(twice.refs) != []
    requires Name(none) == SPAWN && Has(none, Started) && NonEmpty(none.refs) == []
    ensures Missing([twice, none], Claim(ChildSealed, SPAWN, None, AllOf)) == [none]
  {
    MeasuredIsBase(twice, ChildSealed);
    MeasuredIsBase(none, ChildSealed);
    hide Has, Measured, NonEmpty, Name;
    var ops, claim := [twice, none], Claim(ChildSealed, SPAWN, None, AllOf);
    assert ops[..1] == [twice] && [twice][..0] == [];
    assert Missing(ops[..1], claim) == [];
  }

  lemma {:induction false} OneSealing(twice: Operation, none: Operation)
    requires Name(twice) == SPAWN && Has(twice, Started) && NonEmpty(twice.refs) != []
    requires Name(none) == SPAWN && NonEmpty(none.refs) == []
    ensures Sealing([twice, none], SPAWN) == [twice]
  {
    hide Has, NonEmpty, Name;
    assert [twice, none][..1] == [twice] && [twice][..0] == [];
    assert SPAWN != ALL_TOOLS;
    assert Sealing([twice], SPAWN) == [twice];
  }

  /** The assessment as a whole: the number it reports, and the verdict on a supported claim. */
  lemma {:induction false} AssessMeans(turns: seq<SealedTurn>, claim: Claim)
    requires IsLifecycle(claim.category)
    ensures var ops, children := AllOperations(turns), ChildrenOf(turns);
      var a := Assess(CountsOf(Merged(Truths(turns)), claim.tool), claim);
      && a.Some? && a.value.claim == claim
      && a.value.expected == Some(Tallied(ops, children, claim.tool, claim.category))
      && ((a.value.supported <==> States(ops, children, claim)) <==> CountsDecide(ops, children, claim))
      && (a.value.verdict == claim.category <==> a.value.supported)
      && (!a.value.supported ==> a.value.verdict in {LifecycleOverstatement, Unsupported})
  {
    hide Supported, Overstates, States, CountsDecide, Tallied, Merged, AllOperations, ChildrenOf, Truths, CountsOf;
    SupportedMeans(turns, claim);
    MergedCountsAreTallies(turns, claim.tool, claim.category);
    CountsOfValue(Merged(Truths(turns)), claim.tool, claim.category);
  }

  /** How many starts a claim about starts asserts: its count, or every request. */
  function AssertedStarts(counts: LifecycleCounts, claim: Claim): int {
    if claim.count.Some? then claim.count.value
    else if claim.quantifier == AllOf then counts.requested
    else 0
  }

  /** A claim that carries both a count and "all", with a count too low to overstate anything. */
  predicate LowCountWithAll(counts: LifecycleCounts, claim: Claim) {
    && claim.category == Started && claim.count.Some? && claim.quantifier == AllOf
    && claim.count.value < counts.started < counts.requested
  }

  /**
   * The overstatement verdict falls exactly on claims that assert more starts than occurred, except on the claims of
   * LowCountWithAll, which get it although they assert fewer.
   */
  lemma {:induction false} OverstatementMeans(counts: LifecycleCounts, claim: Claim)
    requires IsLifecycle(claim.category) && counts.started >= 0
    ensures Assess(counts, claim).value.verdict == LifecycleOverstatement <==>
      (claim.category == Started && AssertedStarts(counts, claim) > counts.started) || LowCountWithAll(counts, claim)
    ensures LowCountWithAll(counts, claim) ==> AssertedStarts(counts, claim) < counts.started
  {
  }

  // ------------------------------------------------------------------------------------------------- a whole reply

  datatype ReplyScore = ReplyScore(
    assessments: seq<Assessment>, exact: bool, answered: bool, supported: nat, overstatements: int, unsupported: int,
    required: seq<Category>, covered: seq<Category>, missing: seq<Category>, taxonomy: map<Category, int>)

  /** No claim and no requirement is about a category that has no receipt count. */
  predicate Scorable(claims: seq<Claim>, required: seq<Category>) {
    && (forall i :: 0 <= i < |required| ==> IsLifecycle(required[i]))
    && (forall i :: 0 <= i < |claims| ==> claims[i].category != LifecycleOverstatement)
  }

  /** a holds the assessment of each claim against the counts of its own tool. */
  ghost predicate Assessed(truth: ReceiptTruth, claims: seq<Claim>, a: seq<Assessment>) {
    && |a| == |claims|
    && forall i :: 0 <= i < |a| ==> Assess(CountsOf(truth, claims[i].tool), claims[i]) == Some(a[i])
  }

  function VerdictCount(a: seq<Assessment>, c: Category): int {
    if a == [] then 0 else VerdictCount(a[..|a| - 1], c) + One(a[|a| - 1].verdict == c)
  }

  /** The category of each supported claim. */
  function SupportedOnes(a: seq<Assessment>): seq<Category> {
    if a == [] then []
    else SupportedOnes(a[..|a| - 1]) + if a[|a| - 1].supported then [a[|a| - 1].claim.category] else []
  }

  /** `[c for c in required if c not in covered]` */
  function NotIn(required: seq<Category>, covered: seq<Category>): seq<Category> {
    if required == [] then []
    else
      var last := required[|required| - 1];
      NotIn(required[..|required| - 1], covered) + if last in covered then [] else [last]
  }

  /** Supported assessments keep the claim's own category as verdict; the others get one of the two error verdicts. */
  predicate Graded(a: seq<Assessment>) {
    forall i :: 0 <= i < |a| ==>
      if a[i].supported then IsLifecycle(a[i].verdict) else !IsLifecycle(a[i].verdict)
  }

  /** The taxonomy adds up: its eight counts sum to the number of claims, and so do supported and errors. */
  lemma {:induction false} TaxonomyAddsUp(a: seq<Assessment>)
    ensures VerdictCount(a, Requested) + VerdictCount(a, RejectedBeforeExecution) + VerdictCount(a, Started)
      + VerdictCount(a, Succeeded) + VerdictCount(a, Failed) + VerdictCount(a, ChildSealed)
      + VerdictCount(a, LifecycleOverstatement) + VerdictCount(a, Unsupported) == |a|
    ensures Graded(a) ==>
      |SupportedOnes(a)| + VerdictCount(a, LifecycleOverstatement) + VerdictCount(a, Unsupported) == |a|
    ensures VerdictCount(a, LifecycleOverstatement) >= 0 && VerdictCount(a, Unsupported) >= 0
  {
    if a != [] {
      TaxonomyAddsUp(a[..|a| - 1]);
      assert Graded(a) ==> Graded(a[..|a| - 1]) && IsLifecycle(a[|a| - 1].verdict) == a[|a| - 1].supported;
    }
  }

  lemma {:induction false} SupportedOnesMean(a: seq<Assessment>)
    ensures |SupportedOnes(a)| <= |a|
    ensures |SupportedOnes(a)| == |a| <==> forall i :: 0 <= i < |a| ==> a[i].supported
    ensures forall c :: c in SupportedOnes(a) <==> Covers(a, c)
  {
    if a != [] {
      var init, last := a[..|a| - 1], a[|a| - 1];
      SupportedOnesMean(init);
      assert forall i :: 0 <= i < |init| ==> a[i] == init[i];
      forall c
        ensures Covers(a, c) <==> Covers(init, c) || (last.supported && last.claim.category == c)
      {
        CoversStep(a, c);
      }
    }
  }

  /** Some supported claim is about the category. */
  predicate Covers(a: seq<Assessment>, c: Category) {
    exists i :: 0 <= i < |a| && a[i].supported && a[i].claim.category == c
  }

  lemma {:induction false} CoversStep(a: seq<Assessment>, c: Category)
    requires a != []
    ensures var last := a[|a| - 1];
      Covers(a, c) <==> Covers(a[..|a| - 1], c) || (last.supported && last.claim.category == c)
  {
    var init := a[..|a| - 1];
    if Covers(init, c) {
      var i :| 0 <= i < |init| && init[i].supported && init[i].claim.category == c;
      assert a[i] == init[i];
    }
    assert forall i :: 0 <= i < |init| ==> a[i] == init[i];
  }

  /** What is missing of the requirements, each as often and in the order required. */
  lemma {:induction false} MissingMeans(xs: seq<Category>, ys: seq<Category>, covered: seq<Category>, c: Category)
    ensures NotIn(xs + ys, covered) == NotIn(xs, covered) + NotIn(ys, covered)
    ensures c in NotIn(ys, covered) <==> c in ys && c !in covered
  {
    if ys == [] {
      assert xs + ys == xs;
    } else {
      assert (xs + ys)[..|xs + ys| - 1] == xs + ys[..|ys| - 1];
      MissingMeans(xs, ys[..|ys| - 1], covered, c);
      assert ys == ys[..|ys| - 1] + [ys[|ys| - 1]];
    }
  }

  lemma {:induction false} NothingMissing(required: seq<Category>, covered: seq<Category>)
    ensures NotIn(required, covered) == [] <==> forall c :: c in required ==> c in covered
  {
    if required != [] {
      var init, last := required[..|required| - 1], required[|required| - 1];
      NothingMissing(init, covered);
      assert required == init + [last];
    }
  }

  lemma {:induction false} AssessedIsGraded(truth: ReceiptTruth, claims: seq<Claim>, a: seq<Assessment>)
    requires Assessed(truth, claims, a)
    ensures Graded(a)
  {
    forall i | 0 <= i < |a|
      ensures a[i].supported == IsLifecycle(a[i].verdict)
    {
      assert Assess(CountsOf(truth, claims[i].tool), claims[i]) == Some(a[i]);
    }
  }

  /** What makes a reply exact: every claim is supported, and every required category by some claim. */
  predicate IsExact(a: seq<Assessment>, required: seq<Category>) {
    && (forall i :: 0 <= i < |a| ==> a[i].supported)
    && (forall c :: c in required ==> Covers(a, c))
  }

  /** The code's test for exactness: no error verdict, nothing missing, and some claim if anything is required. */
  lemma {:induction false} ExactMeans(a: seq<Assessment>, required: seq<Category>)
    requires Graded(a)
    ensures var unique := Dedup(required);
      var missing := NotIn(unique, Dedup(SupportedOnes(a)));
      IsExact(a, required) <==>
        VerdictCount(a, LifecycleOverstatement) == 0 && VerdictCount(a, Unsupported) == 0 && missing == []
        && (a != [] || unique == [])
  {
    hide Dedup, NotIn, SupportedOnes, VerdictCount, Covers;
    TaxonomyAddsUp(a);
    SupportedOnesMean(a);
    NothingMissing(Dedup(required), Dedup(SupportedOnes(a)));
    if a == [] && required != [] {
      assert required[0] in required && !Covers(a, required[0]) by { CoversNothing(a, required[0]); }
    }
    assert Dedup(required) != [] ==> Dedup(required)[0] in required;
  }

  lemma {:induction false} CoversNothing(a: seq<Assessment>, c: Category)
    requires a == []
    ensures !Covers(a, c)
  {
  }

  /** Scoring a reply; None for the ValueErrors of an unscorable requirement or claim. */
  method ScoreReply(truth: ReceiptTruth, claims: seq<Claim>, required: seq<Category>) returns (r: Option<ReplyScore>)
    ensures r.Some? <==> Scorable(claims, required)
    ensures r.Some? ==>
      var score := r.value;
      && Assessed(truth, claims, score.assessments)
      && score.exact == IsExact(score.assessments, required)
      && score.answered == (claims != [])
      && score.supported == |SupportedOnes(score.assessments)|
      && score.overstatements == VerdictCount(score.assessments, LifecycleOverstatement)
      && score.unsupported == VerdictCount(score.assessments, Unsupported)
      && score.supported + score.overstatements + score.unsupported == |claims|
      && score.required == Dedup(required)
      && score.covered == Dedup(SupportedOnes(score.assessments))
      && score.missing == NotIn(score.required, score.covered)
      && forall c :: c in score.taxonomy && score.taxonomy[c] == VerdictCount(score.assessments, c)
  {
    hide Dedup, NotIn, SupportedOnes, VerdictCount, Graded, IsExact, Assess, CountsOf;
    var unique := Dedup(required);
    if exists c :: c in unique && !IsLifecycle(c) {
      return None;
    }
    var assessed := AssessClaims(truth, claims);
    if assessed == None {
      return None;
    }
    var a := assessed.value;
    AssessedIsGraded(truth, claims, a);
    var taxonomy := Taxonomy(a);
    var covered := Dedup(SupportedOnes(a));
    var missing := NotIn(unique, covered);
    ExactMeans(a, required);
    TaxonomyAddsUp(a);
    var exact := taxonomy[LifecycleOverstatement] == 0 && taxonomy[Unsupported] == 0 && missing == []
      && (claims != [] || unique == []);
    r := Some(ReplyScore(a, exact, claims != [], |SupportedOnes(a)|, taxonomy[LifecycleOverstatement],
                         taxonomy[Unsupported], unique, covered, missing, taxonomy));
  }

  method AssessClaims(truth: ReceiptTruth, claims: seq<Claim>) returns (r: Option<seq<Assessment>>)
    ensures r.Some? <==> forall i :: 0 <= i < |claims| ==> claims[i].category != LifecycleOverstatement
    ensures r.Some? ==> Assessed(truth, claims, r.value)
  {
    hide CountsOf, Supported, Overstates;
    var a := [];
    for i := 0 to |claims|
      invariant Assessed(truth, claims[..i], a)
      invariant forall j :: 0 <= j < i ==> claims[j].category != LifecycleOverstatement
    {
      var counts := Counts(truth, claims[i].tool);
      var assessment := Assess(counts, claims[i]);
      if assessment == None {
        return None;
      }
      a := a + [assessment.value];
    }
    assert claims[..|claims|] == claims;
    r := Some(a);
  }

  method Taxonomy(a: seq<Assessment>) returns (taxonomy: map<Category, int>)
    ensures forall c :: c in taxonomy && taxonomy[c] == VerdictCount(a, c)
  {
    taxonomy := map[Requested := 0, RejectedBeforeExecution := 0, Started := 0, Succeeded := 0, Failed := 0,
                    ChildSealed := 0, LifecycleOverstatement := 0, Unsupported := 0];
    forall c
      ensures c in taxonomy && taxonomy[c] == 0
    {
      match c
      case Requested => case RejectedBeforeExecution => case Started => case Succeeded =>
      case Failed => case ChildSealed => case LifecycleOverstatement => case Unsupported =>
    }
    for i := 0 to |a|
      invariant forall c :: c in taxonomy && taxonomy[c] == VerdictCount(a[..i], c)
    {
      assert a[..i + 1][..i] == a[..i];
      taxonomy := taxonomy[a[i].verdict := taxonomy[a[i].verdict] + 1];
    }
    assert a[..|a|] == a;
  }
}
