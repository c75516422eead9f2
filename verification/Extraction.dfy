/** Reading one turn's lifecycle facts out of its sealed receipt (evals/receipt_claims.py, extract_receipt_truth). */
module Extraction {
  import opened Options
  import opened Receipts
  import opened Seqs
  import opened Sums
  import opened Text

  /** One operation of a receipt. An empty string stands for a missing or empty field. */
  datatype Operation = Operation(
    name: string, disposition: string, outcome: string,
    requested: bool, rejectedFlag: bool, executionStarted: bool, refs: seq<string>)

  datatype Receipt = Receipt(
    turnId: string, disposition: string, operations: Option<seq<Operation>>, refs: seq<string>)

  datatype Turn = Turn(id: string, receipt: Option<Receipt>)

  datatype Artifact = Artifact(id: string, kind: string)

  /** `str.lower` on ASCII text. */
  function Lower(s: string): string {
    if s == "" then ""
    else [if 'A' <= s[0] <= 'Z' then s[0] + ('a' - 'A') else s[0]] + Lower(s[1..])
  }

  /** `a or b` on strings. */
  function Or(a: string, b: string): string {
    if a != "" then a else b
  }

  function Name(op: Operation): string {
    Or(op.name, "unknown")
  }

  function Disposition(op: Operation): string {
    Lower(Or(op.disposition, op.outcome))
  }

  predicate Rejected(op: Operation) {
    op.rejectedFlag || Disposition(op) == "rejected"
  }

  /** The operation is counted under the category. Nothing rejected counts as started. */
  predicate Has(op: Operation, c: Category) {
    match c
    case Requested => op.requested
    case RejectedBeforeExecution => Rejected(op)
    case Started => op.executionStarted && !Rejected(op)
    case Succeeded => Disposition(op) == "succeeded"
    case Failed => Disposition(op) == "failed"
    case _ => false
  }

  function One(b: bool): int {
    if b then 1 else 0
  }

  function Delta(op: Operation): LifecycleCounts {
    LifecycleCounts(One(Has(op, Requested)), One(Has(op, RejectedBeforeExecution)), One(Has(op, Started)),
                    One(Has(op, Succeeded)), One(Has(op, Failed)), 0)
  }

  function AddTo(table: map<string, LifecycleCounts>, op: Operation): map<string, LifecycleCounts> {
    table[Name(op) := RowOf(table, Name(op)).Plus(Delta(op))]
  }

  function Table(ops: seq<Operation>): map<string, LifecycleCounts> {
    if ops == [] then map[] else AddTo(Table(ops[..|ops| - 1]), ops[|ops| - 1])
  }

  // ---------------------------------------------------------------------------------------------------- tallies

  datatype Scope = AllTools | Tool(name: string)

  function ScopeOf(tool: string): Scope {
    if tool == ALL_TOOLS then AllTools else Tool(tool)
  }

  predicate InScope(op: Operation, scope: Scope) {
    scope == AllTools || Name(op) == scope.name
  }

  /** The operations of a tool that the category counts. */
  function Where(ops: seq<Operation>, scope: Scope, c: Category): seq<Operation> {
    if ops == [] then []
    else
      var last := ops[|ops| - 1];
      Where(ops[..|ops| - 1], scope, c) + if InScope(last, scope) && Has(last, c) then [last] else []
  }

  function Scoped(ops: seq<Operation>, scope: Scope): seq<Operation> {
    if ops == [] then []
    else Scoped(ops[..|ops| - 1], scope) + if InScope(ops[|ops| - 1], scope) then [ops[|ops| - 1]] else []
  }

  /** Each row of the table counts the operations of its tool. */
  lemma {:induction false} RowsAreTallies(ops: seq<Operation>, name: string, c: Category)
    requires IsLifecycle(c)
    ensures RowOf(Table(ops), name).Value(c) == |Where(ops, Tool(name), c)|
  {
    hide Has;
    if ops != [] {
      RowsAreTallies(ops[..|ops| - 1], name, c);
      DeltaValue(ops[|ops| - 1], c);
    }
  }

  lemma {:induction false} DeltaValue(op: Operation, c: Category)
    requires IsLifecycle(c)
    ensures Delta(op).Value(c) == One(Has(op, c))
  {
  }

  lemma {:induction false} ColumnOfAddTo(table: map<string, LifecycleCounts>, op: Operation, c: Category)
    requires IsLifecycle(c)
    ensures SumBy(AddTo(table, op), Column(c)) == SumBy(table, Column(c)) + One(Has(op, c))
  {
    hide Has, SumBy, LifecycleCounts.Value, LifecycleCounts.Plus, Delta, Name;
    var row := RowOf(table, Name(op));
    SumByUpdate(table, Column(c), Name(op), row.Plus(Delta(op)));
    ValuesAdd(row, Delta(op), c);
    DeltaValue(op, c);
    assert ZERO.Value(c) == 0 by { NothingCounted(c); }
  }

  lemma {:induction false} NothingCounted(c: Category)
    requires IsLifecycle(c)
    ensures ZERO.Value(c) == 0
  {
  }

  /** Each column of the table counts the operations of all tools. */
  lemma {:induction false} ColumnsAreTallies(ops: seq<Operation>, c: Category)
    requires IsLifecycle(c)
    ensures SumBy(Table(ops), Column(c)) == |Where(ops, AllTools, c)|
  {
    hide Has, SumBy, AddTo, Column;
    if ops == [] {
      SumByNothing(Table(ops), Column(c));
    } else {
      ColumnsAreTallies(ops[..|ops| - 1], c);
      ColumnOfAddTo(Table(ops[..|ops| - 1]), ops[|ops| - 1], c);
    }
  }

  /** No operation is both rejected and started, or both succeeded and failed. */
  lemma {:induction false} OutcomesExclude(ops: seq<Operation>, scope: Scope)
    ensures |Where(ops, scope, RejectedBeforeExecution)| + |Where(ops, scope, Started)| <= |Scoped(ops, scope)|
    ensures |Where(ops, scope, Succeeded)| + |Where(ops, scope, Failed)| <= |Scoped(ops, scope)|
  {
    if ops != [] {
      OutcomesExclude(ops[..|ops| - 1], scope);
    }
  }

  // --------------------------------------------------------------------------------------------------- child ids

  function NonEmpty(refs: seq<string>): seq<string> {
    if refs == [] then []
    else NonEmpty(refs[..|refs| - 1]) + if refs[|refs| - 1] != "" then [refs[|refs| - 1]] else []
  }

  /** The refs that the receipt ties to a spawn operation. */
  function OperationRefs(ops: seq<Operation>): seq<string> {
    if ops == [] then []
    else
      var last := ops[|ops| - 1];
      OperationRefs(ops[..|ops| - 1]) + if Name(last) == SPAWN then NonEmpty(last.refs) else []
  }

  /** The kind of the last artifact with that id, as an index built in order holds it. */
  function KindOf(artifacts: seq<Artifact>, ref: string): Option<string> {
    if artifacts == [] || ref == "" then None
    else if artifacts[|artifacts| - 1].id == ref then Some(artifacts[|artifacts| - 1].kind)
    else KindOf(artifacts[..|artifacts| - 1], ref)
  }

  /** A supplied artifact proves its kind; without one, a canonical child id speaks for itself. */
  predicate IsChildRef(artifacts: seq<Artifact>, ref: string) {
    match KindOf(artifacts, ref)
    case Some(kind) => kind == "subagent"
    case None => StartsWith(ref, "subagent-")
  }

  function ChildRefs(artifacts: seq<Artifact>, refs: seq<string>): seq<string> {
    if refs == [] then []
    else
      var last := refs[|refs| - 1];
      ChildRefs(artifacts, refs[..|refs| - 1]) + if IsChildRef(artifacts, last) then [last] else []
  }

  /** The distinct children: those of spawn operations first, then those of the receipt itself. */
  function ChildIds(ops: seq<Operation>, refs: seq<string>, artifacts: seq<Artifact>): seq<string> {
    Dedup(OperationRefs(ops) + ChildRefs(artifacts, refs))
  }

  function Seal(table: map<string, LifecycleCounts>, ids: seq<string>): map<string, LifecycleCounts> {
    if ids == [] then table else table[SPAWN := RowOf(table, SPAWN).(childSealed := |ids|)]
  }

  /** The facts of one turn; None when it has no receipt with a list of operations. */
  function Extracted(turn: Turn, artifacts: seq<Artifact>): Option<ReceiptTruth> {
    if turn.receipt == None || turn.receipt.value.operations == None then None
    else
      var receipt := turn.receipt.value;
      var ops := receipt.operations.value;
      var ids := ChildIds(ops, receipt.refs, artifacts);
      Some(ReceiptTruth([Or(receipt.turnId, Or(turn.id, "unknown"))], [Or(receipt.disposition, "unknown")],
                        Seal(Table(ops), ids), ids))
  }

  lemma {:induction false} SealCounts(ops: seq<Operation>, ids: seq<string>, tool: string, c: Category)
    requires IsLifecycle(c)
    ensures var truth := ReceiptTruth([], [], Seal(Table(ops), ids), ids);
      truth.Count(tool, c) == if c != ChildSealed then |Where(ops, ScopeOf(tool), c)|
                              else if tool == ALL_TOOLS || tool == SPAWN then |ids| else 0
  {
    hide SumBy, Table, Has;
    var row := RowOf(Table(ops), SPAWN);
    SumByUpdate(Table(ops), Column(c), SPAWN, row.(childSealed := |ids|));
    ColumnsAreTallies(ops, c);
    RowsAreTallies(ops, tool, c);
    RowsAreTallies(ops, SPAWN, c);
    NothingSealed(ops, AllTools);
    NothingSealed(ops, Tool(SPAWN));
    NothingSealed(ops, Tool(tool));
    NoColumnWithoutRow(ops, c);
  }

  lemma {:induction false} NothingSealed(ops: seq<Operation>, scope: Scope)
    ensures Where(ops, scope, ChildSealed) == []
  {
    if ops != [] {
      NothingSealed(ops[..|ops| - 1], scope);
    }
  }

  lemma {:induction false} NoColumnWithoutRow(ops: seq<Operation>, c: Category)
    requires IsLifecycle(c)
    ensures SPAWN !in Table(ops) ==> RowOf(Table(ops), SPAWN).Value(c) == 0
  {
  }

  /**
   * An extracted receipt is faithful: each count, the "*" aggregate included, is the number of operations of that tool
   * in that category, and children are counted once, under the spawning tool.
   */
  lemma {:induction false} CountsAreTallies(turn: Turn, artifacts: seq<Artifact>, tool: string, c: Category)
    requires Extracted(turn, artifacts).Some? && IsLifecycle(c)
    ensures var truth, ops := Extracted(turn, artifacts).value, turn.receipt.value.operations.value;
      truth.Count(tool, c) == if c != ChildSealed then |Where(ops, ScopeOf(tool), c)|
                              else if tool == ALL_TOOLS || tool == SPAWN then |truth.children| else 0
  {
    hide SumBy, Table, Where, Dedup;
    SealCounts(turn.receipt.value.operations.value, Extracted(turn, artifacts).value.children, tool, c);
  }

  /** Rejected and started operations never overlap, so together they are at most all operations of the tool. */
  lemma {:induction false} RejectedPlusStarted(turn: Turn, artifacts: seq<Artifact>, tool: string)
    requires Extracted(turn, artifacts).Some?
    ensures var truth, ops := Extracted(turn, artifacts).value, turn.receipt.value.operations.value;
      && truth.Count(tool, RejectedBeforeExecution) + truth.Count(tool, Started) <= |Scoped(ops, ScopeOf(tool))|
      && truth.Count(tool, Succeeded) + truth.Count(tool, Failed) <= |Scoped(ops, ScopeOf(tool))|
  {
    hide SumBy, Table, Where, Dedup, Scoped;
    CountsAreTallies(turn, artifacts, tool, RejectedBeforeExecution);
    CountsAreTallies(turn, artifacts, tool, Started);
    CountsAreTallies(turn, artifacts, tool, Succeeded);
    CountsAreTallies(turn, artifacts, tool, Failed);
    OutcomesExclude(turn.receipt.value.operations.value, ScopeOf(tool));
  }

  /** Extracted receipts meet the precondition of Receipts.MergedChildCount. */
  lemma {:induction false} ExtractedSealsItsChildren(turn: Turn, artifacts: seq<Artifact>)
    requires Extracted(turn, artifacts).Some?
    ensures SealsItsChildren(Extracted(turn, artifacts).value)
  {
    hide SumBy, Table, Where, Dedup;
    CountsAreTallies(turn, artifacts, SPAWN, ChildSealed);
  }

  // ------------------------------------------------------------------------------------------- several turns at once

  /** A sealed turn with the artifacts that were supplied for it. */
  datatype SealedTurn = SealedTurn(turn: Turn, artifacts: seq<Artifact>)

  function Operations(turn: Turn): seq<Operation> {
    if turn.receipt == None || turn.receipt.value.operations == None then [] else turn.receipt.value.operations.value
  }

  /** The operations of all turns that have a receipt, in order. */
  function AllOperations(turns: seq<SealedTurn>): seq<Operation> {
    if turns == [] then []
    else AllOperations(turns[..|turns| - 1]) + Operations(turns[|turns| - 1].turn)
  }

  /** The facts of each turn that has a receipt; a session's truth is their merge. */
  function Truths(turns: seq<SealedTurn>): seq<ReceiptTruth> {
    if turns == [] then []
    else
      var last := Extracted(turns[|turns| - 1].turn, turns[|turns| - 1].artifacts);
      Truths(turns[..|turns| - 1]) + if last == None then [] else [last.value]
  }

  /** The distinct children of each turn, one turn after another. */
  function ChildrenOf(turns: seq<SealedTurn>): seq<string> {
    if turns == [] then []
    else
      var last := Extracted(turns[|turns| - 1].turn, turns[|turns| - 1].artifacts);
      ChildrenOf(turns[..|turns| - 1]) + if last == None then [] else last.value.children
  }

  lemma {:induction false} WhereConcat(xs: seq<Operation>, ys: seq<Operation>, scope: Scope, c: Category)
    ensures Where(xs + ys, scope, c) == Where(xs, scope, c) + Where(ys, scope, c)
  {
    hide Has, InScope;
    if ys == [] {
      assert xs + ys == xs;
    } else {
      assert (xs + ys)[..|xs + ys| - 1] == xs + ys[..|ys| - 1];
      WhereConcat(xs, ys[..|ys| - 1], scope, c);
    }
  }

  /** The children that the counts of a tool speak of: all of them for the spawning tool and for "*". */
  function ChildrenInScope(children: seq<string>, tool: string): seq<string> {
    if tool == ALL_TOOLS || tool == SPAWN then children else []
  }

  /** What a merge of extracted receipts counts: the operations of all its turns, and the children of each turn. */
  function Tallied(ops: seq<Operation>, children: seq<string>, tool: string, c: Category): int {
    if c == ChildSealed then |ChildrenInScope(children, tool)| else |Where(ops, ScopeOf(tool), c)|
  }

  /** The counts of a merge are faithful too. */
  lemma {:induction false} MergedCountsAreTallies(turns: seq<SealedTurn>, tool: string, c: Category)
    requires IsLifecycle(c)
    ensures Merged(Truths(turns)).Count(tool, c) == Tallied(AllOperations(turns), ChildrenOf(turns), tool, c)
  {
    MergedCounts(Truths(turns), tool, c);
    TruthsAreTallies(turns, tool, c);
  }

  lemma {:induction false} TruthsAreTallies(turns: seq<SealedTurn>, tool: string, c: Category)
    requires IsLifecycle(c)
    ensures CountSum(Truths(turns), tool, c) == Tallied(AllOperations(turns), ChildrenOf(turns), tool, c)
  {
    hide SumBy, Where, Extracted;
    if turns == [] {
      WhereOfNothing(ScopeOf(tool), c);
    } else {
      var init, last := turns[..|turns| - 1], turns[|turns| - 1];
      TruthsAreTallies(init, tool, c);
      TurnAdds(last, tool, c);
      WhereConcat(AllOperations(init), Operations(last.turn), ScopeOf(tool), c);
      var truth := Extracted(last.turn, last.artifacts);
      if truth.Some? {
        CountSumSnoc(Truths(init), truth.value, tool, c);
      } else {
        assert Truths(turns) == Truths(init) && ChildrenOf(turns) == ChildrenOf(init);
        assert AllOperations(turns) == AllOperations(init);
      }
    }
  }

  lemma {:induction false} CountSumSnoc(values: seq<ReceiptTruth>, last: ReceiptTruth, tool: string, c: Category)
    requires IsLifecycle(c)
    ensures CountSum(values + [last], tool, c) == CountSum(values, tool, c) + last.Count(tool, c)
  {
    hide SumBy;
    assert (values + [last])[..|values|] == values;
  }

  lemma {:induction false} WhereOfNothing(scope: Scope, c: Category)
    ensures Where([], scope, c) == []
  {
  }

  /** One turn's contribution. */
  lemma {:induction false} TurnAdds(sealed: SealedTurn, tool: string, c: Category)
    requires IsLifecycle(c)
    ensures var truth := Extracted(sealed.turn, sealed.artifacts);
      if truth == None then Operations(sealed.turn) == []
      else truth.value.Count(tool, c) == Tallied(Operations(sealed.turn), truth.value.children, tool, c)
  {
    hide SumBy, Table, Where, Dedup;
    WhereOfNothing(ScopeOf(tool), c);
    if Extracted(sealed.turn, sealed.artifacts).Some? {
      CountsAreTallies(sealed.turn, sealed.artifacts, tool, c);
    }
  }

  /** The extraction loops: the rows operation by operation, then the receipt's own refs. */
  method ExtractReceiptTruth(turn: Turn, artifacts: seq<Artifact>) returns (r: Option<ReceiptTruth>)
    ensures r == Extracted(turn, artifacts)
  {
    hide Dedup, AddTo, Table, OperationRefs, ChildRefs;
    if turn.receipt == None || turn.receipt.value.operations == None {
      return None;
    }
    var receipt := turn.receipt.value;
    var table, children := ExtractOperations(receipt.operations.value);
    var own := ClassifyRefs(receipt.refs, artifacts);
    var ids := Dedup(children + own);
    if ids != [] {
      table := table[SPAWN := RowOf(table, SPAWN).(childSealed := |ids|)];
    }
    r := Some(ReceiptTruth([Or(receipt.turnId, Or(turn.id, "unknown"))], [Or(receipt.disposition, "unknown")], table, ids));
  }

  method ExtractOperations(ops: seq<Operation>) returns (table: map<string, LifecycleCounts>, children: seq<string>)
    ensures table == Table(ops) && children == OperationRefs(ops)
  {
    hide AddTo, Name, NonEmpty;
    table, children := map[], [];
    for i := 0 to |ops|
      invariant table == Table(ops[..i]) && children == OperationRefs(ops[..i])
    {
      assert ops[..i + 1][..i] == ops[..i];
      table := CountOperation(table, ops[i]);
      if Name(ops[i]) == SPAWN {
        children := children + NonEmpty(ops[i].refs);
      }
    }
    assert ops[..|ops|] == ops;
  }

  method CountOperation(table: map<string, LifecycleCounts>, op: Operation) returns (r: map<string, LifecycleCounts>)
    ensures r == AddTo(table, op)
  {
    hide Delta, Name;
    var name := Name(op);
    r := if name in table then table else table[name := ZERO];
    r := r[name := r[name].Plus(Delta(op))];
  }

  method ClassifyRefs(refs: seq<string>, artifacts: seq<Artifact>) returns (own: seq<string>)
    ensures own == ChildRefs(artifacts, refs)
  {
    var index: map<string, string> := map[];
    for i := 0 to |artifacts|
      invariant forall ref :: ref in index <==> KindOf(artifacts[..i], ref).Some?
      invariant forall ref :: ref in index ==> index[ref] == KindOf(artifacts[..i], ref).value
    {
      assert artifacts[..i + 1][..i] == artifacts[..i];
      if artifacts[i].id != "" {
        index := index[artifacts[i].id := artifacts[i].kind];
      }
    }
    assert artifacts[..|artifacts|] == artifacts;
    own := [];
    for i := 0 to |refs|
      invariant own == ChildRefs(artifacts, refs[..i])
    {
      assert refs[..i + 1][..i] == refs[..i];
      var ref := refs[i];
      if (ref in index && index[ref] == "subagent") || (ref !in index && StartsWith(ref, "subagent-")) {
        own := own + [ref];
      }
    }
    assert refs[..|refs|] == refs;
  }

  // ------------------------------------------------------------------------------------- what the receipt's words mean

  /** s is the lower-case word, in any case. */
  predicate IsWord(s: string, word: string) {
    |s| == |word| && forall i :: 0 <= i < |s| ==> SameLetter(s[i], word[i])
  }

  /** c is the letter w or its capital. */
  predicate SameLetter(c: char, w: char) {
    c == w || ('A' <= c <= 'Z' && c as int + 32 == w as int)
  }

  predicate IsLowerCase(word: string) {
    forall i :: 0 <= i < |word| ==> 'a' <= word[i] <= 'z'
  }

  lemma {:induction false} LowerIsWord(s: string, word: string)
    requires IsLowerCase(word)
    ensures Lower(s) == word <==> IsWord(s, word)
  {
    hide IsWord, SameLetter;
    WordStep(s, word);
    if s != "" && word != "" {
      LowerIsWord(s[1..], word[1..]);
      LowerLetter(s[0], word[0]);
      assert word == [word[0]] + word[1..];
    }
  }

  lemma {:induction false} LowerLetter(c: char, w: char)
    requires 'a' <= w <= 'z'
    ensures SameLetter(c, w) <==> w == if 'A' <= c <= 'Z' then c + ('a' - 'A') else c
  {
  }

  lemma {:induction false} WordStep(s: string, word: string)
    ensures s == "" || word == "" ==> (IsWord(s, word) <==> s == word)
    ensures s != "" && word != "" ==> (IsWord(s, word) <==> SameLetter(s[0], word[0]) && IsWord(s[1..], word[1..]))
  {
    hide SameLetter;
    if s != "" && word != "" {
      var t, w := s[1..], word[1..];
      assert forall i :: 0 <= i < |t| ==> t[i] == s[i + 1];
      assert forall i :: 0 <= i < |w| ==> w[i] == word[i + 1];
      if IsWord(t, w) {
        assert forall i :: 0 < i < |s| ==> s[i] == t[i - 1] && word[i] == w[i - 1];
      }
    }
  }

  /** An outcome is told by the disposition, or without one by the outcome status; what is rejected did not start. */
  lemma {:induction false} OutcomeMeans(op: Operation)
    ensures var said := if op.disposition != "" then op.disposition else op.outcome;
      var rejected := op.rejectedFlag || IsWord(said, "rejected");
      && (Has(op, Requested) <==> op.requested)
      && (Has(op, RejectedBeforeExecution) <==> rejected)
      && (Has(op, Started) <==> op.executionStarted && !rejected)
      && (Has(op, Succeeded) <==> IsWord(said, "succeeded"))
      && (Has(op, Failed) <==> IsWord(said, "failed"))
  {
    var said := if op.disposition != "" then op.disposition else op.outcome;
    LowerIsWord(said, "rejected");
    LowerIsWord(said, "succeeded");
    LowerIsWord(said, "failed");
    hide Lower, IsWord;
  }

  /** The last artifact with that id is of the kind. */
  predicate LastIs(artifacts: seq<Artifact>, ref: string, kind: string) {
    exists i :: 0 <= i < |artifacts| && artifacts[i] == Artifact(ref, kind)
      && forall j :: i < j < |artifacts| ==> artifacts[j].id != ref
  }

  predicate Unlisted(artifacts: seq<Artifact>, ref: string) {
    forall i :: 0 <= i < |artifacts| ==> artifacts[i].id != ref
  }

  lemma {:induction false} KindMeans(artifacts: seq<Artifact>, ref: string, kind: string)
    requires ref != ""
    ensures KindOf(artifacts, ref) == Some(kind) <==> LastIs(artifacts, ref, kind)
    ensures KindOf(artifacts, ref) == None <==> Unlisted(artifacts, ref)
  {
    hide LastIs, Unlisted;
    ListedStep(artifacts, ref, kind);
    if artifacts != [] {
      KindMeans(artifacts[..|artifacts| - 1], ref, kind);
    }
  }

  lemma {:induction false} ListedStep(artifacts: seq<Artifact>, ref: string, kind: string)
    ensures artifacts == [] ==> !LastIs(artifacts, ref, kind) && Unlisted(artifacts, ref)
    ensures artifacts != [] ==>
      var init, last := artifacts[..|artifacts| - 1], artifacts[|artifacts| - 1];
      && (LastIs(artifacts, ref, kind) <==> if last.id == ref then last.kind == kind else LastIs(init, ref, kind))
      && (Unlisted(artifacts, ref) <==> last.id != ref && Unlisted(init, ref))
  {
    if artifacts != [] {
      var init, last := artifacts[..|artifacts| - 1], artifacts[|artifacts| - 1];
      if LastIs(init, ref, kind) {
        var i :| 0 <= i < |init| && init[i] == Artifact(ref, kind) && forall j :: i < j < |init| ==> init[j].id != ref;
        assert artifacts[i] == Artifact(ref, kind);
      }
      if LastIs(artifacts, ref, kind) {
        var i :| 0 <= i < |artifacts| && artifacts[i] == Artifact(ref, kind)
          && forall j :: i < j < |artifacts| ==> artifacts[j].id != ref;
        assert i < |init| ==> init[i] == Artifact(ref, kind);
      }
      assert artifacts[|init|] == last;
    }
  }

  /** Some spawn operation is linked to the reference. */
  predicate Spawned(ops: seq<Operation>, ref: string) {
    exists op :: op in ops && op.name == "spawn_agent" && ref in op.refs && ref != ""
  }

  /**
   * The children of a receipt: what its spawn operations are linked to, and those of its own references whose artifact is
   * a subagent or, if none was supplied, whose id says so.
   */
  lemma {:induction false} ChildrenMean(ops: seq<Operation>, refs: seq<string>, artifacts: seq<Artifact>, ref: string)
    ensures ref in ChildIds(ops, refs, artifacts) <==>
      || Spawned(ops, ref)
      || (ref in refs && (LastIs(artifacts, ref, "subagent") || (Unlisted(artifacts, ref) && "subagent-" <= ref)) && ref != "")
    ensures Distinct(ChildIds(ops, refs, artifacts))
  {
    hide Dedup, OperationRefs, ChildRefs, Spawned, LastIs, Unlisted, KindOf;
    SpawnedMeans(ops, ref);
    OwnRefs(artifacts, refs, ref);
    if ref != "" {
      KindMeans(artifacts, ref, "subagent");
    } else {
      NoChildWithoutId(artifacts);
    }
  }

  lemma {:induction false} NoChildWithoutId(artifacts: seq<Artifact>)
    ensures !IsChildRef(artifacts, "")
  {
  }

  lemma {:induction false} SpawnedMeans(ops: seq<Operation>, ref: string)
    ensures ref in OperationRefs(ops) <==> Spawned(ops, ref)
  {
    if ops != [] {
      var init, last := ops[..|ops| - 1], ops[|ops| - 1];
      assert ops == init + [last];
      SpawnedMeans(init, ref);
      NonEmptyMeans(last.refs, ref);
      SpawnerName(last);
      hide NonEmpty, Name;
    }
  }

  lemma {:induction false} SpawnerName(op: Operation)
    ensures Name(op) == SPAWN <==> op.name == "spawn_agent"
  {
    assert |"unknown"| != |"spawn_agent"|;
  }

  lemma {:induction false} NonEmptyMeans(refs: seq<string>, ref: string)
    ensures ref in NonEmpty(refs) <==> ref in refs && ref != ""
  {
    if refs != [] {
      NonEmptyMeans(refs[..|refs| - 1], ref);
      assert refs == refs[..|refs| - 1] + [refs[|refs| - 1]];
    }
  }

  lemma {:induction false} OwnRefs(artifacts: seq<Artifact>, refs: seq<string>, ref: string)
    ensures ref in ChildRefs(artifacts, refs) <==> ref in refs && IsChildRef(artifacts, ref)
  {
    hide IsChildRef;
    if refs != [] {
      OwnRefs(artifacts, refs[..|refs| - 1], ref);
      assert refs == refs[..|refs| - 1] + [refs[|refs| - 1]];
    }
  }

  /** The id a receipt goes by, and its disposition. */
  function IdOf(turn: Turn): string
    requires turn.receipt.Some?
  {
    if turn.receipt.value.turnId != "" then turn.receipt.value.turnId else if turn.id != "" then turn.id else "unknown"
  }

  function DispositionOf(turn: Turn): string
    requires turn.receipt.Some?
  {
    if turn.receipt.value.disposition != "" then turn.receipt.value.disposition else "unknown"
  }

  /** The turns that have a receipt with a list of operations. */
  function Sealed(turns: seq<SealedTurn>): (r: seq<SealedTurn>)
    ensures forall i :: 0 <= i < |r| ==> r[i].turn.receipt.Some?
  {
    if turns == [] then []
    else
      (if turns[0].turn.receipt.Some? && turns[0].turn.receipt.value.operations.Some? then [turns[0]] else [])
      + Sealed(turns[1..])
  }

  /** A session's truth lists the ids and dispositions of its receipts, in the order of the turns. */
  lemma {:induction false} SessionIds(turns: seq<SealedTurn>, i: nat)
    requires i < |Sealed(turns)|
    ensures var truth := Merged(Truths(turns));
      && |truth.turnIds| == |truth.dispositions| == |Sealed(turns)|
      && truth.turnIds[i] == IdOf(Sealed(turns)[i].turn)
      && truth.dispositions[i] == DispositionOf(Sealed(turns)[i].turn)
  {
    hide Extracted, Dedup, AddTables;
    var init, last := turns[..|turns| - 1], turns[|turns| - 1];
    assert turns == init + [last];
    SealedConcat(init, [last]);
    SealedOne(last);
    ExtractedIds(last);
    MergedSnoc(turns);
    SessionSize(init);
    if i < |Sealed(init)| {
      SessionIds(init, i);
    }
  }

  lemma {:induction false} SealedConcat(xs: seq<SealedTurn>, ys: seq<SealedTurn>)
    ensures Sealed(xs + ys) == Sealed(xs) + Sealed(ys)
  {
    if xs == [] {
      assert xs + ys == ys;
    } else {
      assert (xs + ys)[1..] == xs[1..] + ys;
      SealedConcat(xs[1..], ys);
    }
  }

  lemma {:induction false} SealedOne(s: SealedTurn)
    ensures Sealed([s]) == if s.turn.receipt.Some? && s.turn.receipt.value.operations.Some? then [s] else []
  {
    assert [s][1..] == [];
  }

  lemma {:induction false} ExtractedIds(s: SealedTurn)
    ensures var truth := Extracted(s.turn, s.artifacts);
      && (truth.Some? <==> s.turn.receipt.Some? && s.turn.receipt.value.operations.Some?)
      && (truth.Some? ==> truth.value.turnIds == [IdOf(s.turn)] && truth.value.dispositions == [DispositionOf(s.turn)])
  {
    hide Table, Seal, ChildIds;
  }

  lemma {:induction false} MergedSnoc(turns: seq<SealedTurn>)
    requires turns != []
    ensures var init, last := turns[..|turns| - 1], turns[|turns| - 1];
      var truth := Extracted(last.turn, last.artifacts);
      Merged(Truths(turns)) == if truth == None then Merged(Truths(init)) else Join2(Merged(Truths(init)), truth.value)
  {
    hide Extracted, Join2;
    var init, last := turns[..|turns| - 1], turns[|turns| - 1];
    var truth := Extracted(last.turn, last.artifacts);
    if truth.Some? {
      assert (Truths(init) + [truth.value])[..|Truths(init)|] == Truths(init);
    } else {
      assert Truths(init) + [] == Truths(init);
    }
  }

  lemma {:induction false} SessionSize(turns: seq<SealedTurn>)
    ensures |Merged(Truths(turns)).turnIds| == |Merged(Truths(turns)).dispositions| == |Sealed(turns)|
  {
    hide Extracted, Dedup, AddTables;
    if turns != [] {
      var init, last := turns[..|turns| - 1], turns[|turns| - 1];
      assert turns == init + [last];
      SessionSize(init);
      SealedConcat(init, [last]);
      SealedOne(last);
      ExtractedIds(last);
      MergedSnoc(turns);
    }
  }

  /** How many operations a tool has in the category; "*" stands for all tools, and an operation without a name is unknown. */
  function Number(ops: seq<Operation>, tool: string, c: Category): nat {
    if ops == [] then 0
    else
      var last := ops[|ops| - 1];
      Number(ops[..|ops| - 1], tool, c)
      + if (tool == "*" || tool == (if last.name == "" then "unknown" else last.name)) && Has(last, c) then 1 else 0
  }

  lemma {:induction false} WhereNumber(ops: seq<Operation>, tool: string, c: Category)
    ensures |Where(ops, ScopeOf(tool), c)| == Number(ops, tool, c)
  {
    hide Has;
    if ops != [] {
      WhereNumber(ops[..|ops| - 1], tool, c);
    }
  }

  /** What a session's truth counts, tool by tool and for all tools together. */
  lemma {:induction false} SessionCounts(turns: seq<SealedTurn>, tool: string, c: Category)
    requires IsLifecycle(c)
    ensures Merged(Truths(turns)).Count(tool, c) ==
      if c != ChildSealed then Number(AllOperations(turns), tool, c)
      else if tool == "*" || tool == "spawn_agent" then |ChildrenOf(turns)| else 0
  {
    hide Number, Where, ChildrenOf, AllOperations, Truths, Merged;
    MergedCountsAreTallies(turns, tool, c);
    WhereNumber(AllOperations(turns), tool, c);
  }

  /** A receipt has a row for every tool with an operation, and one for the spawning tool if there are children. */
  lemma {:induction false} ExtractedRows(turn: Turn, artifacts: seq<Artifact>, tool: string)
    requires Extracted(turn, artifacts).Some?
    ensures var truth := Extracted(turn, artifacts).value;
      tool in truth.byTool <==>
        (exists op :: op in Operations(turn) && Name(op) == tool) || (tool == "spawn_agent" && truth.children != [])
  {
    hide Table, ChildIds, Name;
    TableRows(Operations(turn), tool);
  }

  lemma {:induction false} TableRows(ops: seq<Operation>, tool: string)
    ensures tool in Table(ops) <==> exists op :: op in ops && Name(op) == tool
  {
    hide Delta, Name;
    if ops != [] {
      var init, last := ops[..|ops| - 1], ops[|ops| - 1];
      assert ops == init + [last];
      TableRows(init, tool);
    }
  }
}
