/**
 * What the flag replay's registry means, told from the list of operations alone: each flag is followed back through its
 * renames to where it began (benchmarks/multiturn_coding/_gen_long50.py, `gen_s7`).
 */
module FlagHistory {
  import opened Names
  import opened FlagReplay
  import Sums

  predicate Is(op: Op, kind: Kind, n: string) {
    op.kind == kind && op.name == n
  }

  /** The name that a flag had before the operation. */
  function Before(op: Op, n: string): string {
    if op.kind == Rename && n == Renamed(op.name) then op.name else n
  }

  /** The flag is in the registry after the operations. */
  predicate Live(ops: seq<Op>, n: string) {
    if ops == [] then n in {"dark-mode", "new-checkout", "beta-search"}
    else
      var init, last := ops[..|ops| - 1], ops[|ops| - 1];
      if Is(last, Add, n) || (last.kind == Rename && n == Renamed(last.name)) then true
      else if Is(last, Retire, n) || Is(last, Rename, n) then false
      else Live(init, n)
  }

  predicate Retired(ops: seq<Op>, n: string) {
    exists i :: 0 <= i < |ops| && Is(ops[i], Retire, n)
  }

  /** The default the flag began with: off, except for one of the three it starts with. */
  predicate StartsOn(ops: seq<Op>, n: string) {
    if ops == [] then n == "beta-search"
    else
      var init, last := ops[..|ops| - 1], ops[|ops| - 1];
      if Is(last, Add, n) then false else StartsOn(init, Before(last, n))
  }

  /** How often it has been flipped, under whatever name. */
  function Flips(ops: seq<Op>, n: string): nat {
    if ops == [] then 0
    else
      var init, last := ops[..|ops| - 1], ops[|ops| - 1];
      if Is(last, Add, n) then 0 else Flips(init, Before(last, n)) + if Is(last, Flip, n) then 1 else 0
  }

  /** The team of its last change of owner, or the one it began with. */
  function OwnerOf(ops: seq<Op>, n: string): Team {
    if ops == [] then (if n == "dark-mode" then Web else if n == "new-checkout" then Payments else Search)
    else
      var init, last := ops[..|ops| - 1], ops[|ops| - 1];
      if Is(last, Add, n) || Is(last, Chown, n) then last.owner else OwnerOf(init, Before(last, n))
  }

  /** The turn it was added in; 0 for the three it starts with. */
  function Born(ops: seq<Op>, n: string): nat {
    if ops == [] then 0
    else
      var init, last := ops[..|ops| - 1], ops[|ops| - 1];
      if Is(last, Add, n) then |ops| else Born(init, Before(last, n))
  }

  /** The entry that the operations amount to. */
  function Told(ops: seq<Op>, n: string): Flag {
    Flag(StartsOn(ops, n) != (Flips(ops, n) % 2 == 1), OwnerOf(ops, n))
  }

  /** What an operation makes of the entry it is about. */
  function Effect(op: Op, was: Flag): Flag {
    match op.kind
    case Add => Flag(false, op.owner)
    case Flip => was.(enabled := !was.enabled)
    case Chown => was.(owner := op.owner)
    case _ => was
  }

  // ----- one operation more -----

  /** An operation that is not about a flag leaves what is told of it. */
  lemma {:induction false} Untouched(ops: seq<Op>, op: Op, n: string)
    requires op.name != n && !(op.kind == Rename && n == Renamed(op.name))
    ensures Told(ops + [op], n) == Told(ops, n) && Born(ops + [op], n) == Born(ops, n)
    ensures Live(ops + [op], n) <==> Live(ops, n)
  {
    assert (ops + [op])[..|ops|] == ops;
  }

  /** What the operation does to the flag it is about; a rename carries everything over to the new name. */
  lemma {:induction false} Touched(ops: seq<Op>, op: Op)
    requires op.kind == Rename ==> Renamed(op.name) != op.name
    ensures var after, was, n := ops + [op], Told(ops, op.name), if op.kind == Rename then Renamed(op.name) else op.name;
      && (Live(after, n) <==> op.kind != Retire && (op.kind in {Add, Rename} || Live(ops, n)))
      && (op.kind == Rename ==> !Live(after, op.name))
      && Born(after, n) == (if op.kind == Add then |after| else Born(ops, op.name))
      && Told(after, n) == Effect(op, was)
  {
    assert (ops + [op])[..|ops|] == ops;
    hide Renamed;
  }

  lemma {:induction false} RenamedDiffers(s: State, n: string)
    requires FamiliesApart(s) && n in s.flags
    ensures Renamed(n) != n
  {
    hide Renamed, StemOf, Named;
    RenamedStaysInFamily(n);
  }

  lemma {:induction false} RetiredSnoc(ops: seq<Op>, op: Op, n: string)
    ensures Retired(ops + [op], n) <==> Retired(ops, n) || Is(op, Retire, n)
  {
    hide Is;
    var after := ops + [op];
    assert after[|ops|] == op;
    if Retired(ops, n) {
      var i :| 0 <= i < |ops| && Is(ops[i], Retire, n);
      assert Is(after[i], Retire, n);
    }
  }

  ghost predicate KeysTold(s: State, ops: seq<Op>) {
    && (forall n :: n in s.flags <==> Live(ops, n))
    && (forall n :: n in s.retired <==> Retired(ops, n))
  }

  ghost predicate FlagsTold(s: State, ops: seq<Op>) {
    s.born.Keys == s.flags.Keys && forall n :: n in s.flags ==> s.flags[n] == Told(ops, n) && s.born[n] == Born(ops, n)
  }

  ghost predicate HistoryTold(s: State, ops: seq<Op>) {
    forall n :: n in s.retired ==> s.retired[n] == Told(ops, n)
  }

  /** The state is what the operations tell. */
  ghost predicate IsTold(s: State, ops: seq<Op>) {
    KeysTold(s, ops) && FlagsTold(s, ops) && HistoryTold(s, ops)
  }

  /** The name an operation leaves its flag under. */
  function After(op: Op): string {
    if op.kind == Rename then Renamed(op.name) else op.name
  }

  /** What the invariant says about the names an operation touches. */
  lemma {:induction false} NamesApart(s: State, turn: nat, w0: int, op: Op)
    requires Inv(s, turn, w0) && Choosable(s, turn, op)
    ensures op.kind == Rename ==> Renamed(op.name) != op.name
    ensures s.flags.Keys !! s.retired.Keys
    ensures op.kind == Add ==> op.name !in s.flags && op.name !in s.retired
    ensures op.kind != Add ==> op.name in s.flags && op.name !in s.retired
    ensures op.kind == Rename ==> Renamed(op.name) !in s.flags && Renamed(op.name) !in s.retired
  {
    ChoosableIsLive(s, turn, op);
    hide Choosable, Renamed, StemOf, Named, BirthsOk, SizesOk;
    if op.kind == Add {
      AddKeepsFamilies(s, turn, op.owner);
    } else if op.kind == Rename {
      RenamedDiffers(s, op.name);
      ApartAfterRename(s.flags.Keys, s.retired.Keys, s.words, op.name);
    }
  }

  /** What Step does to the flag it is about... */
  lemma {:induction false} StepAt(s: State, turn: nat, w0: int, op: Op)
    requires Inv(s, turn, w0) && Choosable(s, turn, op)
    ensures op.kind != Add ==> op.name in s.flags && op.name in s.born
    ensures var t, n := Step(s, turn, op), After(op);
      && (op.kind != Retire ==> (
          && n in t.flags && n in t.born && t.retired == s.retired
          && t.born[n] == (if op.kind == Add then turn else s.born[op.name])
          && t.flags[n] == Effect(op, if op.name in s.flags then s.flags[op.name] else Flag(false, op.owner))))
      && (op.kind == Retire ==> n !in t.flags && t.retired == s.retired[n := s.flags[n]])
      && (op.kind == Rename ==> op.name !in t.flags)
  {
    NamesApart(s, turn, w0, op);
    ChoosableIsLive(s, turn, op);
    hide Choosable, Renamed, Inv;
    match op.kind
    case Add =>
    case Rename =>
    case Retire =>
    case Flip | Chown =>
  }

  /** ... and to any other. */
  lemma {:induction false} StepElsewhere(s: State, turn: nat, op: Op, m: string)
    requires Choosable(s, turn, op) && m != op.name && m != After(op)
    ensures var t := Step(s, turn, op);
      && (m in t.flags <==> m in s.flags) && (m in s.flags ==> t.flags[m] == s.flags[m])
      && (m in t.born <==> m in s.born) && (m in s.born ==> t.born[m] == s.born[m])
      && (m in t.retired <==> m in s.retired) && (m in s.retired ==> t.retired[m] == s.retired[m])
  {
    ChoosableIsLive(s, turn, op);
    hide Choosable, Renamed;
  }

  lemma {:induction false} StepTold(s: State, turn: nat, w0: int, ops: seq<Op>, op: Op)
    requires Inv(s, turn, w0) && Choosable(s, turn, op)
    requires IsTold(s, ops) && turn == |ops| + 1
    ensures IsTold(Step(s, turn, op), ops + [op])
  {
    hide *;
    StepKeysTold(s, turn, w0, ops, op);
    StepFlagsTold(s, turn, w0, ops, op);
    ToldParts(s, ops);
    ToldParts(Step(s, turn, op), ops + [op]);
  }

  lemma {:induction false} ToldParts(s: State, ops: seq<Op>)
    ensures IsTold(s, ops) <==> KeysTold(s, ops) && FlagsTold(s, ops) && HistoryTold(s, ops)
  {
  }

  lemma {:induction false} StepKeysTold(s: State, turn: nat, w0: int, ops: seq<Op>, op: Op)
    requires Inv(s, turn, w0) && Choosable(s, turn, op)
    requires IsTold(s, ops) && turn == |ops| + 1
    ensures KeysTold(Step(s, turn, op), ops + [op])
  {
    hide Choosable, Inv, Step, IsTold, Live, Retired;
    forall n
      ensures n in Step(s, turn, op).retired <==> Retired(ops + [op], n)
      ensures n in Step(s, turn, op).flags <==> Live(ops + [op], n)
    {
      KeyTold(s, turn, w0, ops, op, n);
    }
  }

  lemma {:induction false} KeyTold(s: State, turn: nat, w0: int, ops: seq<Op>, op: Op, n: string)
    requires Inv(s, turn, w0) && Choosable(s, turn, op)
    requires IsTold(s, ops) && turn == |ops| + 1
    ensures n in Step(s, turn, op).retired <==> Retired(ops + [op], n)
    ensures n in Step(s, turn, op).flags <==> Live(ops + [op], n)
  {
    hide Choosable, Inv, Step, Renamed, Told, Live, Born, Retired, FlagsTold, HistoryTold, Effect;
    RetiredSnoc(ops, op, n);
    if n != op.name && n != After(op) {
      Untouched(ops, op, n);
      StepElsewhere(s, turn, op, n);
    } else {
      StepAt(s, turn, w0, op);
      NamesApart(s, turn, w0, op);
      Touched(ops, op);
    }
  }

  lemma {:induction false} StepFlagsTold(s: State, turn: nat, w0: int, ops: seq<Op>, op: Op)
    requires Inv(s, turn, w0) && Choosable(s, turn, op)
    requires IsTold(s, ops) && turn == |ops| + 1
    ensures FlagsTold(Step(s, turn, op), ops + [op]) && HistoryTold(Step(s, turn, op), ops + [op])
  {
    hide Choosable, Inv, Step, IsTold, Told, Born;
    StepBirths(s, turn, w0, op);
    forall n
      ensures var t := Step(s, turn, op);
        && (n in t.flags ==> n in t.born && t.flags[n] == Told(ops + [op], n) && t.born[n] == Born(ops + [op], n))
        && (n in t.retired ==> t.retired[n] == Told(ops + [op], n))
    {
      FlagTold(s, turn, w0, ops, op, n);
    }
  }

  lemma {:induction false} FlagTold(s: State, turn: nat, w0: int, ops: seq<Op>, op: Op, n: string)
    requires Inv(s, turn, w0) && Choosable(s, turn, op)
    requires IsTold(s, ops) && turn == |ops| + 1
    ensures var t := Step(s, turn, op);
      && (n in t.flags ==> n in t.born && t.flags[n] == Told(ops + [op], n) && t.born[n] == Born(ops + [op], n))
      && (n in t.retired ==> t.retired[n] == Told(ops + [op], n))
  {
    hide Choosable, Inv, Step, Renamed, Told, Live, Born, Retired, KeysTold;
    StepBirths(s, turn, w0, op);
    if n != op.name && n != After(op) {
      Untouched(ops, op, n);
      StepElsewhere(s, turn, op, n);
    } else {
      StepAt(s, turn, w0, op);
      NamesApart(s, turn, w0, op);
      Touched(ops, op);
    }
  }

  lemma {:induction false} StepBirths(s: State, turn: nat, w0: int, op: Op)
    requires Inv(s, turn, w0) && Choosable(s, turn, op)
    ensures Step(s, turn, op).born.Keys == Step(s, turn, op).flags.Keys
  {
    StepKeepsInv(s, turn, w0, op);
    hide Choosable, Step, FamiliesApart, SizesOk;
  }

  // ----- whole runs -----

  lemma {:induction false} StartTold(words: seq<string>)
    ensures IsTold(Start(words), [])
  {
    forall n
      ensures n in SEED_FLAGS <==> Live([], n)
      ensures n in SEED_FLAGS ==> SEED_FLAGS[n] == Told([], n)
    {
      assert |"dark-mode"| == 9 && |"new-checkout"| == 12 && |"beta-search"| == 11;
    }
  }

  /** After the run ops the operation can be chosen. */
  ghost predicate Continues(s: State, turn: nat, ops: seq<Op>, op: Op) {
    Run(s, turn, ops) && Choosable(Exec(s, turn, ops), turn + |ops|, op)
  }

  /** A run is a shorter run and one choice more. */
  lemma {:induction false} RunInit(s: State, turn: nat, ops: seq<Op>)
    requires ops != []
    ensures Run(s, turn, ops) <==> Continues(s, turn, ops[..|ops| - 1], ops[|ops| - 1])
    decreases |ops|
  {
    hide Choosable, Step;
    var init, last := ops[..|ops| - 1], ops[|ops| - 1];
    if |ops| > 1 && Choosable(s, turn, ops[0]) {
      assert ops[1..][..|ops[1..]| - 1] == init[1..] && ops[1..][|ops[1..]| - 1] == last;
      RunInit(Step(s, turn, ops[0]), turn + 1, ops[1..]);
    }
  }

  lemma {:induction false} ExecLast(s: State, turn: nat, ops: seq<Op>, op: Op)
    requires Continues(s, turn, ops, op)
    ensures Run(s, turn, ops + [op])
    ensures Exec(s, turn, ops + [op]) == Step(Exec(s, turn, ops), turn + |ops|, op)
  {
    RunSnoc(s, turn, ops, op);
  }

  /**
   * On every run the registry is what the operations tell: which flags are live and which retired, and for each of them
   * the default it began with, turned as often as it was flipped, and its last owner.
   */
  lemma {:induction false} RunIsTold(words: seq<string>, ops: seq<Op>)
    requires Inv(Start(words), 1, |words|) && Run(Start(words), 1, ops)
    ensures IsTold(Exec(Start(words), 1, ops), ops)
  {
    hide Inv, Choosable, Step, IsTold, Start;
    if ops == [] {
      StartTold(words);
    } else {
      var init, last := ops[..|ops| - 1], ops[|ops| - 1];
      RunInit(Start(words), 1, ops);
      assert init + [last] == ops;
      ExecLast(Start(words), 1, init, last);
      RunIsTold(words, init);
      RunKeepsInv(Start(words), 1, |words|, init);
      StepTold(Exec(Start(words), 1, init), 1 + |init|, |words|, init, last);
    }
  }

  // ----- which runs there are -----

  /** How many of the operations are of the kind. */
  function Count(ops: seq<Op>, kind: Kind): nat {
    if ops == [] then 0 else Count(ops[..|ops| - 1], kind) + if ops[|ops| - 1].kind == kind then 1 else 0
  }

  /** The flag is live and was added at least `age` turns before the turn that follows the operations. */
  predicate Aged(ops: seq<Op>, n: string, age: nat) {
    Live(ops, n) && |ops| + 1 - Born(ops, n) >= age
  }

  /**
   * What may follow the operations: words are added from the end of the list, only adds come in the first six turns, and
   * only flips and changes of owner once the words are used up. Flags are touched when they are three turns old, and
   * retired when they are five turns old and more than six are live.
   */
  predicate Allowed(words: seq<string>, ops: seq<Op>, op: Op) {
    var left := |words| - Count(ops, Add);
    match op.kind
    case Add => 0 < left <= |words| && op.name == words[left - 1]
    case Flip => (left == 0 || |ops| >= 6) && Aged(ops, op.name, 3)
    case Chown => (left == 0 || |ops| >= 6) && Aged(ops, op.name, 3) && op.owner != OwnerOf(ops, op.name)
    case Rename => left != 0 && |ops| >= 6 && Aged(ops, op.name, 3)
    case Retire => left != 0 && |ops| >= 6 && Aged(ops, op.name, 5) && 3 + Count(ops, Add) - Count(ops, Retire) > 6
  }

  /** The sizes of the state, from the operations. */
  ghost predicate Sized(s: State, words: seq<string>, ops: seq<Op>) {
    && Count(ops, Add) <= |words|
    && s.words == words[..|words| - Count(ops, Add)]
    && |s.retired| == Count(ops, Retire)
    && |s.flags| + |s.retired| == 3 + Count(ops, Add)
  }

  lemma {:induction false} StepSized(s: State, turn: nat, words: seq<string>, ops: seq<Op>, op: Op)
    requires Inv(s, turn, |words|) && Choosable(s, turn, op) && Sized(s, words, ops)
    ensures Sized(Step(s, turn, op), words, ops + [op])
  {
    hide Inv, Choosable, Step;
    assert (ops + [op])[..|ops|] == ops;
    StepKeepsInv(s, turn, |words|, op);
    SizesFromInv(s, turn, |words|);
    SizesFromInv(Step(s, turn, op), turn + 1, |words|);
    StepWordsAre(s, turn, op);
    StepRetiresOne(s, turn, |words|, op);
  }

  lemma {:induction false} StepRetiresOne(s: State, turn: nat, w0: int, op: Op)
    requires Inv(s, turn, w0) && Choosable(s, turn, op)
    ensures |Step(s, turn, op).retired| == |s.retired| + if op.kind == Retire then 1 else 0
  {
    hide Inv, Choosable, Step;
    NamesApart(s, turn, w0, op);
    StepRetires(s, turn, op);
    if op.kind == Retire {
      Sums.SizeAfterInsert(s.retired, op.name, s.flags[op.name]);
    }
  }

  lemma {:induction false} SizesFromInv(s: State, turn: int, w0: int)
    requires Inv(s, turn, w0)
    ensures |s.flags| + |s.retired| == 3 + (w0 - |s.words|)
  {
    hide FamiliesApart, BirthsOk;
  }

  lemma {:induction false} StepWordsAre(s: State, turn: nat, op: Op)
    requires Choosable(s, turn, op)
    ensures op.kind == Add ==> s.words != []
    ensures Step(s, turn, op).words == if op.kind == Add then s.words[..|s.words| - 1] else s.words
  {
    ChoosableIsLive(s, turn, op);
    hide Choosable, Renamed;
  }

  /** In a state that the operations tell, the choices are the allowed ones. */
  lemma {:induction false} ChoicesAreAllowed(s: State, words: seq<string>, ops: seq<Op>, op: Op)
    requires IsTold(s, ops) && Sized(s, words, ops)
    ensures Choosable(s, |ops| + 1, op) <==> Allowed(words, ops, op)
  {
    AgedMeans(s, ops, op.name, 3);
    AgedMeans(s, ops, op.name, 5);
    OwnersMean(s, ops, op);
    OlderIsAged(ops, op.name);
    OfferedKinds(s, |ops| + 1, op.kind);
    hide Live, Retired, Told, Born, OwnerOf, IsTold, AliveOlder, Aged, Owners, Offered;
    assert op.name in AliveOlder(s, |ops| + 1, 3) ==> AliveOlder(s, |ops| + 1, 3) != {};
  }

  lemma {:induction false} OfferedKinds(s: State, turn: nat, kind: Kind)
    ensures kind in Offered(s, turn) <==> match kind
      case Add => s.words != []
      case Flip | Chown => s.words == [] || (turn > 6 && AliveOlder(s, turn, 3) != {})
      case Rename => s.words != [] && turn > 6 && AliveOlder(s, turn, 3) != {}
      case Retire => s.words != [] && turn > 6 && AliveOlder(s, turn, 3) != {} && |s.flags| > 6
  {
    hide AliveOlder;
  }

  lemma {:induction false} OlderIsAged(ops: seq<Op>, n: string)
    ensures Aged(ops, n, 5) ==> Aged(ops, n, 3)
    ensures Aged(ops, n, 3) ==> Live(ops, n)
  {
  }

  lemma {:induction false} AgedMeans(s: State, ops: seq<Op>, n: string, age: nat)
    requires IsTold(s, ops)
    ensures n in AliveOlder(s, |ops| + 1, age) <==> Aged(ops, n, age)
  {
    hide Live, Retired, Told, Born;
  }

  lemma {:induction false} OwnersMean(s: State, ops: seq<Op>, op: Op)
    requires IsTold(s, ops)
    ensures op.owner in Owners(s, op.kind, op.name) <==>
      (op.kind == Chown && Live(ops, op.name) ==> op.owner != OwnerOf(ops, op.name))
  {
    hide Live, Retired, Born, OwnerOf, Flips, StartsOn;
    EveryTeam(op.owner);
  }

  lemma {:induction false} EveryTeam(t: Team)
    ensures t in TEAMS
  {
  }

  /** The runs of the replay are exactly the lists of operations each of which is allowed after those before it. */
  lemma {:induction false} RunsAreAllowed(words: seq<string>, ops: seq<Op>)
    requires Inv(Start(words), 1, |words|)
    ensures Run(Start(words), 1, ops) <==> forall i :: 0 <= i < |ops| ==> Allowed(words, ops[..i], ops[i])
    ensures Run(Start(words), 1, ops) ==> Sized(Exec(Start(words), 1, ops), words, ops)
  {
    hide Inv, Choosable, Step, IsTold, Start, Allowed, Sized;
    if ops == [] {
      StartSized(words);
    } else {
      var init, last := ops[..|ops| - 1], ops[|ops| - 1];
      assert init + [last] == ops;
      RunInit(Start(words), 1, ops);
      RunsAreAllowed(words, init);
      assert forall i :: 0 <= i < |init| ==> ops[..i] == init[..i] && ops[i] == init[i];
      if Run(Start(words), 1, init) {
        var s := Exec(Start(words), 1, init);
        RunIsTold(words, init);
        ChoicesAreAllowed(s, words, init, last);
        if Choosable(s, |init| + 1, last) {
          ExecLast(Start(words), 1, init, last);
          RunKeepsInv(Start(words), 1, |words|, init);
          StepSized(s, |init| + 1, words, init, last);
        }
      }
    }
  }

  lemma {:induction false} StartSized(words: seq<string>)
    ensures Sized(Start(words), words, [])
  {
    assert |SEED_FLAGS| == 3;
    assert words[..|words|] == words;
  }
}
