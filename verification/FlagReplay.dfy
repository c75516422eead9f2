/** The s7 generator (benchmarks/multiturn_coding/_gen_long50.py, `gen_s7`): a flag registry driven by random choices. */
module FlagReplay {
  import opened Sums
  import opened Names
  import opened Births

  datatype Team = Platform | Payments | Web | Search | Infra | Growth | Mobile | Data

  datatype Flag = Flag(enabled: bool, owner: Team)

  /** The replay's local variables: the registry, its history, birth turns and the unused seed words. */
  datatype State = State(flags: map<string, Flag>, retired: map<string, Flag>, born: map<string, nat>, words: seq<string>)

  const TEAMS: set<Team> := {Platform, Payments, Web, Search, Infra, Growth, Mobile, Data}

  const SEED_FLAGS: map<string, Flag> :=
    map["dark-mode" := Flag(false, Web),
        "new-checkout" := Flag(false, Payments),
        "beta-search" := Flag(true, Search)]

  function Start(words: seq<string>): State {
    State(SEED_FLAGS, map[], map n | n in SEED_FLAGS :: 0, words)
  }

  // ----- what one turn may choose -----

  datatype Kind = Add | Flip | Rename | Chown | Retire

  /** One turn's operation: the flag it is about and the team (drawn only for an add or a change of owner). */
  datatype Op = Op(kind: Kind, name: string, owner: Team)

  /** The live flags that are at least `age` turns old. */
  function AliveOlder(s: State, turn: int, age: int): set<string> {
    OlderThan(s.flags.Keys, s.born, turn, age)
  }

  /** The list the kind of operation is drawn from. */
  function Offered(s: State, turn: int): seq<Kind> {
    if s.words == [] then [Flip, Chown]
    else if turn <= 6 || AliveOlder(s, turn, 3) == {} then [Add]
    else if |s.flags| > 6 then [Add, Flip, Flip, Rename, Chown, Retire]
    else [Add, Flip, Flip, Rename, Chown]
  }

  /** The list the flag is drawn from, once the kind is fixed. */
  function Candidates(s: State, turn: int, kind: Kind): set<string> {
    match kind
    case Add => if s.words == [] then {} else {s.words[|s.words| - 1]}
    case Retire => AliveOlder(s, turn, 5)
    case _ => AliveOlder(s, turn, 3)
  }

  /** The list the team is drawn from. */
  function Owners(s: State, kind: Kind, name: string): set<Team> {
    if kind == Chown && name in s.flags then TEAMS - {s.flags[name].owner} else TEAMS
  }

  predicate Choosable(s: State, turn: int, op: Op) {
    && op.kind in Offered(s, turn)
    && op.name in Candidates(s, turn, op.kind)
    && op.owner in Owners(s, op.kind, op.name)
  }

  function AddFlag(s: State, turn: nat, owner: Team): State
    requires s.words != []
  {
    var n := s.words[|s.words| - 1];
    State(s.flags[n := Flag(false, owner)], s.retired, s.born[n := turn], s.words[..|s.words| - 1])
  }

  function SetFlag(s: State, n: string, flag: Flag): State {
    s.(flags := s.flags[n := flag])
  }

  function RenameFlag(s: State, n: string): State
    requires n in s.flags && n in s.born
  {
    var b := Renamed(n);
    s.(flags := Rekey(s.flags, n, b), born := Rekey(s.born, n, b))
  }

  function RetireFlag(s: State, n: string): State
    requires n in s.flags
  {
    s.(retired := s.retired[n := s.flags[n]], flags := s.flags - {n}, born := s.born - {n})
  }

  /** The effect of one operation. */
  function Step(s: State, turn: nat, op: Op): State
    requires Choosable(s, turn, op)
  {
    ChoosableIsLive(s, turn, op);
    var n := op.name;
    match op.kind
    case Add => AddFlag(s, turn, op.owner)
    case Flip => SetFlag(s, n, s.flags[n].(enabled := !s.flags[n].enabled))
    case Rename => RenameFlag(s, n)
    case Chown => SetFlag(s, n, s.flags[n].(owner := op.owner))
    case Retire => RetireFlag(s, n)
  }

  lemma {:induction false} ChoosableIsLive(s: State, turn: int, op: Op)
    requires Choosable(s, turn, op)
    ensures op.kind == Add ==> s.words != [] && op.name == s.words[|s.words| - 1]
    ensures op.kind != Add ==> op.name in s.flags && op.name in s.born
  {
    hide Offered;
  }

  // ----- the invariant -----

  /** Every stem is in use once: by a live flag, by a retired one, or by an unused word. */
  ghost predicate Apart(live: set<string>, gone: set<string>, words: seq<string>) {
    && live !! gone
    && (forall n :: n in live + gone ==> Named(n))
    && (forall a, b :: a in live + gone && b in live + gone && StemOf(a) == StemOf(b) ==> a == b)
    && (forall i :: 0 <= i < |words| ==> Named(words[i]))
    && (forall i, j :: 0 <= i < j < |words| ==> StemOf(words[i]) != StemOf(words[j]))
    && (forall i, n :: 0 <= i < |words| && n in live + gone ==> StemOf(words[i]) != StemOf(n))
  }

  ghost predicate FamiliesApart(s: State) {
    Apart(s.flags.Keys, s.retired.Keys, s.words)
  }

  /** Birth turns are recorded for the live flags, one flag per turn. */
  ghost predicate BirthsOk(s: State, turn: int) {
    s.born.Keys == s.flags.Keys && BirthsApart(s.born, turn)
  }

  /** w0 is the number of seed words: the adds so far are the words used up. */
  ghost predicate SizesOk(s: State, turn: int, w0: int) {
    && |s.words| <= w0
    && |s.flags| + |s.retired| == 3 + (w0 - |s.words|)
    && (turn <= 7 ==> s.retired == map[] && |s.words| == w0 - (turn - 1))
    && (turn >= 7 ==> |s.flags| >= 6)
  }

  ghost predicate Inv(s: State, turn: int, w0: int) {
    turn >= 1 && w0 >= 6 && FamiliesApart(s) && BirthsOk(s, turn) && SizesOk(s, turn, w0)
  }

  // ----- no choice from an empty list -----

  /** In every reachable state, whatever kind is drawn, there is a flag to draw. */
  lemma {:induction false} NoEmptyChoice(s: State, turn: int, w0: int, kind: Kind)
    requires Inv(s, turn, w0) && kind in Offered(s, turn)
    ensures Candidates(s, turn, kind) != {}
  {
    hide StemOf, Named, Renamed;
    if kind != Add {
      OfferedMeans(s, turn, w0, kind);
      FewYoung(s.flags.Keys, s.born, turn, 3);
      if kind == Retire {
        FewYoung(s.flags.Keys, s.born, turn, 5);
      }
      hide OlderThan, FamiliesApart;
    }
  }

  /** And there is a team to draw: no flag is owned by all of them. */
  lemma {:induction false} NoEmptyTeams(s: State, kind: Kind, name: string)
    ensures Owners(s, kind, name) != {}
  {
    assert Web in Owners(s, kind, name) || Data in Owners(s, kind, name);
  }

  lemma {:induction false} OfferedMeans(s: State, turn: int, w0: int, kind: Kind)
    requires Inv(s, turn, w0) && kind in Offered(s, turn)
    ensures kind == Add ==> s.words != []
    ensures kind != Add ==> turn >= 7
    ensures kind == Retire ==> s.words != [] && |s.flags| > 6
  {
    hide StemOf, Named, Renamed;
    hide FamiliesApart, BirthsOk, AliveOlder;
  }

  lemma {:induction false} ChoosableMeans(s: State, turn: int, w0: int, op: Op)
    requires Inv(s, turn, w0) && Choosable(s, turn, op)
    ensures op.kind != Add ==> turn >= 7
    ensures op.kind == Retire ==> s.words != [] && |s.flags| > 6
  {
    hide StemOf, Named, Renamed;
    OfferedMeans(s, turn, w0, op.kind);
    hide FamiliesApart, BirthsOk, Offered;
  }

  // ----- every operation keeps the invariant -----

  lemma {:induction false} StartInv(words: seq<string>)
    requires |words| >= 6 && Apart(SEED_FLAGS.Keys, {}, words)
    ensures Inv(Start(words), 1, |words|)
  {
    hide StemOf, Named;
    var s := Start(words);
    assert s.born.Keys == SEED_FLAGS.Keys && s.retired.Keys == {};
    assert |SEED_FLAGS| == 3;
  }

  lemma {:induction false} ApartAfterAdd(live: set<string>, gone: set<string>, words: seq<string>)
    requires Apart(live, gone, words) && words != []
    ensures words[|words| - 1] !in live + gone
    ensures Apart(live + {words[|words| - 1]}, gone, words[..|words| - 1])
  {
    hide StemOf, Named;
  }

  /** A rename never overwrites: no live and no retired flag has the new name. */
  lemma {:induction false} ApartAfterRename(live: set<string>, gone: set<string>, words: seq<string>, a: string)
    requires Apart(live, gone, words) && a in live
    ensures Renamed(a) !in live + gone
    ensures Apart(live - {a} + {Renamed(a)}, gone, words)
  {
    hide StemOf, Named, Renamed;
    RenamedStaysInFamily(a);
    var used := live + gone;
    assert live - {a} + {Renamed(a)} + gone == used - {a} + {Renamed(a)} by {
      assert a !in gone;
    }
  }

  lemma {:induction false} ApartAfterRetire(live: set<string>, gone: set<string>, words: seq<string>, n: string)
    requires Apart(live, gone, words) && n in live
    ensures Apart(live - {n}, gone + {n}, words)
  {
    hide StemOf, Named;
    assert (live - {n}) + (gone + {n}) == live + gone;
  }

  lemma {:induction false} AddKeepsFamilies(s: State, turn: nat, owner: Team)
    requires FamiliesApart(s) && s.words != []
    ensures FamiliesApart(AddFlag(s, turn, owner))
    ensures s.words[|s.words| - 1] !in s.flags && s.words[|s.words| - 1] !in s.retired
  {
    ApartAfterAdd(s.flags.Keys, s.retired.Keys, s.words);
    hide Apart;
    assert AddFlag(s, turn, owner).flags.Keys == s.flags.Keys + {s.words[|s.words| - 1]};
  }

  lemma {:induction false} AddKeepsBirths(s: State, turn: nat, owner: Team)
    requires BirthsOk(s, turn) && s.words != [] && turn >= 1
    ensures BirthsOk(AddFlag(s, turn, owner), turn + 1)
  {
    BirthsAfter(s.born, turn, s.words[|s.words| - 1], "");
    hide BirthsApart;
  }

  lemma {:induction false} AddKeepsSizes(s: State, turn: nat, w0: int, owner: Team)
    requires SizesOk(s, turn, w0) && s.words != [] && s.words[|s.words| - 1] !in s.flags
    ensures SizesOk(AddFlag(s, turn, owner), turn + 1, w0)
  {
    SizeAfterInsert(s.flags, s.words[|s.words| - 1], Flag(false, owner));
  }

  lemma {:induction false} SetKeepsInv(s: State, turn: nat, w0: int, n: string, flag: Flag)
    requires Inv(s, turn, w0) && n in s.flags && turn >= 7
    ensures Inv(SetFlag(s, n, flag), turn + 1, w0)
  {
    hide Apart, BirthsApart;
    assert s.flags[n := flag].Keys == s.flags.Keys;
    SetKeepsBirths(s, turn, n, flag);
    SizeAfterInsert(s.flags, n, flag);
    hide BirthsOk;
  }

  lemma {:induction false} SetKeepsBirths(s: State, turn: nat, n: string, flag: Flag)
    requires BirthsOk(s, turn) && n in s.flags
    ensures BirthsOk(SetFlag(s, n, flag), turn + 1)
  {
    BirthsAfter(s.born, turn, n, n);
    hide BirthsApart;
  }

  lemma {:induction false} RenameKeepsFamilies(s: State, n: string)
    requires FamiliesApart(s) && n in s.flags && n in s.born
    ensures FamiliesApart(RenameFlag(s, n))
    ensures Renamed(n) !in s.flags && Renamed(n) !in s.retired
  {
    ApartAfterRename(s.flags.Keys, s.retired.Keys, s.words, n);
    hide Apart, Renamed, Rekey;
  }

  lemma {:induction false} RenameKeepsBirths(s: State, turn: nat, n: string)
    requires BirthsOk(s, turn) && n in s.flags && n in s.born
    ensures BirthsOk(RenameFlag(s, n), turn + 1)
  {
    BirthsAfter(s.born, turn, n, Renamed(n));
    hide BirthsApart, Renamed, Rekey;
  }

  lemma {:induction false} RenameKeepsSizes(s: State, turn: nat, w0: int, n: string)
    requires SizesOk(s, turn, w0) && n in s.flags && n in s.born && turn >= 7 && Renamed(n) !in s.flags
    ensures SizesOk(RenameFlag(s, n), turn + 1, w0)
  {
    hide Renamed, Rekey;
  }

  lemma {:induction false} RetireKeepsFamilies(s: State, n: string)
    requires FamiliesApart(s) && n in s.flags
    ensures FamiliesApart(RetireFlag(s, n)) && n !in s.retired
  {
    ApartAfterRetire(s.flags.Keys, s.retired.Keys, s.words, n);
    assert n !in s.retired;
    hide Apart;
    assert RetireFlag(s, n).flags.Keys == s.flags.Keys - {n};
    assert RetireFlag(s, n).retired.Keys == s.retired.Keys + {n};
  }

  lemma {:induction false} RetireKeepsBirths(s: State, turn: nat, n: string)
    requires BirthsOk(s, turn) && n in s.flags
    ensures BirthsOk(RetireFlag(s, n), turn + 1)
  {
    BirthsAfter(s.born, turn, n, n);
    hide BirthsApart;
  }

  lemma {:induction false} RetireKeepsSizes(s: State, turn: nat, w0: int, n: string)
    requires SizesOk(s, turn, w0) && n in s.flags && n !in s.retired && turn >= 7 && |s.flags| > 6
    ensures SizesOk(RetireFlag(s, n), turn + 1, w0)
  {
    SizeAfterRemove(s.flags, n);
    SizeAfterInsert(s.retired, n, s.flags[n]);
  }

  lemma {:induction false} StepKeepsInv(s: State, turn: nat, w0: int, op: Op)
    requires Inv(s, turn, w0) && Choosable(s, turn, op)
    ensures Inv(Step(s, turn, op), turn + 1, w0)
  {
    ChoosableIsLive(s, turn, op);
    ChoosableMeans(s, turn, w0, op);
    hide Choosable, FamiliesApart, BirthsOk, SizesOk, AddFlag, SetFlag, RenameFlag, RetireFlag, Renamed;
    var n := op.name;
    match op.kind
    case Add =>
      AddKeepsFamilies(s, turn, op.owner);
      AddKeepsBirths(s, turn, op.owner);
      AddKeepsSizes(s, turn, w0, op.owner);
    case Flip => SetKeepsInv(s, turn, w0, n, s.flags[n].(enabled := !s.flags[n].enabled));
    case Rename =>
      RenameKeepsFamilies(s, n);
      RenameKeepsBirths(s, turn, n);
      RenameKeepsSizes(s, turn, w0, n);
    case Chown => SetKeepsInv(s, turn, w0, n, s.flags[n].(owner := op.owner));
    case Retire =>
      RetireKeepsFamilies(s, n);
      RetireKeepsBirths(s, turn, n);
      RetireKeepsSizes(s, turn, w0, n);
  }

  // ----- whole runs -----

  /** ops is a possible sequence of choices from state s on. */
  ghost predicate Run(s: State, turn: nat, ops: seq<Op>)
    decreases |ops|
  {
    ops == [] || (Choosable(s, turn, ops[0]) && Run(Step(s, turn, ops[0]), turn + 1, ops[1..]))
  }

  ghost function Exec(s: State, turn: nat, ops: seq<Op>): State
    requires Run(s, turn, ops)
    decreases |ops|
  {
    if ops == [] then s else Exec(Step(s, turn, ops[0]), turn + 1, ops[1..])
  }

  /** On every run the invariant holds in every state, so each of its clauses is a law of the replay. */
  lemma {:induction false} RunKeepsInv(s: State, turn: nat, w0: int, ops: seq<Op>)
    requires Inv(s, turn, w0) && Run(s, turn, ops)
    ensures Inv(Exec(s, turn, ops), turn + |ops|, w0)
    decreases |ops|
  {
    hide StemOf, Named, Renamed;
    hide Inv, Choosable, Step;
    if ops != [] {
      StepKeepsInv(s, turn, w0, ops[0]);
      RunKeepsInv(Step(s, turn, ops[0]), turn + 1, w0, ops[1..]);
    }
  }

  /** Retired entries are never altered or removed by anything that follows. */
  lemma {:induction false} HistoryIsKept(s: State, turn: nat, w0: int, ops: seq<Op>)
    requires Inv(s, turn, w0) && Run(s, turn, ops)
    ensures forall n :: n in s.retired ==> n in Exec(s, turn, ops).retired && Exec(s, turn, ops).retired[n] == s.retired[n]
    decreases |ops|
  {
    hide StemOf, Named, Renamed;
    hide Inv, Choosable, Step;
    if ops != [] {
      StepKeepsInv(s, turn, w0, ops[0]);
      StepKeepsHistory(s, turn, w0, ops[0]);
      HistoryIsKept(Step(s, turn, ops[0]), turn + 1, w0, ops[1..]);
    }
  }

  function Adds(ops: seq<Op>): nat {
    if ops == [] then 0 else (if ops[0].kind == Add then 1 else 0) + Adds(ops[1..])
  }

  /** Each add uses up one seed word, and nothing else does. */
  lemma {:induction false} AddsUseWords(s: State, turn: nat, ops: seq<Op>)
    requires Run(s, turn, ops)
    ensures |Exec(s, turn, ops).words| == |s.words| - Adds(ops)
    decreases |ops|
  {
    hide Choosable, Step;
    if ops != [] {
      StepWords(s, turn, ops[0]);
      AddsUseWords(Step(s, turn, ops[0]), turn + 1, ops[1..]);
    }
  }

  lemma {:induction false} StepWords(s: State, turn: nat, op: Op)
    requires Choosable(s, turn, op)
    ensures |Step(s, turn, op).words| == |s.words| - if op.kind == Add then 1 else 0
  {
    ChoosableIsLive(s, turn, op);
    hide Choosable, Renamed, Rekey;
  }

  /**
   * What every reachable registry guarantees: live and retired names are disjoint, births are recorded for exactly the
   * live names, nothing is lost (live and retired flags are the three seed flags and those added), and the next name of
   * a live flag is not taken, so a rename never overwrites.
   */
  lemma {:induction false} ReachableRegistries(words: seq<string>, ops: seq<Op>)
    requires Inv(Start(words), 1, |words|) && Run(Start(words), 1, ops)
    ensures var t := Exec(Start(words), 1, ops);
      && t.flags.Keys !! t.retired.Keys
      && t.born.Keys == t.flags.Keys
      && |t.flags| + |t.retired| == 3 + Adds(ops)
      && forall n :: n in t.flags ==> Renamed(n) !in t.flags && Renamed(n) !in t.retired
  {
    RunKeepsInv(Start(words), 1, |words|, ops);
    AddsUseWords(Start(words), 1, ops);
    assert Start(words).words == words;
    hide Start, Exec, Run, Renamed, StemOf, Named;
    var t := Exec(Start(words), 1, ops);
    forall n | n in t.flags
      ensures Renamed(n) !in t.flags && Renamed(n) !in t.retired
    {
      ApartAfterRename(t.flags.Keys, t.retired.Keys, t.words, n);
    }
  }

  lemma {:induction false} StepKeepsHistory(s: State, turn: nat, w0: int, op: Op)
    requires Inv(s, turn, w0) && Choosable(s, turn, op)
    ensures var t := Step(s, turn, op);
      && (forall n :: n in s.retired ==> n in t.retired && t.retired[n] == s.retired[n])
      && (op.kind == Retire ==> op.name in s.flags && op.name in t.retired && t.retired[op.name] == s.flags[op.name])
  {
    StepRetires(s, turn, op);
    if op.kind == Retire {
      LiveIsNotRetired(s, turn, w0, op.name);
    }
    hide Choosable, Inv, Step;
  }

  lemma {:induction false} StepRetires(s: State, turn: nat, op: Op)
    requires Choosable(s, turn, op)
    ensures op.kind == Retire ==>
      op.name in s.flags && Step(s, turn, op).retired == s.retired[op.name := s.flags[op.name]]
    ensures op.kind != Retire ==> Step(s, turn, op).retired == s.retired
  {
    ChoosableIsLive(s, turn, op);
    hide Choosable, Renamed, Rekey;
  }

  lemma {:induction false} LiveIsNotRetired(s: State, turn: int, w0: int, n: string)
    requires Inv(s, turn, w0) && n in s.flags
    ensures n !in s.retired
  {
    hide StemOf, Named, BirthsOk, SizesOk;
  }

  lemma {:induction false} RunSnoc(s: State, turn: nat, ops: seq<Op>, op: Op)
    requires Run(s, turn, ops) && Choosable(Exec(s, turn, ops), turn + |ops|, op)
    ensures Run(s, turn, ops + [op])
    ensures Exec(s, turn, ops + [op]) == Step(Exec(s, turn, ops), turn + |ops|, op)
    decreases |ops|
  {
    hide StemOf, Named, Renamed;
    hide Choosable, Step;
    if ops != [] {
      RunSnoc(Step(s, turn, ops[0]), turn + 1, ops[1..], op);
      assert (ops + [op])[1..] == ops[1..] + [op];
    } else {
      assert ops + [op] == [op];
    }
  }

  /**
   * The generator itself, for every outcome of its random choices: each `:|` below draws from a list
   * that is proved nonempty, and the 50 turns form a run of the state machine above.
   */
  method GenS7(seedWords: seq<string>) returns (flags: map<string, Flag>, retired: map<string, Flag>, ghost ops: seq<Op>)
    requires Inv(Start(seedWords), 1, |seedWords|)
    ensures |ops| == 50 && Run(Start(seedWords), 1, ops)
    ensures flags == Exec(Start(seedWords), 1, ops).flags && retired == Exec(Start(seedWords), 1, ops).retired
    ensures flags.Keys !! retired.Keys && |flags| >= 6
  {
    hide Start, Inv, FamiliesApart, BirthsOk, SizesOk, AliveOlder, Offered, Candidates, Owners, Renamed;
    var start := Start(seedWords);
    var born, words;
    flags, retired, born, words := start.flags, start.retired, start.born, start.words;
    ops := [];
    for turn := 1 to 51
      invariant |ops| == turn - 1 && Run(start, 1, ops)
      invariant State(flags, retired, born, words) == Exec(start, 1, ops)
      invariant Inv(State(flags, retired, born, words), turn, |seedWords|)
    {
      var s := State(flags, retired, born, words);
      OfferedIsNotEmpty(s, turn);
      var kind :| kind in Offered(s, turn);
      NoEmptyChoice(s, turn, |seedWords|, kind);
      var n :| n in Candidates(s, turn, kind);
      NoEmptyTeams(s, kind, n);
      var o :| o in Owners(s, kind, n);
      ghost var op := Op(kind, n, o);
      ChoosableIsLive(s, turn, op);
      match kind {
        case Add =>
          words := words[..|words| - 1];
          flags := flags[n := Flag(false, o)];
          born := born[n := turn];
        case Flip =>
          flags := flags[n := flags[n].(enabled := !flags[n].enabled)];
        case Rename =>
          var b := Renamed(n);
          flags := Rekey(flags, n, b);
          born := Rekey(born, n, b);
        case Chown =>
          flags := flags[n := flags[n].(owner := o)];
        case Retire =>
          retired := retired[n := flags[n]];
          flags := flags - {n};
          born := born - {n};
      }
      assert State(flags, retired, born, words) == Step(s, turn, op);
      RunSnoc(start, 1, ops, op);
      StepKeepsInv(s, turn, |seedWords|, op);
      ops := ops + [op];
    }
    InvMeans(State(flags, retired, born, words), 51, |seedWords|);
  }

  lemma {:induction false} OfferedIsNotEmpty(s: State, turn: int)
    ensures exists kind :: kind in Offered(s, turn)
  {
    var first := Offered(s, turn)[0];
    assert first in Offered(s, turn);
  }

  lemma {:induction false} InvMeans(s: State, turn: int, w0: int)
    requires Inv(s, turn, w0) && turn >= 7
    ensures s.flags.Keys !! s.retired.Keys && |s.flags| >= 6
  {
    hide StemOf, Named, Renamed;
  }
}
