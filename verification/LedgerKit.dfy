/**
 * The payment ledger of the "ledgerkit-batch" scenario: accounts, the journalled ledger, and the reference batch
 * operation with its fee legs (evals/hardbench/scenarios.py and evals/hardbench/selftest.py).
 */
module LedgerKit {
  import opened Sums
  import opened Text

  datatype Amount = Money(cents: int) | NotMoney

  /** One element of the caller's list: a 3-tuple, or anything else. */
  datatype Item = Triple(src: string, dst: string, amount: Amount) | NotATriple

  datatype Postings = List(items: seq<Item>) | NotAList

  /** One journal entry. */
  datatype Leg = Leg(src: string, dst: string, cents: int)

  datatype Error =
    | NotAListError
    | NotATripleError
    | NotMoneyError
    | NotPositiveError
    | SameAccountError
    | NoSuchAccountError
    | AccountExistsError
    | BadCodeError

  datatype Result<T> = Ok(value: T) | Fail(error: Error)

  const FEES: string := "FEES"
  const FEE_PREFIX: string := "FEE"

  // ------------------------------------------------------------------------------------------------ the journal

  /** The effect of one leg on the balances: debit the source, then credit the destination. */
  function Move(balances: map<string, int>, leg: Leg): (r: map<string, int>)
    requires leg.src in balances && leg.dst in balances
    ensures r.Keys == balances.Keys
  {
    var debited := balances[leg.src := balances[leg.src] - leg.cents];
    debited[leg.dst := debited[leg.dst] + leg.cents]
  }

  predicate Posted(legs: seq<Leg>, codes: set<string>) {
    forall i :: 0 <= i < |legs| ==> legs[i].src in codes && legs[i].dst in codes
  }

  function MoveAll(balances: map<string, int>, legs: seq<Leg>): (r: map<string, int>)
    requires Posted(legs, balances.Keys)
    ensures r.Keys == balances.Keys
  {
    if legs == [] then balances
    else Move(MoveAll(balances, legs[..|legs| - 1]), legs[|legs| - 1])
  }

  /** What a list of legs does to one account: everything paid in less everything paid out. */
  function Net(legs: seq<Leg>, code: string): int {
    if legs == [] then 0
    else
      var last := legs[|legs| - 1];
      Net(legs[..|legs| - 1], code) + (if last.dst == code then last.cents else 0) - (if last.src == code then last.cents else 0)
  }

  lemma {:induction false} NetConcat(xs: seq<Leg>, ys: seq<Leg>, code: string)
    ensures Net(xs + ys, code) == Net(xs, code) + Net(ys, code)
  {
    if ys == [] {
      assert xs + ys == xs;
    } else {
      assert (xs + ys)[..|xs + ys| - 1] == xs + ys[..|ys| - 1];
      NetConcat(xs, ys[..|ys| - 1], code);
    }
  }

  lemma {:induction false} MoveAllConcat(balances: map<string, int>, xs: seq<Leg>, ys: seq<Leg>)
    requires Posted(xs, balances.Keys) && Posted(ys, balances.Keys)
    ensures Posted(xs + ys, balances.Keys)
    ensures MoveAll(balances, xs + ys) == MoveAll(MoveAll(balances, xs), ys)
  {
    hide Move;
    if ys == [] {
      assert xs + ys == xs;
    } else {
      assert (xs + ys)[..|xs + ys| - 1] == xs + ys[..|ys| - 1];
      MoveAllConcat(balances, xs, ys[..|ys| - 1]);
    }
  }

  /** Every balance moves by exactly the net effect of the legs, a leg from an account to itself included. */
  lemma {:induction false} BalanceIsOpeningPlusNet(balances: map<string, int>, legs: seq<Leg>, code: string)
    requires Posted(legs, balances.Keys) && code in balances
    ensures MoveAll(balances, legs)[code] == balances[code] + Net(legs, code)
  {
    if legs != [] {
      BalanceIsOpeningPlusNet(balances, legs[..|legs| - 1], code);
    }
  }

  lemma {:induction false} MoveConserves(balances: map<string, int>, leg: Leg)
    requires leg.src in balances && leg.dst in balances
    ensures SumBy(Move(balances, leg), Cents()) == SumBy(balances, Cents())
  {
    hide SumBy;
    var debited := balances[leg.src := balances[leg.src] - leg.cents];
    SumByUpdate(balances, Cents(), leg.src, balances[leg.src] - leg.cents);
    SumByUpdate(debited, Cents(), leg.dst, debited[leg.dst] + leg.cents);
  }

  /** No leg creates or destroys money. */
  lemma {:induction false} MoveAllConserves(balances: map<string, int>, legs: seq<Leg>)
    requires Posted(legs, balances.Keys)
    ensures SumBy(MoveAll(balances, legs), Cents()) == SumBy(balances, Cents())
  {
    hide SumBy, Move;
    if legs != [] {
      MoveAllConserves(balances, legs[..|legs| - 1]);
      MoveConserves(MoveAll(balances, legs[..|legs| - 1]), legs[|legs| - 1]);
    }
  }

  function Cents(): int -> int {
    (x: int) => x
  }

  // ----------------------------------------------------------------------------------------------- fees and legs

  /** `(cents + 50) // 100` */
  function Fee(cents: int): int {
    (cents + 50) / 100
  }

  /** The fee is the whole number of cents nearest to one per cent, halves rounded up; no other number is. */
  lemma {:induction false} FeeIsNearest(cents: int, fee: int)
    ensures fee == Fee(cents) <==> -50 < 100 * fee - cents <= 50
  {
  }

  predicate Charged(item: Item, hasFees: bool) {
    item.Triple? && item.amount.Money? && hasFees && !StartsWith(item.dst, FEE_PREFIX) && Fee(item.amount.cents) > 0
  }

  /** A transfer, followed by its fee leg when one is due. */
  function LegsOf(item: Item, hasFees: bool): seq<Leg>
    requires item.Triple? && item.amount.Money?
  {
    [Leg(item.src, item.dst, item.amount.cents)] + FeeLegs(item, hasFees)
  }

  function FeeLegs(item: Item, hasFees: bool): seq<Leg>
    requires item.Triple? && item.amount.Money?
  {
    if Charged(item, hasFees) then [Leg(item.src, FEES, Fee(item.amount.cents))] else []
  }

  predicate Transfers(items: seq<Item>) {
    forall i :: 0 <= i < |items| ==> items[i].Triple? && items[i].amount.Money?
  }

  function Legs(items: seq<Item>, hasFees: bool): seq<Leg>
    requires Transfers(items)
  {
    if items == [] then []
    else Legs(items[..|items| - 1], hasFees) + LegsOf(items[|items| - 1], hasFees)
  }

  lemma {:induction false} NetOne(leg: Leg, code: string)
    ensures Net([leg], code) == (if leg.dst == code then leg.cents else 0) - (if leg.src == code then leg.cents else 0)
  {
    assert [leg][..0] == [];
  }

  /** What one transfer does to the accounts: the fee comes out of the source, on top of the amount. */
  lemma {:induction false} TransferEffect(item: Item, hasFees: bool, code: string)
    requires item.Triple? && item.amount.Money? && item.src != item.dst
    ensures var fee := if Charged(item, hasFees) then Fee(item.amount.cents) else 0;
      Net(LegsOf(item, hasFees), code) ==
        (if code == item.dst then item.amount.cents else 0)
        - (if code == item.src then item.amount.cents + fee else 0)
        + (if code == FEES then fee else 0)
  {
    var transfer, feeLeg := Leg(item.src, item.dst, item.amount.cents), Leg(item.src, FEES, Fee(item.amount.cents));
    NetOne(transfer, code);
    NetOne(feeLeg, code);
    NetConcat([transfer], [feeLeg], code);
    assert [transfer] + [] == [transfer];
  }

  // ------------------------------------------------------------------------------------------------- validation

  /** The checks of one transfer, in the order in which they are made. */
  function Check(item: Item, codes: set<string>): Result<()> {
    match item
    case NotATriple => Fail(NotATripleError)
    case Triple(src, dst, NotMoney) => Fail(NotMoneyError)
    case Triple(src, dst, Money(cents)) =>
      if cents <= 0 then Fail(NotPositiveError)
      else if src == dst then Fail(SameAccountError)
      else if src !in codes || dst !in codes then Fail(NoSuchAccountError)
      else Ok(())
  }

  /** The whole batch: the error of the first bad item (see CheckAllFindsFirst). */
  function CheckAll(items: seq<Item>, codes: set<string>): Result<()> {
    if items == [] then Ok(())
    else if CheckAll(items[..|items| - 1], codes).Fail? then CheckAll(items[..|items| - 1], codes)
    else Check(items[|items| - 1], codes)
  }

  lemma {:induction false} CheckAllFindsFirst(items: seq<Item>, codes: set<string>)
    ensures CheckAll(items, codes).Ok? <==> forall i :: 0 <= i < |items| ==> Check(items[i], codes).Ok?
    ensures CheckAll(items, codes).Fail? ==>
      exists i :: 0 <= i < |items| && CheckAll(items, codes) == Check(items[i], codes)
        && forall j :: 0 <= j < i ==> Check(items[j], codes).Ok?
  {
    if items != [] {
      var n := |items| - 1;
      CheckAllFindsFirst(items[..n], codes);
      assert forall i :: 0 <= i < n ==> items[..n][i] == items[i];
      if CheckAll(items[..n], codes).Fail? {
        var i :| 0 <= i < n && CheckAll(items[..n], codes) == Check(items[..n][i], codes)
          && forall j :: 0 <= j < i ==> Check(items[..n][j], codes).Ok?;
        assert CheckAll(items, codes) == Check(items[i], codes);
      } else {
        assert CheckAll(items, codes) == Check(items[n], codes);
      }
    }
  }

  /** Outcome of a batch on values: either an error, or the legs that it posts. */
  function Batch(postings: Postings, codes: set<string>): (r: Result<seq<Leg>>)
    ensures r.Ok? ==> Posted(r.value, codes)
  {
    match postings
    case NotAList => Fail(NotAListError)
    case List(items) =>
      CheckAllFindsFirst(items, codes);
      if CheckAll(items, codes).Fail? then Fail(CheckAll(items, codes).error)
      else
        LegsPosted(items, codes);
        Ok(Legs(items, FEES in codes))
  }

  lemma {:induction false} LegsPosted(items: seq<Item>, codes: set<string>)
    requires forall i :: 0 <= i < |items| ==> Check(items[i], codes).Ok?
    ensures Transfers(items)
    ensures Posted(Legs(items, FEES in codes), codes)
  {
    if items != [] {
      LegsPosted(items[..|items| - 1], codes);
    }
  }

  // -------------------------------------------------------------------------------- what a batch accepts and posts

  /** A positive amount of Money between two different open accounts. */
  predicate Good(item: Item, codes: set<string>) {
    && item.Triple? && item.amount.Money? && item.amount.cents > 0
    && item.src != item.dst
    && item.src in codes && item.dst in codes
  }

  /** The caller passes a list of good transfers. */
  predicate Acceptable(postings: Postings, codes: set<string>) {
    postings.List? && forall i :: 0 <= i < |postings.items| ==> Good(postings.items[i], codes)
  }

  /** The first item that is not good. */
  predicate IsFirstBad(items: seq<Item>, codes: set<string>, i: int) {
    0 <= i < |items| && !Good(items[i], codes) && forall j :: 0 <= j < i ==> Good(items[j], codes)
  }

  /** What each error says of the item it is raised for. */
  predicate Explains(error: Error, item: Item, codes: set<string>) {
    match error
    case NotATripleError => item.NotATriple?
    case NotMoneyError => item.Triple? && item.amount.NotMoney?
    case NotPositiveError => item.Triple? && item.amount.Money? && item.amount.cents <= 0
    case SameAccountError => item.Triple? && item.amount.Money? && item.amount.cents > 0 && item.src == item.dst
    case NoSuchAccountError =>
      && item.Triple? && item.amount.Money? && item.amount.cents > 0 && item.src != item.dst
      && !(item.src in codes && item.dst in codes)
    case _ => false
  }

  lemma {:induction false} CheckMeans(item: Item, codes: set<string>)
    ensures Check(item, codes).Ok? <==> Good(item, codes)
    ensures Check(item, codes).Fail? ==> forall e :: Explains(e, item, codes) <==> e == Check(item, codes).error
  {
  }

  /** A batch is accepted exactly if it is a list of good transfers... */
  lemma {:induction false} AcceptsExactly(postings: Postings, codes: set<string>)
    ensures Batch(postings, codes).Ok? <==> Acceptable(postings, codes)
  {
    hide Check, Good, CheckAll;
    if postings.List? {
      CheckAllFindsFirst(postings.items, codes);
      forall i | 0 <= i < |postings.items|
        ensures Check(postings.items[i], codes).Ok? <==> Good(postings.items[i], codes)
      {
        CheckMeans(postings.items[i], codes);
      }
    }
  }

  /** ... and otherwise fails with the one error that explains its first bad item. */
  lemma {:induction false} FailsOnFirstBad(postings: Postings, codes: set<string>, i: int, e: Error)
    requires postings.List? && IsFirstBad(postings.items, codes, i)
    ensures Batch(postings, codes) == Fail(e) <==> Explains(e, postings.items[i], codes)
  {
    hide Check, Good, CheckAll, Explains;
    var items := postings.items;
    CheckAllFindsFirst(items, codes);
    forall j | 0 <= j < |items|
      ensures Check(items[j], codes).Ok? <==> Good(items[j], codes)
    {
      CheckMeans(items[j], codes);
    }
    CheckMeans(items[i], codes);
    assert !Check(items[i], codes).Ok?;
  }

  /** A transfer of at least 50 cents to an account whose code does not start with FEE, in a ledger with fees. */
  predicate Due(item: Item, codes: set<string>) {
    && "FEES" in codes
    && item.Triple? && item.amount.Money? && item.amount.cents >= 50
    && !StartsWith(item.dst, "FEE")
  }

  function CountDue(items: seq<Item>, codes: set<string>): nat {
    if items == [] then 0
    else CountDue(items[..|items| - 1], codes) + if Due(items[|items| - 1], codes) then 1 else 0
  }

  /** The item's transfer stands at that place, with its fee leg right behind it if one is due. */
  predicate Placed(legs: seq<Leg>, at: nat, item: Item, codes: set<string>) {
    && item.Triple? && item.amount.Money?
    && at < |legs| && legs[at] == Leg(item.src, item.dst, item.amount.cents)
    && (Due(item, codes) ==>
      && at + 1 < |legs| && legs[at + 1].src == item.src && legs[at + 1].dst == "FEES"
      && -50 < 100 * legs[at + 1].cents - item.amount.cents <= 50)
  }

  /** What an accepted batch posts, leg by leg: each transfer, and right behind it its fee if one is due. */
  lemma {:induction false} PostsExactly(items: seq<Item>, codes: set<string>, k: nat)
    requires Acceptable(List(items), codes) && k < |items|
    ensures Batch(List(items), codes).Ok?
    ensures var legs, at := Batch(List(items), codes).value, k + CountDue(items[..k], codes);
      && |legs| == |items| + CountDue(items, codes)
      && Placed(legs, at, items[k], codes) && legs[at].src != legs[at].dst
  {
    hide Check, CheckAll, Due, Good, Legs;
    AcceptsExactly(List(items), codes);
    BatchIsLegs(items, codes);
    LegsAt(items, codes, k);
    GoodParts(items, codes, k);
  }

  lemma {:induction false} BatchIsLegs(items: seq<Item>, codes: set<string>)
    requires Batch(List(items), codes).Ok?
    ensures Transfers(items) && Batch(List(items), codes).value == Legs(items, "FEES" in codes)
  {
    CheckAllFindsFirst(items, codes);
    LegsPosted(items, codes);
  }

  lemma {:induction false} GoodParts(items: seq<Item>, codes: set<string>, k: nat)
    requires Acceptable(List(items), codes) && k < |items|
    ensures items[k].Triple? && items[k].amount.Money? && items[k].src != items[k].dst
  {
  }

  lemma {:induction false} LegsAt(items: seq<Item>, codes: set<string>, k: nat)
    requires Transfers(items) && k < |items|
    ensures var legs, at := Legs(items, "FEES" in codes), k + CountDue(items[..k], codes);
      |legs| == |items| + CountDue(items, codes) && Placed(legs, at, items[k], codes)
  {
    hide Due, LegsOf, Placed;
    var n := |items| - 1;
    var before, last := Legs(items[..n], "FEES" in codes), LegsOf(items[n], "FEES" in codes);
    LegsCount(items[..n], codes);
    LegsOfDue(items[n], codes);
    if k < n {
      LegsAt(items[..n], codes, k);
      assert items[..n][..k] == items[..k];
      StaysPlaced(before, last, k + CountDue(items[..k], codes), items[k], codes);
    } else {
      PlacedLast(before, items[n], codes);
    }
  }

  lemma {:induction false} StaysPlaced(legs: seq<Leg>, more: seq<Leg>, at: nat, item: Item, codes: set<string>)
    requires Placed(legs, at, item, codes)
    ensures Placed(legs + more, at, item, codes)
  {
    hide Due;
  }

  lemma {:induction false} PlacedLast(before: seq<Leg>, item: Item, codes: set<string>)
    requires item.Triple? && item.amount.Money?
    ensures Placed(before + LegsOf(item, "FEES" in codes), |before|, item, codes)
  {
    LegsOfDue(item, codes);
    hide Due, LegsOf;
  }

  lemma {:induction false} LegsCount(items: seq<Item>, codes: set<string>)
    requires Transfers(items)
    ensures |Legs(items, "FEES" in codes)| == |items| + CountDue(items, codes)
  {
    hide Due, LegsOf;
    if items != [] {
      LegsCount(items[..|items| - 1], codes);
      LegsOfDue(items[|items| - 1], codes);
    }
  }

  lemma {:induction false} LegsOfDue(item: Item, codes: set<string>)
    requires item.Triple? && item.amount.Money?
    ensures var legs := LegsOf(item, "FEES" in codes);
      && |legs| == 1 + (if Due(item, codes) then 1 else 0)
      && legs[0] == Leg(item.src, item.dst, item.amount.cents)
      && (Due(item, codes) ==>
        && legs[1].src == item.src && legs[1].dst == "FEES" && -50 < 100 * legs[1].cents - item.amount.cents <= 50)
  {
    FeeIsNearest(item.amount.cents, Fee(item.amount.cents));
  }

  /** A batch is its postings: running two batches in turn is running their concatenation. */
  lemma {:induction false} LegsConcat(xs: seq<Item>, ys: seq<Item>, hasFees: bool)
    requires Transfers(xs) && Transfers(ys)
    ensures Transfers(xs + ys)
    ensures Legs(xs + ys, hasFees) == Legs(xs, hasFees) + Legs(ys, hasFees)
  {
    if ys == [] {
      assert xs + ys == xs;
    } else {
      assert (xs + ys)[..|xs + ys| - 1] == xs + ys[..|ys| - 1];
      LegsConcat(xs, ys[..|ys| - 1], hasFees);
    }
  }

  /** Two batches in turn are accepted, and post the same legs, just as their concatenation is and does. */
  lemma {:induction false} BatchesCompose(xs: seq<Item>, ys: seq<Item>, codes: set<string>)
    ensures var both := Batch(List(xs + ys), codes);
      both.Ok? <==> Batch(List(xs), codes).Ok? && Batch(List(ys), codes).Ok?
    ensures var both := Batch(List(xs + ys), codes);
      both.Ok? ==> both.value == Batch(List(xs), codes).value + Batch(List(ys), codes).value
  {
    CheckAllFindsFirst(xs, codes);
    CheckAllFindsFirst(ys, codes);
    CheckAllFindsFirst(xs + ys, codes);
    assert forall i :: 0 <= i < |xs| ==> xs[i] == (xs + ys)[i];
    assert forall i :: 0 <= i < |ys| ==> ys[i] == (xs + ys)[|xs| + i];
    if Batch(List(xs + ys), codes).Ok? {
      LegsPosted(xs, codes);
      LegsPosted(ys, codes);
      LegsConcat(xs, ys, FEES in codes);
    }
  }

  /** The books are in balance: every balance is what the journal says it is. */
  predicate InBalance(balances: map<string, int>, journal: seq<Leg>) {
    && Posted(journal, balances.Keys)
    && forall code :: code in balances ==> balances[code] == Net(journal, code)
  }

  lemma {:induction false} PostingKeepsBooks(balances: map<string, int>, journal: seq<Leg>, legs: seq<Leg>)
    requires InBalance(balances, journal) && Posted(legs, balances.Keys)
    ensures InBalance(MoveAll(balances, legs), journal + legs)
  {
    forall code | code in balances
      ensures MoveAll(balances, legs)[code] == Net(journal + legs, code)
    {
      BalanceIsOpeningPlusNet(balances, legs, code);
      NetConcat(journal, legs, code);
    }
  }

  lemma {:induction false} OpeningKeepsBooks(balances: map<string, int>, journal: seq<Leg>, code: string)
    requires InBalance(balances, journal) && code !in balances
    ensures InBalance(balances[code := 0], journal)
  {
    NetOfStranger(journal, balances.Keys, code);
  }

  lemma {:induction false} NetOfStranger(journal: seq<Leg>, codes: set<string>, code: string)
    requires Posted(journal, codes) && code !in codes
    ensures Net(journal, code) == 0
  {
    if journal != [] {
      NetOfStranger(journal[..|journal| - 1], codes, code);
    }
  }

  // ---------------------------------------------------------------------------------------------------- objects

  /** What Python's Unicode tables say of a character; cased stands for lower or title case. */
  datatype Alphabet = Alphabet(alpha: char -> bool, alnum: char -> bool, upper: char -> bool, cased: char -> bool)

  /** The length, `isalnum`, `isupper` and first-letter checks of an account code. */
  predicate ValidCode(code: string, alphabet: Alphabet) {
    && 3 <= |code| <= 8
    && (forall i :: 0 <= i < |code| ==> alphabet.alnum(code[i]))
    && (exists i :: 0 <= i < |code| && alphabet.upper(code[i]))
    && (forall i :: 0 <= i < |code| ==> !alphabet.cased(code[i]))
    && alphabet.alpha(code[0])
  }

  predicate IsUpper(c: char) {
    'A' <= c <= 'Z'
  }

  predicate IsLower(c: char) {
    'a' <= c <= 'z'
  }

  predicate IsAscii(s: string) {
    forall i :: 0 <= i < |s| ==> s[i] < '\U{80}'
  }

  /** The tables are right about ASCII. */
  ghost predicate KnowsAscii(alphabet: Alphabet) {
    forall c :: c < '\U{80}' ==>
      && alphabet.alpha(c) == (IsUpper(c) || IsLower(c))
      && alphabet.alnum(c) == (IsUpper(c) || IsLower(c) || IsDigit(c))
      && alphabet.upper(c) == IsUpper(c)
      && alphabet.cased(c) == IsLower(c)
  }

  /** For ASCII codes the checks are the documented convention: 3 to 8 upper-case letters and digits, a letter first. */
  lemma {:induction false} AsciiCodes(code: string, alphabet: Alphabet)
    requires KnowsAscii(alphabet) && IsAscii(code)
    ensures ValidCode(code, alphabet) <==>
      && 3 <= |code| <= 8
      && (forall i :: 0 <= i < |code| ==> IsUpper(code[i]) || IsDigit(code[i]))
      && IsUpper(code[0])
  {
  }

  /** Beyond ASCII they accept more: a code of caseless letters passes if and only if an upper-case one is among them. */
  lemma {:induction false} OtherCodes(alphabet: Alphabet, x: char, y: char)
    requires alphabet.alpha(x) && alphabet.alnum(x) && !alphabet.cased(x)
    requires alphabet.alnum(y) && !alphabet.cased(y) && !alphabet.upper(y)
    ensures ValidCode([x, y, y], alphabet) <==> alphabet.upper(x)
  {
    assert forall i :: 0 <= i < 3 ==> [x, y, y][i] == if i == 0 then x else y;
  }

  class Account {
    const code: string
    var balance: int

    constructor (code: string, ghost alphabet: Alphabet)
      requires ValidCode(code, alphabet)
      ensures this.code == code && balance == 0
    {
      this.code := code;
      balance := 0;
    }

    method Credit(cents: int)
      modifies this`balance
      ensures balance == old(balance) + cents
    {
      balance := balance + cents;
    }

    method Debit(cents: int)
      modifies this`balance
      ensures balance == old(balance) - cents
    {
      balance := balance - cents;
    }
  }

  class Ledger {
    const alphabet: Alphabet
    var accounts: map<string, Account>
    var journal: seq<Leg>

    /** Accounts are filed under their own codes, so two codes never share an account. */
    ghost predicate Valid()
      reads this
    {
      forall code :: code in accounts ==> accounts[code].code == code && ValidCode(code, alphabet)
    }

    ghost function Balances(): (b: map<string, int>)
      reads this, accounts.Values
      ensures b.Keys == accounts.Keys
    {
      map code | code in accounts :: accounts[code].balance
    }

    /** Every balance is what the journal says it is. */
    ghost predicate Books()
      reads this, accounts.Values
    {
      InBalance(Balances(), journal)
    }

    constructor (alphabet: Alphabet)
      ensures this.alphabet == alphabet
      ensures Valid() && Books() && accounts == map[] && journal == []
    {
      this.alphabet := alphabet;
      accounts, journal := map[], [];
    }

    method OpenAccount(code: string) returns (r: Result<Account>)
      requires Valid()
      modifies this`accounts
      ensures Valid()
      ensures r.Ok? <==> code !in old(accounts) && ValidCode(code, alphabet)
      ensures r.Ok? ==> fresh(r.value) && accounts == old(accounts)[code := r.value]
      ensures r.Ok? ==> Balances() == old(Balances())[code := 0]
      ensures old(Books()) ==> Books()
      ensures r.Fail? ==> accounts == old(accounts)
      ensures r.Fail? ==> r.error == if code in old(accounts) then AccountExistsError else BadCodeError
    {
      hide Net, Posted, InBalance, ValidCode;
      if code in accounts {
        return Fail(AccountExistsError);
      }
      if !ValidCode(code, alphabet) {
        return Fail(BadCodeError);
      }
      var account := new Account(code, alphabet);
      ghost var before := Balances();
      accounts := accounts[code := account];
      if InBalance(before, journal) {
        OpeningKeepsBooks(before, journal, code);
      }
      return Ok(account);
    }

    method MoveMoney(src: string, dst: string, cents: int)
      requires Valid() && src in accounts && dst in accounts
      modifies accounts.Values
      ensures Balances() == Move(old(Balances()), Leg(src, dst, cents))
    {
      accounts[src].Debit(cents);
      assert Balances() == old(Balances())[src := old(Balances())[src] - cents];
      accounts[dst].Credit(cents);
    }

    /** Validates, then moves the money and writes the journal. A posting from an account to itself is allowed here. */
    method Post(src: string, dst: string, amount: Amount) returns (r: Result<()>)
      requires Valid()
      modifies this`journal, accounts.Values
      ensures Valid()
      ensures r == if amount == NotMoney then Fail(NotMoneyError)
                   else if amount.cents <= 0 then Fail(NotPositiveError)
                   else if src !in accounts || dst !in accounts then Fail(NoSuchAccountError)
                   else Ok(())
      ensures r.Fail? ==> journal == old(journal) && Balances() == old(Balances())
      ensures r.Ok? ==> journal == old(journal) + [Leg(src, dst, amount.cents)]
      ensures r.Ok? ==> Balances() == Move(old(Balances()), Leg(src, dst, amount.cents))
      ensures old(Books()) ==> Books()
    {
      hide Move, MoveAll, Posted, Net, InBalance, ValidCode;
      if amount == NotMoney {
        return Fail(NotMoneyError);
      }
      if amount.cents <= 0 {
        return Fail(NotPositiveError);
      }
      if src !in accounts || dst !in accounts {
        return Fail(NoSuchAccountError);
      }
      ghost var leg := Leg(src, dst, amount.cents);
      if Books() {
        MoveAllOne(Balances(), leg);
        PostingKeepsBooks(Balances(), journal, [leg]);
      }
      MoveMoney(src, dst, amount.cents);
      journal := journal + [Leg(src, dst, amount.cents)];
      return Ok(());
    }

    /**
     * The reference batch: every item is validated before any is posted. A failure leaves no trace; a success journals
     * exactly the transfers and their fee legs, and moves every balance by their net effect.
     */
    method ApplyBatch(postings: Postings) returns (r: Result<seq<Leg>>)
      requires Valid()
      modifies this`journal, accounts.Values
      ensures Valid()
      ensures r.Fail? <==> Batch(postings, accounts.Keys).Fail?
      ensures r.Ok? <==> Acceptable(postings, accounts.Keys)
      ensures r.Fail? ==> r.error == Batch(postings, accounts.Keys).error
      ensures r.Fail? ==> journal == old(journal) && Balances() == old(Balances())
      ensures r.Ok? ==> r.value == journal == old(journal) + Batch(postings, accounts.Keys).value
      ensures r.Ok? ==> Balances() == MoveAll(old(Balances()), Batch(postings, accounts.Keys).value)
      ensures old(Books()) ==> Books()
      ensures SumBy(Balances(), Cents()) == old(SumBy(Balances(), Cents()))
    {
      hide Batch, Net, MoveAll, Posted, InBalance, CheckAll, SumBy, ValidCode;
      BatchOfNoList(accounts.Keys);
      AcceptsExactly(postings, accounts.Keys);
      if postings == NotAList {
        return Fail(NotAListError);
      }
      var items := postings.items;
      var valid := Validate(items);
      BatchIsChecked(items, accounts.Keys);
      if valid.Fail? {
        return Fail(valid.error);
      }
      PostAll(items);
      ghost var legs := Batch(postings, accounts.Keys).value;
      MoveAllConserves(old(Balances()), legs);
      if old(Books()) {
        PostingKeepsBooks(old(Balances()), old(journal), legs);
      }
      return Ok(journal);
    }

    /** The first loop of the batch: it stops at the first bad item and touches nothing. */
    method Validate(items: seq<Item>) returns (r: Result<()>)
      ensures r == CheckAll(items, accounts.Keys)
    {
      for i := 0 to |items|
        invariant CheckAll(items[..i], accounts.Keys).Ok?
      {
        assert items[..i + 1][..i] == items[..i];
        var checked := Check(items[i], accounts.Keys);
        if checked.Fail? {
          CheckAllStops(items, i + 1, accounts.Keys);
          return checked;
        }
      }
      assert items[..|items|] == items;
      return Ok(());
    }

    /** The second loop of the batch. */
    method PostAll(items: seq<Item>)
      requires Valid() && Batch(List(items), accounts.Keys).Ok?
      modifies this`journal, accounts.Values
      ensures Valid()
      ensures journal == old(journal) + Batch(List(items), accounts.Keys).value
      ensures Balances() == MoveAll(old(Balances()), Batch(List(items), accounts.Keys).value)
    {
      hide PostedTo, Batch, MoveAll, Posted, ValidCode;
      var hasFees := FEES in accounts;
      ghost var balances := Balances();
      PostedStart(items, accounts.Keys, balances, journal);
      for i := 0 to |items|
        invariant Valid() && balances.Keys == accounts.Keys
        invariant PostedTo(items, i, accounts.Keys, balances, old(journal), Balances(), journal)
      {
        LegsStep(items, i, accounts.Keys);
        ghost var before, entries := Balances(), journal;
        PostOne(items[i], hasFees);
        PostedStep(items, i, accounts.Keys, balances, old(journal), before, entries, Balances(), journal);
      }
      PostedEnd(items, accounts.Keys, balances, old(journal), Balances(), journal);
    }

    /** One round of that loop: the transfer, then the fee leg if one is due. */
    method PostOne(item: Item, hasFees: bool)
      requires Valid() && Check(item, accounts.Keys).Ok? && hasFees == (FEES in accounts)
      modifies this`journal, accounts.Values
      ensures Valid()
      ensures Posted(LegsOf(item, hasFees), accounts.Keys)
      ensures journal == old(journal) + LegsOf(item, hasFees)
      ensures Balances() == MoveAll(old(Balances()), LegsOf(item, hasFees))
    {
      hide Move, MoveAll, Posted, FeeLegs, ValidCode;
      ghost var before := Balances();
      ghost var transfer := Leg(item.src, item.dst, item.amount.cents);
      MoveAllOne(before, transfer);
      var posted := Post(item.src, item.dst, item.amount);
      PostFee(item, hasFees);
      MoveAllConcat(before, [transfer], FeeLegs(item, hasFees));
    }

    /** The fee leg, if one is due. */
    method PostFee(item: Item, hasFees: bool)
      requires Valid() && Check(item, accounts.Keys).Ok? && hasFees == (FEES in accounts)
      modifies this`journal, accounts.Values
      ensures Valid()
      ensures Posted(FeeLegs(item, hasFees), accounts.Keys)
      ensures journal == old(journal) + FeeLegs(item, hasFees)
      ensures Balances() == MoveAll(old(Balances()), FeeLegs(item, hasFees))
    {
      hide Move, MoveAll, Posted, StartsWith, Fee, ValidCode;
      MoveAllNothing(Balances());
      if hasFees && !StartsWith(item.dst, FEE_PREFIX) {
        var fee := Fee(item.amount.cents);
        if fee > 0 {
          MoveAllOne(Balances(), Leg(item.src, FEES, fee));
          var posted := Post(item.src, FEES, Money(fee));
        }
      }
    }
  }

  lemma {:induction false} MoveAllNothing(balances: map<string, int>)
    ensures Posted([], balances.Keys) && MoveAll(balances, []) == balances
  {
  }

  lemma {:induction false} MoveAllOne(balances: map<string, int>, leg: Leg)
    requires leg.src in balances && leg.dst in balances
    ensures Posted([leg], balances.Keys)
    ensures MoveAll(balances, [leg]) == Move(balances, leg)
  {
    assert [leg][..0] == [];
  }

  lemma {:induction false} BatchOfNoList(codes: set<string>)
    ensures Batch(NotAList, codes) == Fail(NotAListError)
  {
  }

  lemma {:induction false} BatchIsChecked(items: seq<Item>, codes: set<string>)
    ensures Batch(List(items), codes).Ok? <==> CheckAll(items, codes).Ok?
    ensures CheckAll(items, codes).Fail? ==> Batch(List(items), codes).error == CheckAll(items, codes).error
  {
  }

  /** The first i items are posted: what that means for the balances and the journal. */
  ghost predicate PostedTo(
      items: seq<Item>, i: nat, codes: set<string>, balances0: map<string, int>, journal0: seq<Leg>,
      balances: map<string, int>, journal: seq<Leg>)
    requires balances0.Keys == codes
  {
    && i <= |items|
    && Transfers(items[..i]) && Posted(Legs(items[..i], FEES in codes), codes)
    && journal == journal0 + Legs(items[..i], FEES in codes)
    && balances == MoveAll(balances0, Legs(items[..i], FEES in codes))
  }

  lemma {:induction false} PostedStart(
      items: seq<Item>, codes: set<string>, balances: map<string, int>, journal: seq<Leg>)
    requires balances.Keys == codes && Batch(List(items), codes).Ok?
    ensures PostedTo(items, 0, codes, balances, journal, balances, journal)
    ensures CheckAll(items, codes).Ok?
  {
    assert journal + [] == journal;
  }

  lemma {:induction false} PostedStep(
      items: seq<Item>, i: nat, codes: set<string>, balances0: map<string, int>, journal0: seq<Leg>,
      before: map<string, int>, entries: seq<Leg>, balances: map<string, int>, journal: seq<Leg>)
    requires balances0.Keys == codes && i < |items| && CheckAll(items, codes).Ok?
    requires PostedTo(items, i, codes, balances0, journal0, before, entries)
    requires Check(items[i], codes).Ok? && Posted(LegsOf(items[i], FEES in codes), codes)
    requires journal == entries + LegsOf(items[i], FEES in codes)
    requires balances == MoveAll(before, LegsOf(items[i], FEES in codes))
    ensures PostedTo(items, i + 1, codes, balances0, journal0, balances, journal)
  {
    hide Check, CheckAll, LegsOf, Legs, MoveAll, Posted;
    LegsStep(items, i, codes);
    MoveAllConcat(balances0, Legs(items[..i], FEES in codes), LegsOf(items[i], FEES in codes));
    assert (journal0 + Legs(items[..i], FEES in codes)) + LegsOf(items[i], FEES in codes)
        == journal0 + (Legs(items[..i], FEES in codes) + LegsOf(items[i], FEES in codes));
  }

  lemma {:induction false} PostedEnd(
      items: seq<Item>, codes: set<string>, balances0: map<string, int>, journal0: seq<Leg>,
      balances: map<string, int>, journal: seq<Leg>)
    requires balances0.Keys == codes && Batch(List(items), codes).Ok?
    requires PostedTo(items, |items|, codes, balances0, journal0, balances, journal)
    ensures journal == journal0 + Batch(List(items), codes).value
    ensures balances == MoveAll(balances0, Batch(List(items), codes).value)
  {
    hide Check, CheckAll, Legs, MoveAll, Posted;
    assert items[..|items|] == items;
  }

  lemma {:induction false} LegsStep(items: seq<Item>, i: nat, codes: set<string>)
    requires i < |items| && CheckAll(items, codes).Ok?
    ensures Check(items[i], codes).Ok?
    ensures Transfers(items[..i + 1])
    ensures Legs(items[..i + 1], FEES in codes) == Legs(items[..i], FEES in codes) + LegsOf(items[i], FEES in codes)
    ensures Posted(Legs(items[..i + 1], FEES in codes), codes)
  {
    CheckAllFindsFirst(items, codes);
    LegsPosted(items[..i + 1], codes);
    assert items[..i + 1][..i] == items[..i];
  }

  lemma {:induction false} CheckAllStops(items: seq<Item>, n: nat, codes: set<string>)
    requires n <= |items| && CheckAll(items[..n], codes).Fail?
    ensures CheckAll(items, codes) == CheckAll(items[..n], codes)
  {
    if n < |items| {
      var m := |items| - 1;
      assert items[..m][..n] == items[..n];
      CheckAllStops(items[..m], n, codes);
    } else {
      assert items[..n] == items;
    }
  }
}
