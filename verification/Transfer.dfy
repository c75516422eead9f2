/**
 * The reference account and transfer of the "ledger-green" scenario (evals/hardbench/selftest.py). Amounts arrive as
 * text and are read by parse_amount, so any operation can also fail on the text.
 */
module Transfer {
  import opened Options
  import Money

  datatype Entry = Deposit(cents: int) | Withdraw(cents: int)

  datatype Result = Ok(cents: int) | ValueError | InsufficientFunds(shown: string)

  /** What a history of entries does to a balance. */
  function NetHistory(history: seq<Entry>): int {
    if history == [] then 0
    else NetHistory(history[..|history| - 1]) + Effect(history[|history| - 1])
  }

  function Effect(entry: Entry): int {
    match entry
    case Deposit(cents) => cents
    case Withdraw(cents) => -cents
  }

  /** Entries accumulate: a history splits into a past and a future whose effects add up. */
  lemma {:induction false} NetHistoryConcat(xs: seq<Entry>, ys: seq<Entry>)
    ensures NetHistory(xs + ys) == NetHistory(xs) + NetHistory(ys)
  {
    if ys == [] {
      assert xs + ys == xs;
    } else {
      assert (xs + ys)[..|xs + ys| - 1] == xs + ys[..|ys| - 1];
      NetHistoryConcat(xs, ys[..|ys| - 1]);
    }
  }

  /** Replaying each entry from an opening balance: every withdrawal was covered when it was made. */
  predicate Covered(opening: int, history: seq<Entry>) {
    forall i :: 0 <= i < |history| && history[i].Withdraw? ==>
      history[i].cents <= opening + NetHistory(history[..i])
  }

  lemma {:induction false} Extend(opening: int, history: seq<Entry>, entry: Entry)
    requires Covered(opening, history)
    requires entry.Withdraw? ==> entry.cents <= opening + NetHistory(history)
    ensures Covered(opening, history + [entry])
    ensures NetHistory(history + [entry]) == NetHistory(history) + Effect(entry)
  {
    var longer := history + [entry];
    assert longer[..|history|] == history;
    forall i | 0 <= i < |longer| && longer[i].Withdraw?
      ensures longer[i].cents <= opening + NetHistory(longer[..i])
    {
      assert i < |history| ==> longer[..i] == history[..i] && longer[i] == history[i];
    }
  }

  class Account {
    ghost const opening: int
    var balance: int
    var history: seq<Entry>

    /** The history explains the balance, and no withdrawal in it exceeded the balance of its day. */
    ghost predicate Valid()
      reads this
    {
      balance == opening + NetHistory(history) && Covered(opening, history)
    }

    constructor (cents: int)
      ensures Valid() && balance == opening == cents && history == []
    {
      opening, balance, history := cents, cents, [];
    }

    method Deposit(amount: string) returns (r: Result)
      requires Valid()
      modifies this
      ensures Valid()
      ensures r == match Money.ParseAmount(amount) case None => ValueError case Some(cents) => Ok(cents)
      ensures r.Ok? ==> balance == old(balance) + r.cents && history == old(history) + [Entry.Deposit(r.cents)]
      ensures !r.Ok? ==> balance == old(balance) && history == old(history)
    {
      var parsed := Money.ParseAmount(amount);
      if parsed == None {
        return ValueError;
      }
      Extend(opening, history, Entry.Deposit(parsed.value));
      balance := balance + parsed.value;
      history := history + [Entry.Deposit(parsed.value)];
      return Ok(parsed.value);
    }

    method Withdraw(amount: string) returns (r: Result)
      requires Valid()
      modifies this
      ensures Valid()
      ensures r == match Money.ParseAmount(amount)
        case None => ValueError
        case Some(cents) => if cents > old(balance) then InsufficientFunds(Money.Format(old(balance))) else Ok(cents)
      ensures r.Ok? ==> balance == old(balance) - r.cents && history == old(history) + [Entry.Withdraw(r.cents)]
      ensures !r.Ok? ==> balance == old(balance) && history == old(history)
    {
      var parsed := Money.ParseAmount(amount);
      if parsed == None {
        return ValueError;
      }
      if parsed.value > balance {
        return InsufficientFunds(Money.Format(balance));
      }
      Extend(opening, history, Entry.Withdraw(parsed.value));
      balance := balance - parsed.value;
      history := history + [Entry.Withdraw(parsed.value)];
      return Ok(parsed.value);
    }
  }

  /**
   * Withdraw first, deposit second. It succeeds exactly when the text is an amount that the source covers; a failure
   * leaves no trace in either account; a success moves the money, and moves it back when both are one account.
   */
  method TransferBetween(src: Account, dst: Account, amount: string) returns (r: Result)
    requires src.Valid() && dst.Valid()
    modifies src, dst
    ensures src.Valid() && dst.Valid()
    ensures r == match Money.ParseAmount(amount)
      case None => ValueError
      case Some(cents) =>
        if cents > old(src.balance) then InsufficientFunds(Money.Format(old(src.balance))) else Ok(cents)
    ensures !r.Ok? ==>
      && src.balance == old(src.balance) && src.history == old(src.history)
      && dst.balance == old(dst.balance) && dst.history == old(dst.history)
    ensures r.Ok? && src != dst ==>
      && src.balance == old(src.balance) - r.cents && src.history == old(src.history) + [Entry.Withdraw(r.cents)]
      && dst.balance == old(dst.balance) + r.cents && dst.history == old(dst.history) + [Entry.Deposit(r.cents)]
    ensures r.Ok? && src == dst ==>
      && src.balance == old(src.balance)
      && src.history == old(src.history) + [Entry.Withdraw(r.cents), Entry.Deposit(r.cents)]
    ensures src.balance + dst.balance == old(src.balance + dst.balance)
  {
    hide Money.ParseAmount, Money.Format;
    r := src.Withdraw(amount);
    if r.Ok? {
      r := dst.Deposit(amount);
    }
  }
}
