/** The turn of each model call, as the spine probe and the census derive it from a run's report. */
module Turns {

  /** One entry of `per_turn`: the turn's number and how many calls it made. */
  datatype TurnCalls = TurnCalls(turn: int, calls: nat)

  /** `turn_of += [t["turn"]] * t["calls"]` */
  function TurnOf(perTurn: seq<TurnCalls>): seq<int> {
    if perTurn == [] then []
    else seq(perTurn[0].calls, i requires 0 <= i < perTurn[0].calls => perTurn[0].turn) + TurnOf(perTurn[1..])
  }

  /** Turns are numbered upwards. */
  predicate Numbered(perTurn: seq<TurnCalls>) {
    forall i, j :: 0 <= i < j < |perTurn| ==> perTurn[i].turn < perTurn[j].turn
  }

  /** How many calls the report accounts for. */
  function Calls(perTurn: seq<TurnCalls>): nat {
    if perTurn == [] then 0 else perTurn[0].calls + Calls(perTurn[1..])
  }

  /** Call i is the first one of its turn, counting off the calls turn by turn. */
  predicate Opens(perTurn: seq<TurnCalls>, i: nat) {
    perTurn != [] && if i < perTurn[0].calls then i == 0 else Opens(perTurn[1..], i - perTurn[0].calls)
  }

  lemma {:induction false} TurnOfMeans(perTurn: seq<TurnCalls>)
    ensures |TurnOf(perTurn)| == Calls(perTurn)
    ensures forall t :: t in TurnOf(perTurn) ==> exists k :: 0 <= k < |perTurn| && perTurn[k].turn == t
  {
    if perTurn != [] {
      TurnOfMeans(perTurn[1..]);
      forall t | t in TurnOf(perTurn)
        ensures exists k :: 0 <= k < |perTurn| && perTurn[k].turn == t
      {
        if t in TurnOf(perTurn[1..]) {
          var k :| 0 <= k < |perTurn[1..]| && perTurn[1..][k].turn == t;
          assert perTurn[k + 1].turn == t;
        } else {
          assert perTurn[0].turn == t;
        }
      }
    }
  }

  /** A change of turn number marks exactly the first call of each turn. */
  lemma {:induction false} ChangesAreOpenings(perTurn: seq<TurnCalls>, i: nat)
    requires Numbered(perTurn) && i < |TurnOf(perTurn)|
    ensures Opens(perTurn, i) <==> i == 0 || TurnOf(perTurn)[i - 1] != TurnOf(perTurn)[i]
  {
    var first, rest := perTurn[0], perTurn[1..];
    var n := first.calls;
    TurnOfMeans(rest);
    if i >= n {
      ChangesAreOpenings(rest, i - n);
      assert TurnOf(perTurn)[i] == TurnOf(rest)[i - n];
      assert i == n > 0 ==> TurnOf(perTurn)[i - 1] == first.turn;
      assert TurnOf(rest)[i - n] in TurnOf(rest);
    }
  }
}
