/** Birth turns, as both 50-turn generators record them, and the pigeonhole argument over them. */
module Births {
  import opened Sums

  /** All births lie before this turn, and from turn 1 on at most one name is born in any turn. */
  ghost predicate BirthsApart(born: map<string, nat>, turn: int) {
    && (forall n :: n in born ==> born[n] < turn)
    && (forall a, b :: a in born && b in born && born[a] == born[b] >= 1 ==> a == b)
  }

  lemma {:induction false} BirthsAfter(born: map<string, nat>, turn: nat, a: string, b: string)
    requires BirthsApart(born, turn)
    ensures BirthsApart(born, turn + 1)
    ensures BirthsApart(born - {a}, turn + 1)
    ensures turn >= 1 ==> BirthsApart(born[a := turn], turn + 1)
    ensures a in born ==> BirthsApart(Rekey(born, a, b), turn + 1)
  {
  }

  /** The names of a set that are at least `age` turns old. */
  function OlderThan(names: set<string>, born: map<string, nat>, turn: int, age: int): set<string> {
    set n | n in names && n in born && turn - born[n] >= age
  }

  /** The younger ones were born in different turns of an interval of age - 1 turns, so they are few. */
  lemma {:induction false} FewYoung(names: set<string>, born: map<string, nat>, turn: int, age: int)
    requires BirthsApart(born, turn) && names <= born.Keys && turn >= age + 1 >= 2
    ensures |OlderThan(names, born, turn, age)| >= |names| - (age - 1)
  {
    var older := OlderThan(names, born, turn, age);
    var young := names - older;
    var births := map n | n in born :: born[n] as int;
    assert forall n :: n in young ==> n in births && births[n] == born[n] && turn - age + 1 <= births[n] < turn;
    Pigeonhole(young, births, turn - age + 1, turn);
    assert older <= names;
    assert |young| == |names| - |older|;
  }
}
