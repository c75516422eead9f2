/**
 * The webhook deduper of the payments service (benchmarks/subagent_fanout.py): it forgets an event id once it is a
 * window old, and is compared with a log of all calls that never forgets. Clock readings are real numbers.
 */
module Dedupe {

  /** WEBHOOK_DEDUPE_WINDOW_SECONDS */
  const WINDOW: real := 86400.0

  /** One call of is_duplicate and whether it accepted the id. */
  datatype Call = Call(id: string, now: real, accepted: bool)

  /** The acceptance made by call i has survived the evictions of every later call. */
  ghost predicate Kept(calls: seq<Call>, i: int) {
    && 0 <= i < |calls|
    && calls[i].accepted
    && forall j :: i < j < |calls| ==> calls[j].now - WINDOW <= calls[i].now
  }

  /** The answer for any clock: some acceptance of the id has outlived every later reading, this one included. */
  ghost predicate Duplicate(calls: seq<Call>, id: string, now: real) {
    exists i :: Kept(calls, i) && calls[i].id == id && now - WINDOW <= calls[i].now
  }

  /** The id was accepted within the last window. */
  ghost predicate AcceptedInWindow(calls: seq<Call>, id: string, now: real) {
    exists i :: 0 <= i < |calls| && calls[i].accepted && calls[i].id == id && now - WINDOW <= calls[i].now
  }

  /** A log that the deduper can produce. */
  ghost predicate Logged(calls: seq<Call>) {
    forall k :: 0 <= k < |calls| ==> calls[k].accepted == !Duplicate(calls[..k], calls[k].id, calls[k].now)
  }

  /** The clock never went back, up to and including the reading `now`. */
  ghost predicate Forward(calls: seq<Call>, now: real) {
    && (forall i, j :: 0 <= i <= j < |calls| ==> calls[i].now <= calls[j].now)
    && (forall i :: 0 <= i < |calls| ==> calls[i].now <= now)
  }

  /** With a clock that never goes back, forgetting is invisible: the deduper answers as the full log would. */
  lemma {:induction false} ForgettingIsInvisible(calls: seq<Call>, id: string, now: real)
    requires Forward(calls, now)
    ensures Duplicate(calls, id, now) <==> AcceptedInWindow(calls, id, now)
  {
    if AcceptedInWindow(calls, id, now) {
      var i :| 0 <= i < |calls| && calls[i].accepted && calls[i].id == id && now - WINDOW <= calls[i].now;
      assert Kept(calls, i);
    }
  }

  /** After call i the clock once read more than a window past it, although it now reads within the window. */
  ghost predicate ClockOvershot(calls: seq<Call>, i: int, now: real)
    requires 0 <= i < |calls|
  {
    exists j :: i < j < |calls| && calls[j].now > calls[i].now + WINDOW >= now
  }

  /**
   * For any clock: a positive answer is right, and the answers differ exactly when the clock overshot every acceptance
   * of the id that lies in the window, and so has gone back since.
   */
  lemma {:induction false} MissesExactly(calls: seq<Call>, id: string, now: real)
    ensures Duplicate(calls, id, now) ==> AcceptedInWindow(calls, id, now)
    ensures !Duplicate(calls, id, now) <==>
      forall i :: 0 <= i < |calls| && calls[i].accepted && calls[i].id == id && now - WINDOW <= calls[i].now ==>
        ClockOvershot(calls, i, now)
  {
    forall i | 0 <= i < |calls| && calls[i].accepted && calls[i].id == id && now - WINDOW <= calls[i].now
      ensures Kept(calls, i) <==> !ClockOvershot(calls, i, now)
    {
      if !Kept(calls, i) {
        var j :| i < j < |calls| && calls[j].now - WINDOW > calls[i].now;
      }
    }
  }

  /** The window is a day: exactly a day later an event is still a duplicate, any later it is not. */
  lemma {:induction false} WindowIsADay(id: string, first: real, now: real)
    ensures Logged([Call(id, first, true)])
    ensures Duplicate([Call(id, first, true)], id, now) <==> now - first <= 24.0 * 60.0 * 60.0
  {
    var calls := [Call(id, first, true)];
    assert calls[..0] == [];
    assert !Duplicate([], id, first);
    assert Kept(calls, 0);
  }

  /** Two acceptances of one id are always more than the window apart. */
  lemma {:induction false} AcceptancesAreApart(calls: seq<Call>, i: nat, k: nat, now: real)
    requires Logged(calls) && Forward(calls, now)
    requires i < k < |calls| && calls[i].accepted && calls[k].accepted && calls[i].id == calls[k].id
    ensures calls[k].now > calls[i].now + WINDOW
  {
    var before := calls[..k];
    assert before[i] == calls[i];
    ForgettingIsInvisible(before, calls[k].id, calls[k].now);
  }

  /** When the clock goes back the promise fails: "a" is accepted twice at the same instant. */
  lemma ClockGoesBack()
    ensures var calls := [Call("a", 0.0, true), Call("b", WINDOW + 1.0, true), Call("a", 0.0, true)];
      Logged(calls) && AcceptedInWindow(calls[..2], "a", 0.0)
  {
    var calls := [Call("a", 0.0, true), Call("b", WINDOW + 1.0, true), Call("a", 0.0, true)];
    assert calls[..2][0] == calls[0] && calls[..2][1] == calls[1];
    assert !Kept(calls[..2], 0);
    assert calls[..1] == [calls[0]];
    assert !Duplicate(calls[..1], "b", WINDOW + 1.0);
    assert !Duplicate(calls[..2], "a", 0.0);
    assert !Duplicate(calls[..0], "a", 0.0);
  }

  /** The map holds exactly the kept acceptances. */
  ghost predicate Holds(seen: map<string, real>, calls: seq<Call>) {
    && (forall i :: Kept(calls, i) ==> calls[i].id in seen && seen[calls[i].id] == calls[i].now)
    && (forall id :: id in seen ==> exists i :: Kept(calls, i) && calls[i].id == id)
  }

  function Evicted(seen: map<string, real>, now: real): map<string, real> {
    map id | id in seen && seen[id] >= now - WINDOW :: seen[id]
  }

  lemma {:induction false} KeptStep(calls: seq<Call>, call: Call, i: int)
    ensures Kept(calls + [call], i) <==>
      (Kept(calls, i) && call.now - WINDOW <= calls[i].now) || (i == |calls| && call.accepted)
  {
    var longer := calls + [call];
    assert longer[..|calls|] == calls;
    assert forall j :: 0 <= j < |calls| ==> longer[j] == calls[j];
    assert longer[|calls|] == call;
  }

  /** After eviction the map answers the question. */
  lemma {:induction false} EvictedAnswers(seen: map<string, real>, calls: seq<Call>, id: string, now: real)
    requires Holds(seen, calls)
    ensures id in Evicted(seen, now) <==> Duplicate(calls, id, now)
  {
    if id in Evicted(seen, now) {
      var i :| Kept(calls, i) && calls[i].id == id;
    }
  }

  lemma {:induction false} HoldsStep(seen: map<string, real>, calls: seq<Call>, id: string, now: real)
    requires Holds(seen, calls)
    ensures var kept := Evicted(seen, now);
      Holds(if id in kept then kept else kept[id := now], calls + [Call(id, now, id !in kept)])
  {
    var kept := Evicted(seen, now);
    var call := Call(id, now, id !in kept);
    var next := if id in kept then kept else kept[id := now];
    forall i | Kept(calls + [call], i)
      ensures (calls + [call])[i].id in next && next[(calls + [call])[i].id] == (calls + [call])[i].now
    {
      KeptStep(calls, call, i);
    }
    forall x | x in next
      ensures exists i :: Kept(calls + [call], i) && (calls + [call])[i].id == x
    {
      if x in kept {
        var i :| Kept(calls, i) && calls[i].id == x;
        KeptStep(calls, call, i);
        assert (calls + [call])[i].id == x;
      } else {
        KeptStep(calls, call, |calls|);
        assert (calls + [call])[|calls|].id == x;
      }
    }
  }

  class WebhookDeduper {
    var seen: map<string, real>
    ghost var calls: seq<Call>

    ghost predicate Valid()
      reads this
    {
      Logged(calls) && Holds(seen, calls)
    }

    constructor ()
      ensures Valid() && calls == []
    {
      seen, calls := map[], [];
    }

    /** Drops the entries older than the window, one key at a time. */
    method Evict(now: real)
      modifies this`seen
      ensures seen == Evicted(old(seen), now)
    {
      var cutoff := now - WINDOW;
      var stale := set id | id in seen && seen[id] < cutoff;
      while stale != {}
        invariant stale <= seen.Keys <= old(seen).Keys
        invariant forall id :: id in seen ==> seen[id] == old(seen)[id]
        invariant forall id :: id in stale ==> seen[id] < cutoff
        invariant forall id :: id in old(seen) && id !in stale ==> (id in seen <==> old(seen)[id] >= cutoff)
        decreases |stale|
      {
        var id :| id in stale;
        seen, stale := seen - {id}, stale - {id};
      }
    }

    /** True if the id was accepted inside the window. */
    method IsDuplicate(id: string, now: real) returns (dup: bool)
      requires Valid()
      modifies this
      ensures Valid()
      ensures dup == Duplicate(old(calls), id, now)
      ensures calls == old(calls) + [Call(id, now, !dup)]
    {
      EvictedAnswers(seen, calls, id, now);
      HoldsStep(seen, calls, id, now);
      LoggedStep(calls, id, now);
      Evict(now);
      dup := id in seen;
      if !dup {
        seen := seen[id := now];
      }
      calls := calls + [Call(id, now, !dup)];
    }
  }

  lemma {:induction false} LoggedStep(calls: seq<Call>, id: string, now: real)
    requires Logged(calls)
    ensures Logged(calls + [Call(id, now, !Duplicate(calls, id, now))])
  {
    var longer := calls + [Call(id, now, !Duplicate(calls, id, now))];
    forall k | 0 <= k < |longer|
      ensures longer[k].accepted == !Duplicate(longer[..k], longer[k].id, longer[k].now)
    {
      assert longer[..k] == if k < |calls| then calls[..k] else calls;
    }
  }

  datatype Outcome = Skipped | Processed

  /** An event without an id is skipped and never reaches the deduper; otherwise it is processed unless a duplicate. */
  method Handle(deduper: WebhookDeduper, id: string, now: real) returns (r: Outcome)
    requires deduper.Valid()
    modifies deduper
    ensures deduper.Valid()
    ensures r == Processed <==> id != "" && !Duplicate(old(deduper.calls), id, now)
    ensures Forward(old(deduper.calls), now) ==>
      (r == Processed <==> id != "" && !AcceptedInWindow(old(deduper.calls), id, now))
    ensures deduper.calls == old(deduper.calls) + if id == "" then [] else [Call(id, now, r == Processed)]
  {
    if Forward(deduper.calls, now) {
      ForgettingIsInvisible(deduper.calls, id, now);
    }
    if id == "" {
      return Skipped;
    }
    var dup := deduper.IsDuplicate(id, now);
    r := if dup then Skipped else Processed;
  }
}
