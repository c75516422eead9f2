/**
 * The overnight runner and the comparison that reads its results: which tasks count as done, which trial of a task is
 * kept, and how often a task is launched (evals/tbench/run_all.py, evals/tbench/compare.py).
 */
module Retry {
  import opened Options
  import opened Text

  /** What a trial directory holds in result.json. */
  datatype Verdict = NoFile | Unreadable | Reward(value: Option<real>)

  /** A trial directory; infra says that the verifier itself could not run. */
  datatype Trial = Trial(name: string, verdict: Verdict, infra: bool)

  /** `"__" in name` */
  predicate IsTrial(t: Trial) {
    Find(t.name, "__", 0) >= 0
  }

  /** `name.split("__")[0]` */
  function TaskOf(t: Trial): string
    requires IsTrial(t)
  {
    t.name[..Find(t.name, "__", 0)]
  }

  predicate HasReward(t: Trial) {
    t.verdict.Reward? && t.verdict.value.Some?
  }

  /** A clean verdict beats an infra-tainted one, which beats none. */
  function Score(t: Trial): int {
    if HasReward(t) && !t.infra then 2 else if HasReward(t) then 1 else 0
  }

  predicate IsTrialOf(t: Trial, task: string) {
    IsTrial(t) && TaskOf(t) == task
  }

  // ---------------------------------------------------------------------------------------- done tasks, kept trials

  ghost function Done(trials: seq<Trial>): set<string> {
    set i | 0 <= i < |trials| && IsTrial(trials[i]) && Score(trials[i]) == 2 :: TaskOf(trials[i])
  }

  /** The loop over the result files that exist. */
  method DoneTasks(trials: seq<Trial>) returns (done: set<string>)
    ensures done == Done(trials)
  {
    hide Find;
    done := {};
    for i := 0 to |trials|
      invariant done == Done(trials[..i])
    {
      DoneStep(trials[..i], trials[i]);
      assert trials[..i + 1] == trials[..i] + [trials[i]];
      if trials[i].verdict != NoFile && IsTrial(trials[i]) {
        var reward := if trials[i].verdict == Unreadable then None else trials[i].verdict.value;
        if reward != None && !trials[i].infra {
          done := done + {TaskOf(trials[i])};
        }
      }
    }
    assert trials[..|trials|] == trials;
  }

  lemma {:induction false} DoneStep(trials: seq<Trial>, t: Trial)
    ensures Done(trials + [t]) == Done(trials) + if IsTrial(t) && Score(t) == 2 then {TaskOf(t)} else {}
  {
    hide Find;
    var longer := trials + [t];
    forall task | task in Done(trials)
      ensures task in Done(longer)
    {
      var i :| 0 <= i < |trials| && IsTrial(trials[i]) && Score(trials[i]) == 2 && TaskOf(trials[i]) == task;
      assert longer[i] == trials[i];
    }
    assert longer[|trials|] == t;
  }

  /** More trials never make a task undone. */
  lemma {:induction false} DoneIsMonotone(trials: seq<Trial>, more: seq<Trial>)
    ensures Done(trials) <= Done(trials + more)
  {
    hide Find;
    forall task | task in Done(trials)
      ensures task in Done(trials + more)
    {
      var i :| 0 <= i < |trials| && IsTrial(trials[i]) && Score(trials[i]) == 2 && TaskOf(trials[i]) == task;
      assert (trials + more)[i] == trials[i];
    }
  }

  /** Among the trials of that task name, trial i is the last of the best-scoring ones. */
  predicate IsLastBest(trials: seq<Trial>, task: string, i: int) {
    && 0 <= i < |trials| && IsTrialOf(trials[i], task)
    && forall j :: 0 <= j < |trials| && IsTrialOf(trials[j], task) ==>
         Score(trials[j]) < Score(trials[i]) || (Score(trials[j]) == Score(trials[i]) && j <= i)
  }

  /** The kept trials: one for every task that has any, the last of the best. */
  ghost predicate IsKept(trials: seq<Trial>, kept: map<string, Trial>) {
    && (forall i :: 0 <= i < |trials| && IsTrial(trials[i]) ==> TaskOf(trials[i]) in kept)
    && (forall task :: task in kept ==> KeepsLastBest(trials, task, kept[task]))
  }

  ghost predicate KeepsLastBest(trials: seq<Trial>, task: string, t: Trial) {
    exists i :: IsLastBest(trials, task, i) && t == trials[i]
  }

  /** The loop over all trial directories: a trial at least as good as the kept one takes its place. */
  method CollectAll(trials: seq<Trial>) returns (kept: map<string, Trial>)
    ensures IsKept(trials, kept)
  {
    hide Find, IsKept;
    kept := map[];
    KeptStart();
    for i := 0 to |trials|
      invariant IsKept(trials[..i], kept)
    {
      KeptStep(trials[..i], kept, trials[i]);
      assert trials[..i + 1] == trials[..i] + [trials[i]];
      if IsTrial(trials[i]) {
        var task := TaskOf(trials[i]);
        if task !in kept || Score(trials[i]) >= Score(kept[task]) {
          kept := kept[task := trials[i]];
        }
      }
    }
    assert trials[..|trials|] == trials;
  }

  lemma KeptStart()
    ensures IsKept([], map[])
  {
  }

  lemma {:induction false} KeptStep(trials: seq<Trial>, kept: map<string, Trial>, t: Trial)
    requires IsKept(trials, kept)
    ensures !IsTrial(t) ==> IsKept(trials + [t], kept)
    ensures IsTrial(t) && (TaskOf(t) !in kept || Score(t) >= Score(kept[TaskOf(t)])) ==>
      IsKept(trials + [t], kept[TaskOf(t) := t])
    ensures IsTrial(t) && TaskOf(t) in kept && Score(t) < Score(kept[TaskOf(t)]) ==> IsKept(trials + [t], kept)
  {
    hide Find, TaskOf, IsTrial, Score, IsLastBest, KeepsLastBest;
    var longer := trials + [t];
    var wins := IsTrial(t) && (TaskOf(t) !in kept || Score(t) >= Score(kept[TaskOf(t)]));
    var next := if wins then kept[TaskOf(t) := t] else kept;
    EveryTaskKept(trials, kept, t, next);
    forall task | task in next
      ensures KeepsLastBest(longer, task, next[task])
    {
      if wins && task == TaskOf(t) {
        NewIsLastBest(trials, kept, t);
      } else {
        OldIsLastBest(trials, kept, t, task);
      }
    }
  }

  lemma {:induction false} EveryTaskKept(
      trials: seq<Trial>, kept: map<string, Trial>, t: Trial, next: map<string, Trial>)
    requires IsKept(trials, kept)
    requires kept.Keys <= next.Keys && (IsTrial(t) ==> TaskOf(t) in next)
    ensures forall i :: 0 <= i < |trials + [t]| && IsTrial((trials + [t])[i]) ==> TaskOf((trials + [t])[i]) in next
  {
    hide Find, TaskOf, IsTrial, Score;
  }

  /** A trial at least as good as the kept one is the last of the best. */
  lemma {:induction false} NewIsLastBest(trials: seq<Trial>, kept: map<string, Trial>, t: Trial)
    requires IsKept(trials, kept) && IsTrial(t)
    requires TaskOf(t) !in kept || Score(t) >= Score(kept[TaskOf(t)])
    ensures KeepsLastBest(trials + [t], TaskOf(t), t)
  {
    hide Find, TaskOf, IsTrial, Score;
    assert (trials + [t])[|trials|] == t;
    forall j | 0 <= j < |trials| && IsTrialOf(trials[j], TaskOf(t))
      ensures Score(trials[j]) <= Score(t)
    {
      var i :| IsLastBest(trials, TaskOf(t), i) && kept[TaskOf(t)] == trials[i];
    }
    assert IsLastBest(trials + [t], TaskOf(t), |trials|);
  }

  /** Otherwise the kept one still is. */
  lemma {:induction false} OldIsLastBest(trials: seq<Trial>, kept: map<string, Trial>, t: Trial, task: string)
    requires IsKept(trials, kept) && task in kept
    requires IsTrialOf(t, task) ==> Score(t) < Score(kept[task])
    ensures KeepsLastBest(trials + [t], task, kept[task])
  {
    hide Find, TaskOf, IsTrial, Score, IsTrialOf;
    var i :| IsLastBest(trials, task, i) && kept[task] == trials[i];
    LastBestStays(trials, t, task, i);
    assert (trials + [t])[i] == trials[i];
  }

  lemma {:induction false} LastBestStays(trials: seq<Trial>, t: Trial, task: string, i: int)
    requires IsLastBest(trials, task, i)
    requires IsTrialOf(t, task) ==> Score(t) < Score(trials[i])
    ensures IsLastBest(trials + [t], task, i)
  {
    hide Find, TaskOf, IsTrial, Score, IsTrialOf;
  }

  /**
   * The runner and the comparison agree: a task is done exactly when the kept trial has a clean verdict. They list the
   * directories separately, so only the trials have to be the same, not their order.
   */
  lemma {:induction false} DoneIsKeptClean(listed: seq<Trial>, visited: seq<Trial>, kept: map<string, Trial>, task: string)
    requires forall t :: t in listed <==> t in visited
    requires IsKept(visited, kept)
    ensures task in Done(listed) <==> task in kept && Score(kept[task]) == 2
  {
    hide Find, Score, TaskOf, IsTrial;
    if task in kept && Score(kept[task]) == 2 {
      var i :| IsLastBest(visited, task, i) && kept[task] == visited[i];
      assert visited[i] in listed;
      var j :| 0 <= j < |listed| && listed[j] == visited[i];
    }
    if task in Done(listed) {
      CleanTrialIsKept(listed, visited, kept, task);
    }
  }

  lemma {:induction false} CleanTrialIsKept(listed: seq<Trial>, visited: seq<Trial>, kept: map<string, Trial>, task: string)
    requires forall t :: t in listed <==> t in visited
    requires IsKept(visited, kept) && task in Done(listed)
    ensures task in kept && Score(kept[task]) == 2
  {
    hide Find, TaskOf, IsTrial;
    var j :| 0 <= j < |listed| && IsTrial(listed[j]) && Score(listed[j]) == 2 && TaskOf(listed[j]) == task;
    assert listed[j] in visited;
    var i :| 0 <= i < |visited| && visited[i] == listed[j];
    var best :| IsLastBest(visited, task, best) && kept[task] == visited[best];
    assert IsTrialOf(visited[i], task);
  }

  // ----------------------------------------------------------------------- the same, told without names and scores

  /** A directory named task, "__", anything: a trial of that task, if no "__" starts earlier. */
  lemma {:induction false} TrialNames(t: Trial, task: string, rest: string)
    requires t.name == task + "__" + rest
    requires forall i :: 0 <= i < |task| ==> !OccursAt(t.name, "__", i)
    ensures IsTrialOf(t, task)
  {
    assert t.name[|task|..|task| + 2] == "__";
    FindSkips(t.name, "__", 0, |task|);
    assert t.name[..|task|] == task;
  }

  /** The verifier ran and gave a reward. */
  predicate Clean(t: Trial) {
    t.verdict.Reward? && t.verdict.value.Some? && !t.infra
  }

  /** There is a reward, be it from a verifier that could not run properly. */
  predicate Rewarded(t: Trial) {
    t.verdict.Reward? && t.verdict.value.Some?
  }

  predicate Any(t: Trial) {
    true
  }

  predicate Has(trials: seq<Trial>, task: string, such: Trial -> bool) {
    exists i :: 0 <= i < |trials| && IsTrialOf(trials[i], task) && such(trials[i])
  }

  /** t is the last of the task's trials that are such. */
  predicate IsLast(trials: seq<Trial>, task: string, such: Trial -> bool, t: Trial) {
    exists i :: 0 <= i < |trials| && trials[i] == t && IsTrialOf(t, task) && such(t)
      && forall j :: i < j < |trials| && IsTrialOf(trials[j], task) ==> !such(trials[j])
  }

  /** The last with a clean verdict; without one the last with a reward; without any the last. */
  predicate IsBest(trials: seq<Trial>, task: string, t: Trial) {
    if Has(trials, task, Clean) then IsLast(trials, task, Clean, t)
    else if Has(trials, task, Rewarded) then IsLast(trials, task, Rewarded, t)
    else IsLast(trials, task, Any, t)
  }

  /** Done means that some trial of the task has a clean verdict. */
  lemma {:induction false} DoneMeans(trials: seq<Trial>, task: string)
    ensures task in Done(trials) <==> Has(trials, task, Clean)
  {
    hide Find;
    if Has(trials, task, Clean) {
      var i :| 0 <= i < |trials| && IsTrialOf(trials[i], task) && Clean(trials[i]);
      assert Score(trials[i]) == 2;
    }
  }

  /** For every task that has a trial the best is kept. */
  lemma {:induction false} KeptIsBest(trials: seq<Trial>, kept: map<string, Trial>, task: string)
    requires IsKept(trials, kept)
    ensures task in kept <==> Has(trials, task, Any)
    ensures task in kept ==>
      IsBest(trials, task, kept[task])
  {
    hide Find, TaskOf, IsTrial, Score, Has, IsBest;
    if task in kept {
      var i :| IsLastBest(trials, task, i) && kept[task] == trials[i];
      BestMeans(trials, task, i);
    } else {
      NoneKept(trials, kept, task);
    }
  }

  lemma {:induction false} NoneKept(trials: seq<Trial>, kept: map<string, Trial>, task: string)
    requires IsKept(trials, kept) && task !in kept
    ensures !Has(trials, task, Any)
  {
    hide Find, KeepsLastBest;
  }

  lemma {:induction false} BestMeans(trials: seq<Trial>, task: string, i: int)
    requires IsLastBest(trials, task, i)
    ensures Has(trials, task, Any)
    ensures IsBest(trials, task, trials[i])
  {
    hide Find, TaskOf, IsTrial, IsTrialOf;
    assert Any(trials[i]);
    if Has(trials, task, Clean) {
      var k :| 0 <= k < |trials| && IsTrialOf(trials[k], task) && Clean(trials[k]);
      assert Score(trials[k]) == 2;
    } else if Has(trials, task, Rewarded) {
      var k :| 0 <= k < |trials| && IsTrialOf(trials[k], task) && Rewarded(trials[k]);
      assert Score(trials[k]) >= 1;
    }
  }

  // -------------------------------------------------------------------------------------------------- retry rounds

  const MAX_ROUNDS: nat := 4
  const CHUNK: nat := 5

  /** `[t for t in tasks if t not in done]` */
  function Remaining(tasks: seq<string>, done: set<string>): seq<string> {
    if tasks == [] then []
    else
      var last := tasks[|tasks| - 1];
      Remaining(tasks[..|tasks| - 1], done) + if last in done then [] else [last]
  }

  /** One round: what was on disk when it began, and the chunks it launched. */
  datatype Round = Round(start: seq<Trial>, chunks: seq<seq<string>>)

  function Launched(chunks: seq<seq<string>>): seq<string> {
    if chunks == [] then [] else Launched(chunks[..|chunks| - 1]) + chunks[|chunks| - 1]
  }

  /** Full chunks, but for a shorter last one; none is empty. */
  predicate WellChunked(chunks: seq<seq<string>>) {
    forall i :: 0 <= i < |chunks| ==> 0 < |chunks[i]| <= CHUNK && (i < |chunks| - 1 ==> |chunks[i]| == CHUNK)
  }

  /** The disk only ever gains trials. */
  predicate Grew(log: seq<Round>, disk: seq<Trial>) {
    && (forall r :: 0 <= r < |log| ==> log[r].start <= disk)
    && (forall r, q :: 0 <= r <= q < |log| ==> log[r].start <= log[q].start)
  }

  /** Each round launches exactly the tasks not done when it began. */
  ghost predicate LaunchesRemaining(tasks: seq<string>, log: seq<Round>) {
    forall r :: 0 <= r < |log| ==>
      && WellChunked(log[r].chunks)
      && Launched(log[r].chunks) == Remaining(tasks, Done(log[r].start)) != []
  }

  /**
   * The retry loop. What a launch leaves on disk is not known, save that nothing is removed; a chunk that ends early
   * leaves fewer trials.
   */
  method RunAgent(tasks: seq<string>, before: seq<Trial>)
    returns (disk: seq<Trial>, ghost log: seq<Round>, missing: seq<string>)
    ensures |log| <= 4
    ensures Grew(log, disk) && before <= disk
    ensures LaunchesRemaining(tasks, log)
    ensures missing == Remaining(tasks, Done(disk))
    ensures |log| < 4 ==> missing == []
  {
    hide Done, Remaining, WellChunked, Launched;
    disk, log := before, [];
    for round := 0 to MAX_ROUNDS
      invariant |log| == round
      invariant Grew(log, disk) && before <= disk
      invariant LaunchesRemaining(tasks, log)
    {
      var done := DoneTasks(disk);
      var remaining := Remaining(tasks, done);
      if remaining == [] {
        missing := [];
        return;
      }
      ghost var start := disk;
      ghost var chunks;
      disk, chunks := RunRound(remaining, disk);
      log := log + [Round(start, chunks)];
    }
    var done := DoneTasks(disk);
    missing := Remaining(tasks, done);
  }

  /** One round: the remaining tasks, five at a time. */
  method RunRound(remaining: seq<string>, before: seq<Trial>)
    returns (disk: seq<Trial>, ghost chunks: seq<seq<string>>)
    ensures before <= disk
    ensures WellChunked(chunks) && Launched(chunks) == remaining
  {
    hide WellChunked, Launched;
    disk, chunks := before, [];
    var i := 0;
    ChunksStart(remaining);
    while i < |remaining|
      invariant 0 <= i
      invariant before <= disk
      invariant ChunkedTo(remaining, chunks, i)
    {
      var end := if i + CHUNK < |remaining| then i + CHUNK else |remaining|;
      var chunk := remaining[i..end];
      ChunkAdded(remaining, chunks, i);
      disk := Harbor(chunk, disk);
      chunks := chunks + [chunk];
      i := i + CHUNK;
    }
    assert remaining[..|remaining|] == remaining;
  }

  /** The chunks hold the first i tasks, in full chunks if any task is left. */
  predicate ChunkedTo(remaining: seq<string>, chunks: seq<seq<string>>, i: nat) {
    var n := if i <= |remaining| then i else |remaining|;
    && Launched(chunks) == remaining[..n]
    && WellChunked(chunks)
    && (i < |remaining| ==> forall c :: 0 <= c < |chunks| ==> |chunks[c]| == CHUNK)
  }

  lemma {:induction false} ChunksStart(remaining: seq<string>)
    ensures ChunkedTo(remaining, [], 0)
  {
  }

  lemma {:induction false} ChunkAdded(remaining: seq<string>, chunks: seq<seq<string>>, i: nat)
    requires i < |remaining| && ChunkedTo(remaining, chunks, i)
    ensures var end := if i + CHUNK < |remaining| then i + CHUNK else |remaining|;
      ChunkedTo(remaining, chunks + [remaining[i..end]], i + CHUNK)
  {
    var end := if i + CHUNK < |remaining| then i + CHUNK else |remaining|;
    LaunchedSnoc(chunks, remaining[i..end]);
    hide Launched;
    assert remaining[..end] == remaining[..i] + remaining[i..end];
  }

  lemma {:induction false} LaunchedSnoc(chunks: seq<seq<string>>, chunk: seq<string>)
    ensures Launched(chunks + [chunk]) == Launched(chunks) + chunk
  {
    assert (chunks + [chunk])[..|chunks|] == chunks;
  }

  /** A launch of the external runner: it may add any trials. */
  method Harbor(chunk: seq<string>, before: seq<Trial>) returns (disk: seq<Trial>)
    ensures before <= disk
  {
    var added: seq<Trial> := *;
    disk := before + added;
  }

  /** How often a task is launched. */
  function Launches(log: seq<Round>, task: string): nat {
    if log == [] then 0
    else Launches(log[..|log| - 1], task) + multiset(Launched(log[|log| - 1].chunks))[task]
  }

  lemma {:induction false} RemainingCount(tasks: seq<string>, done: set<string>, task: string)
    ensures multiset(Remaining(tasks, done))[task] == if task in done then 0 else multiset(tasks)[task]
  {
    if tasks != [] {
      var init, last := tasks[..|tasks| - 1], tasks[|tasks| - 1];
      RemainingCount(init, done, task);
      RemainingSnoc(tasks, done);
      hide Remaining;
      CountSnoc(init, last, task);
      CountSnoc(Remaining(init, done), last, task);
    }
  }

  lemma {:induction false} RemainingSnoc(tasks: seq<string>, done: set<string>)
    requires tasks != []
    ensures var init, last := tasks[..|tasks| - 1], tasks[|tasks| - 1];
      && tasks == init + [last]
      && Remaining(tasks, done) == if last in done then Remaining(init, done) else Remaining(init, done) + [last]
  {
  }

  lemma {:induction false} CountSnoc(xs: seq<string>, x: string, task: string)
    ensures multiset(xs + [x])[task] == multiset(xs)[task] + if x == task then 1 else 0
  {
  }

  /** A task listed once is launched once in every round that began before it was done, and in no other. */
  lemma {:induction false} LaunchedWhileNotDone(tasks: seq<string>, log: seq<Round>, r: nat, task: string)
    requires LaunchesRemaining(tasks, log) && r < |log|
    ensures multiset(Launched(log[r].chunks))[task] == if task in Done(log[r].start) then 0 else multiset(tasks)[task]
  {
    hide Done, Launched;
    RemainingCount(tasks, Done(log[r].start), task);
  }

  /** Once a task is done it is never launched again. */
  lemma {:induction false} DoneIsNotRelaunched(tasks: seq<string>, log: seq<Round>, disk: seq<Trial>, r: nat, q: nat, task: string)
    requires LaunchesRemaining(tasks, log) && Grew(log, disk)
    requires r <= q < |log| && task in Done(log[r].start)
    ensures task !in Launched(log[q].chunks)
  {
    hide Done, Launched;
    var more := log[q].start[|log[r].start|..];
    assert log[r].start + more == log[q].start;
    DoneIsMonotone(log[r].start, more);
    LaunchedWhileNotDone(tasks, log, q, task);
  }

  /** No task is launched more than once per round, so a task listed once is launched at most four times. */
  lemma {:induction false} LaunchBound(tasks: seq<string>, log: seq<Round>, task: string)
    requires LaunchesRemaining(tasks, log)
    ensures Launches(log, task) <= |log| * multiset(tasks)[task]
  {
    hide Done, Launched, Launches, LaunchesRemaining;
    if log == [] {
      LaunchesOfNothing(task);
    } else {
      EarlierRounds(tasks, log);
      LaunchBound(tasks, log[..|log| - 1], task);
      LaunchedWhileNotDone(tasks, log, |log| - 1, task);
      LaunchesUnfold(log, task);
      OneMore(|log|, multiset(tasks)[task]);
    }
  }

  lemma {:induction false} LaunchesOfNothing(task: string)
    ensures Launches([], task) == 0
  {
  }

  lemma {:induction false} LaunchesUnfold(log: seq<Round>, task: string)
    requires log != []
    ensures Launches(log, task)
         == Launches(log[..|log| - 1], task) + multiset(Launched(log[|log| - 1].chunks))[task]
  {
  }

  lemma {:induction false} EarlierRounds(tasks: seq<string>, log: seq<Round>)
    requires LaunchesRemaining(tasks, log) && log != []
    ensures LaunchesRemaining(tasks, log[..|log| - 1])
  {
    hide Done, Launched, Remaining, WellChunked;
  }

  lemma {:induction false} OneMore(n: nat, m: nat)
    requires n > 0
    ensures (n - 1) * m + m == n * m
  {
  }

  /** The chunks of a round are its list cut after every fifth task. */
  lemma {:induction false} FiveAtATime(chunks: seq<seq<string>>, i: nat)
    requires WellChunked(chunks) && i < |chunks|
    ensures var tasks := Launched(chunks);
      && 5 * i < |tasks| <= 5 * |chunks|
      && chunks[i] == tasks[5 * i..if 5 * i + 5 < |tasks| then 5 * i + 5 else |tasks|]
  {
    var n := |chunks| - 1;
    var before := Launched(chunks[..n]);
    FullChunks(chunks[..n]);
    if i < n {
      FiveAtATime(chunks[..n], i);
      assert Launched(chunks)[5 * i..5 * i + 5] == before[5 * i..5 * i + 5];
    } else {
      assert Launched(chunks)[5 * n..] == chunks[n];
    }
  }

  lemma {:induction false} FullChunks(chunks: seq<seq<string>>)
    requires forall i :: 0 <= i < |chunks| ==> |chunks[i]| == CHUNK
    ensures |Launched(chunks)| == 5 * |chunks|
  {
    if chunks != [] {
      FullChunks(chunks[..|chunks| - 1]);
    }
  }

  /** The remaining tasks keep the order in which they are listed. */
  lemma {:induction false} RemainingConcat(xs: seq<string>, ys: seq<string>, done: set<string>)
    ensures Remaining(xs + ys, done) == Remaining(xs, done) + Remaining(ys, done)
  {
    if ys == [] {
      assert xs + ys == xs;
    } else {
      assert (xs + ys)[..|xs + ys| - 1] == xs + ys[..|ys| - 1];
      RemainingConcat(xs, ys[..|ys| - 1], done);
    }
  }
}
