/** The AgentV3 step loop and the classification of its exit.

    Step execution, repair planning, follow-up choice and the Dream experiment are whatever
    the environment answers in a turn; the loop's own branches, counters and queue moves
    are exact.  Logs of what was executed, recorded, replaced, discarded and added make the
    conservation laws sayable. */
module AgentLoop {
  import opened Options

  datatype Step = Step(id: nat, dream: bool)

  datatype Pause = TimeBudgetExceeded | BudgetOrIterationLimit | RepairPendingApproval | EffectUncertain | StalledWithoutProgress

  datatype Blocker = ByTool | ByDreamLoop

  datatype Status = Running | Paused(pause: Pause) | Blocked(who: Blocker) | Completed

  datatype Reason =
    | EndOfPlan | MaxSteps | MaxIterations | TimeBudget | Stalled | EmergencyStop
    | BlockedStep | BlockedDreamLoop | AwaitingRepairApproval | AwaitingEffectVerdict | Incomplete

  // ---------------------------------------------------------------- the bounded step history

  const RING: nat := 32

  /** Reports held, and reports dropped into the tallies. */
  datatype History = History(held: nat, dropped: nat)

  /** `stepHistoryCount`. */
  function Count(h: History): nat { h.held + h.dropped }

  /** `pushStepReport`. */
  function Push(h: History): History {
    if h.held + 1 <= RING then History(h.held + 1, h.dropped)
    else History(RING, h.dropped + (h.held + 1 - RING))
  }

  // ---------------------------------------------------------------- one turn

  datatype Config = Config(maxSteps: int, maxIterations: int)

  /** What executing a step reports. */
  datatype Report =
    | Uncertain
    | Report(blocked: bool, failed: bool, emergency: bool, repair: Option<Step>)

  datatype Dream = Dream(next: Option<Step>, blocked: bool)

  /** What the environment answers in one turn: the clock, the scheduler's order, the step's
      report, whether progress stalled, what the Dream experiment did with the step if it
      handled it, the follow-up chosen, and whether the checkpoint is refused. */
  datatype Turn = Turn(late: bool, order: seq<Step>, report: Report, stalled: bool,
                       dream: Option<Dream>, followUp: Option<Step>, saveFails: bool)

  datatype Log = Log(executed: seq<Step>, recorded: seq<Step>, replaced: seq<Step>, discarded: seq<Step>, added: seq<Step>)

  datatype Halt = Going | Broke | StorageFailed

  datatype Run = Run(queue: seq<Step>, history: History, iteration: nat, status: Status, pending: Option<nat>,
                     stalledCount: nat, failed: bool, emergency: bool, halt: Halt, log: Log)

  predicate Guard(s: Run, c: Config) {
    s.halt == Going && s.queue != [] && s.history.held < c.maxSteps && s.iteration < c.maxIterations
  }

  /** The scheduler only ever applies a permutation, and not while a repair is pending. */
  function Ordered(s: Run, t: Turn): (q: seq<Step>)
    ensures multiset(q) == multiset(s.queue) && |q| == |s.queue|
  {
    if s.pending == None && multiset(t.order) == multiset(s.queue)
    then assert |multiset(t.order)| == |t.order| && |multiset(s.queue)| == |s.queue|; t.order
    else s.queue
  }

  function Stop(s: Run, p: Pause): Run { s.(status := Paused(p), halt := Broke) }

  /** `queueFollowUp` after `shouldForceDream`, for the queue that `force` was decided on. */
  function FollowUp(s: Run, c: Config, force: bool, followUp: Option<Step>): Run {
    if force then Enqueue(s, Some(Step(Count(s.history) + 1, true)))
    else if followUp == None || Count(s.history) >= c.maxSteps then s
    else Enqueue(s, followUp)
  }

  function Enqueue(s: Run, step: Option<Step>): Run {
    if step == None then s
    else s.(queue := [step.value] + s.queue, log := s.log.(added := s.log.added + [step.value]))
  }

  /** A step that was shifted off the queue is recorded, and progress noted. */
  function Noted(s: Run, t: Turn, step: Step, rest: seq<Step>): Run
    requires t.report.Report?
  {
    s.(queue := rest, history := Push(s.history), iteration := s.iteration + 1,
       stalledCount := if t.stalled then s.stalledCount + 1 else 0,
       failed := t.report.failed, emergency := t.report.emergency,
       log := s.log.(recorded := s.log.recorded + [step], executed := s.log.executed + [step]))
  }

  /** `shouldForceDream`. */
  predicate Forced(s: Run, c: Config) {
    s.stalledCount >= 2 && Count(s.history) < c.maxSteps && forall x | x in s.queue :: !x.dream
  }

  /** What is queued after a recorded step: by the Dream experiment if it handled the step,
      else by stalling or by the step's own follow-up. */
  function Continued(s: Run, c: Config, t: Turn): Run {
    if t.dream.Some? then DreamTurn(s, c, t.dream.value) else FollowUp(s, c, Forced(s, c), t.followUp)
  }

  /** The checkpoint, then the stop for stalled progress. */
  function Checkpointed(s: Run, t: Turn): Run {
    if t.saveFails then s.(halt := StorageFailed)
    else if s.queue != [] && s.stalledCount >= 4 then Stop(s, StalledWithoutProgress)
    else s
  }

  /** The loop's body once the step's report is recorded. */
  function Recorded(s: Run, c: Config, t: Turn, step: Step, rest: seq<Step>): Run
    requires t.report.Report?
  {
    var s1 := Noted(s, t, step, rest);
    if t.report.blocked then s1.(status := Blocked(ByTool), halt := Broke)
    else Checkpointed(Continued(s1, c, t), t)
  }

  /** A step that the Dream experiment handled. */
  function DreamTurn(s: Run, c: Config, d: Dream): Run {
    var s1 := if s.history.held < c.maxSteps then Enqueue(s, d.next) else s;
    if d.blocked
    then s1.(status := Blocked(ByDreamLoop), queue := [], log := s1.log.(discarded := s1.log.discarded + s1.queue))
    else s1
  }

  /** One turn of the queue loop. */
  function Iterate(s: Run, c: Config, t: Turn): Run
    requires s.queue != []
  {
    if t.late then Stop(s, TimeBudgetExceeded)
    else
      var q := Ordered(s, t);
      var step, rest := q[0], q[1..];
      if s.pending == Some(step.id) then Stop(s, RepairPendingApproval)
      else if t.report.Uncertain? then
        Stop(s, EffectUncertain).(queue := q, log := s.log.(executed := s.log.executed + [step]))
      else if !t.report.blocked && t.report.repair.Some? then
        var repair := t.report.repair.value;
        s.(queue := [repair] + rest, iteration := s.iteration + 1, pending := Some(repair.id),
           log := s.log.(executed := s.log.executed + [step], replaced := s.log.replaced + [step], added := s.log.added + [repair]))
      else Recorded(s, c, t, step, rest)
  }

  /** The whole loop; `env` answers the turn made at each iteration count. */
  function Loop(s: Run, c: Config, env: nat -> Turn): Run
    decreases if Guard(s, c) then c.maxIterations - s.iteration else 0
  {
    if Guard(s, c) then Loop(Iterate(s, c, env(s.iteration)), c, env) else s
  }

  // ---------------------------------------------------------------- finishing

  /** The first half of `_finalizeRunState`. */
  function Finalize(s: Run): Run {
    if s.status != Running then s
    else if s.queue != [] then s.(status := Paused(BudgetOrIterationLimit))
    else s.(status := if s.failed then Blocked(ByTool) else Completed)
  }

  /** `terminationReasonFor`. */
  function ReasonFor(s: Run, c: Config): Reason {
    if s.status.Blocked? then
      if s.status.who == ByDreamLoop then BlockedDreamLoop else if s.emergency then EmergencyStop else BlockedStep
    else if s.status == Paused(TimeBudgetExceeded) then TimeBudget
    else if s.status == Paused(RepairPendingApproval) then AwaitingRepairApproval
    else if s.status == Paused(EffectUncertain) then AwaitingEffectVerdict
    else if s.status == Paused(StalledWithoutProgress) then Stalled
    else if s.queue != [] then
      if Count(s.history) >= c.maxSteps then MaxSteps
      else if s.iteration >= c.maxIterations then MaxIterations
      else Incomplete
    else EndOfPlan
  }

  /** A run as it enters the loop. */
  predicate Entering(s: Run) {
    s.status == Running && s.halt == Going && s.log == Log([], [], [], [], [])
  }

  // ---------------------------------------------------------------- conservation

  /** Every step that was ever queued is still queued, recorded, replaced or discarded. */
  ghost predicate Balanced(start: multiset<Step>, s: Run) {
    forall x: Step :: multiset(s.queue)[x] + multiset(s.log.recorded)[x] + multiset(s.log.replaced)[x]
      + multiset(s.log.discarded)[x] == start[x] + multiset(s.log.added)[x]
  }

  /** The steps executed are the recorded and the replaced ones, and the one whose effect
      is uncertain, which is back at the head of the queue. */
  ghost predicate LogOk(s: Run) {
    && (s.log.discarded != [] ==> s.status == Blocked(ByDreamLoop) && s.queue == [])
    && (s.status == Paused(EffectUncertain) ==> s.queue != [])
    && forall x: Step :: multiset(s.log.executed)[x] == multiset(s.log.recorded)[x] + multiset(s.log.replaced)[x]
         + if s.status == Paused(EffectUncertain) && s.queue[0] == x then 1 else 0
  }

  lemma Plus(a: seq<Step>, b: seq<Step>)
    ensures forall x: Step :: multiset(a + b)[x] == multiset(a)[x] + multiset(b)[x]
  {
    assert multiset(a + b) == multiset(a) + multiset(b);
  }

  lemma EnqueueBalanced(start: multiset<Step>, s: Run, x: Option<Step>)
    requires Balanced(start, s)
    ensures Balanced(start, Enqueue(s, x))
  {
    if x.Some? {
      Plus([x.value], s.queue);
      Plus(s.log.added, [x.value]);
    }
  }

  lemma NotedBalanced(start: multiset<Step>, s: Run, t: Turn, step: Step, rest: seq<Step>)
    requires Balanced(start, s.(queue := [step] + rest)) && t.report.Report?
    ensures Balanced(start, Noted(s, t, step, rest))
  {
    hide Push;
    Plus([step], rest);
    Plus(s.log.recorded, [step]);
  }

  lemma DreamBalanced(start: multiset<Step>, s: Run, c: Config, d: Dream)
    requires Balanced(start, s)
    ensures Balanced(start, DreamTurn(s, c, d))
  {
    hide Enqueue;
    EnqueueBalanced(start, s, d.next);
    var e := if s.history.held < c.maxSteps then Enqueue(s, d.next) else s;
    Plus(e.log.discarded, e.queue);
  }

  lemma ContinuedBalanced(start: multiset<Step>, s: Run, c: Config, t: Turn)
    requires Balanced(start, s)
    ensures Balanced(start, Continued(s, c, t))
  {
    hide Balanced, Enqueue, Count, DreamTurn;
    if t.dream.Some? {
      DreamBalanced(start, s, c, t.dream.value);
    } else {
      EnqueueBalanced(start, s, Some(Step(Count(s.history) + 1, true)));
      EnqueueBalanced(start, s, t.followUp);
    }
  }

  lemma SameBooks(start: multiset<Step>, a: Run, b: Run)
    requires Balanced(start, a) && multiset(b.queue) == multiset(a.queue)
    requires b.log == a.log.(executed := b.log.executed)
    ensures Balanced(start, b)
  {
  }

  lemma RecordedBalanced(start: multiset<Step>, s: Run, c: Config, t: Turn, step: Step, rest: seq<Step>)
    requires Balanced(start, s.(queue := [step] + rest)) && t.report.Report?
    ensures Balanced(start, Recorded(s, c, t, step, rest))
  {
    hide Balanced, Noted, Continued;
    NotedBalanced(start, s, t, step, rest);
    var s1 := Noted(s, t, step, rest);
    ContinuedBalanced(start, s1, c, t);
    if t.report.blocked { SameBooks(start, s1, Recorded(s, c, t, step, rest)); }
    else { SameBooks(start, Continued(s1, c, t), Recorded(s, c, t, step, rest)); }
  }

  lemma IterateBalanced(start: multiset<Step>, s: Run, c: Config, t: Turn)
    requires s.queue != [] && Balanced(start, s)
    ensures Balanced(start, Iterate(s, c, t))
  {
    hide Recorded, Ordered, Balanced;
    var q := Ordered(s, t);
    var step, rest := q[0], q[1..];
    var r := Iterate(s, c, t);
    assert [step] + rest == q;
    SameBooks(start, s, s.(queue := q));
    if t.late || s.pending == Some(step.id) {
      SameBooks(start, s, r);
    } else if t.report.Uncertain? {
      SameBooks(start, s.(queue := q), r);
    } else if !t.report.blocked && t.report.repair.Some? {
      RepairBalanced(start, s, step, rest, t.report.repair.value, r);
    } else {
      RecordedBalanced(start, s, c, t, step, rest);
    }
  }

  lemma RepairBalanced(start: multiset<Step>, s: Run, step: Step, rest: seq<Step>, repair: Step, r: Run)
    requires Balanced(start, s.(queue := [step] + rest)) && r.queue == [repair] + rest
    requires r.log == s.log.(executed := s.log.executed + [step], replaced := s.log.replaced + [step], added := s.log.added + [repair])
    ensures Balanced(start, r)
  {
    Plus([step], rest);
    Plus([repair], rest);
    Plus(s.log.replaced, [step]);
    Plus(s.log.added, [repair]);
  }

  /** What follows a recorded step touches neither what was executed nor what was recorded. */
  lemma ContinuedLog(s: Run, c: Config, t: Turn)
    ensures var r := Continued(s, c, t);
      && r.log.executed == s.log.executed && r.log.recorded == s.log.recorded && r.log.replaced == s.log.replaced
      && (if r.log.discarded == s.log.discarded then r.status == s.status || r.status == Blocked(ByDreamLoop)
          else r.status == Blocked(ByDreamLoop) && r.queue == [])
      && r.iteration == s.iteration && r.pending == s.pending && r.history == s.history && r.halt == s.halt
      && (r.status == s.status || (r.status == Blocked(ByDreamLoop) && r.queue == []))
  {
    hide Count, Forced;
  }

  lemma RecordedLog(s: Run, c: Config, t: Turn, step: Step, rest: seq<Step>)
    requires t.report.Report? && s.status == Running
    ensures var r := Recorded(s, c, t, step, rest);
      && r.log.executed == s.log.executed + [step] && r.log.recorded == s.log.recorded + [step]
      && r.log.replaced == s.log.replaced
      && (r.log.discarded == s.log.discarded || (r.status == Blocked(ByDreamLoop) && r.queue == []))
      && (r.status == Running || r.status.Blocked? || (r.status == Paused(StalledWithoutProgress) && r.halt == Broke && r.queue != []))
      && r.iteration == s.iteration + 1 && r.pending == s.pending && r.history == Push(s.history)
      && (r.status.Blocked? && r.halt == Going ==> r.queue == [])
      && (r.halt == Broke && s.halt == Going ==> r.status != Running)
  {
    hide Push, Continued;
    ContinuedLog(Noted(s, t, step, rest), c, t);
  }

  /** One more step executed, and recorded or replaced. */
  lemma LogGrows(s: Run, r: Run, step: Step)
    requires LogOk(s) && s.status == Running && r.log.executed == s.log.executed + [step]
    requires r.status == Paused(EffectUncertain) ==> r.queue != []
    requires r.log.discarded == s.log.discarded || (r.status == Blocked(ByDreamLoop) && r.queue == [])
    requires
      || (r.log.recorded == s.log.recorded + [step] && r.log.replaced == s.log.replaced && r.status != Paused(EffectUncertain))
      || (r.log.recorded == s.log.recorded && r.log.replaced == s.log.replaced + [step] && r.status != Paused(EffectUncertain))
      || (r.log.recorded == s.log.recorded && r.log.replaced == s.log.replaced && r.status == Paused(EffectUncertain)
          && r.queue[0] == step)
    ensures LogOk(r)
  {
    Plus(s.log.executed, [step]);
    Plus(s.log.recorded, [step]);
    Plus(s.log.replaced, [step]);
    assert forall x: Step :: multiset([step])[x] == if x == step then 1 else 0;
  }

  lemma LogStopped(s: Run, r: Run)
    requires LogOk(s) && s.status == Running && r.log == s.log && r.status != Paused(EffectUncertain)
    ensures LogOk(r)
  {
  }

  lemma IterateLog(s: Run, c: Config, t: Turn)
    requires s.queue != [] && LogOk(s) && s.status == Running
    ensures LogOk(Iterate(s, c, t))
    ensures Iterate(s, c, t).halt == Going ==> Iterate(s, c, t).status == Running || Iterate(s, c, t).queue == []
  {
    assert s.log.discarded == [];
    hide Push, Ordered, Recorded, LogOk;
    var q := Ordered(s, t);
    var step, rest := q[0], q[1..];
    var r := Iterate(s, c, t);
    if t.late || s.pending == Some(step.id) {
      LogStopped(s, r);
    } else if t.report.Uncertain? {
      LogGrows(s, r, step);
    } else if !t.report.blocked && t.report.repair.Some? {
      LogGrows(s, r, step);
    } else {
      RecordedLog(s, c, t, step, rest);
      LogGrows(s, r, step);
    }
  }

  /** What the loop keeps while it runs. */
  ghost predicate Runs(s: Run) { s.halt == Going ==> s.status == Running || s.queue == [] }

  lemma {:induction false} LoopBalanced(start: multiset<Step>, s: Run, c: Config, env: nat -> Turn)
    requires Balanced(start, s) && LogOk(s) && Runs(s)
    ensures Balanced(start, Loop(s, c, env)) && LogOk(Loop(s, c, env)) && Runs(Loop(s, c, env))
    decreases if Guard(s, c) then c.maxIterations - s.iteration else 0
  {
    hide Iterate, Balanced, LogOk;
    if Guard(s, c) {
      var t := env(s.iteration);
      IterateBalanced(start, s, c, t);
      IterateLog(s, c, t);
      Turns(s, c, t);
      LoopBalanced(start, Iterate(s, c, t), c, env);
    }
  }

  /** Every turn that does not end the loop uses up one iteration: the loop's measure. */
  lemma Turns(s: Run, c: Config, t: Turn)
    requires s.queue != [] && s.status == Running
    ensures var r := Iterate(s, c, t);
      && (r.halt == s.halt == Going ==> r.iteration == s.iteration + 1)
      && s.iteration <= r.iteration <= s.iteration + 1
  {
    hide Push, Ordered, Recorded;
    var q := Ordered(s, t);
    if t.report.Report? { RecordedLog(s, c, t, q[0], q[1..]); }
  }

  /** A run loses no step: each one queued at the start or added on the way is still queued,
      recorded, replaced by a repair or discarded by a blocked Dream experiment; and each
      one executed is recorded or replaced, or is the uncertain one back at the head. */
  lemma StepsConserved(s: Run, c: Config, env: nat -> Turn)
    requires Entering(s)
    ensures Balanced(multiset(s.queue), Loop(s, c, env)) && LogOk(Loop(s, c, env))
  {
    hide Loop;
    LoopBalanced(multiset(s.queue), s, c, env);
  }

  // ---------------------------------------------------------------- repairs

  /** The proposed repair waits at the head of the queue, and the step it repairs was the
      last one executed. */
  ghost predicate RepairWaits(s: Run) {
    && s.queue != [] && s.pending == Some(s.queue[0].id)
    && |s.log.replaced| == 1 && s.log.executed != []
    && s.log.executed[|s.log.executed| - 1] == s.log.replaced[0]
  }

  lemma WaitStops(s: Run, c: Config, env: nat -> Turn)
    requires RepairWaits(s) && s.status == Running
    ensures var r := Loop(s, c, env);
      r.log == s.log && r.queue == s.queue && r.pending == s.pending
      && (r.status == Running || r.status == Paused(RepairPendingApproval) || r.status == Paused(TimeBudgetExceeded))
  {
    hide Recorded;
    if Guard(s, c) {
      var r := Iterate(s, c, env(s.iteration));
      assert !Guard(r, c);
      assert Loop(r, c, env) == r;
    }
  }

  /** Once a repair is proposed, no further step is executed in that run: at most one step is
      ever replaced, it is the last one executed, and its repair is what the run waits for. */
  lemma {:induction false} NothingAfterProposal(s: Run, c: Config, env: nat -> Turn)
    requires s.halt == Going ==> s.status == Running || s.queue == []
    requires s.log.replaced == []
    ensures Loop(s, c, env).log.replaced == [] || RepairWaits(Loop(s, c, env))
    decreases if Guard(s, c) then c.maxIterations - s.iteration else 0
  {
    hide Recorded, Ordered;
    if Guard(s, c) {
      var t := env(s.iteration);
      var r := Iterate(s, c, t);
      Turns(s, c, t);
      if t.report.Report? { RecordedLog(s, c, t, Ordered(s, t)[0], Ordered(s, t)[1..]); }
      if r.log.replaced == [] {
        NothingAfterProposal(r, c, env);
      } else {
        assert RepairWaits(r);
        WaitStops(r, c, env);
      }
    }
  }

  // ---------------------------------------------------------------- why a run ended

  /** How the loop can be left. */
  ghost predicate Left(s: Run) {
    match s.halt
    case Going => s.status == Running || (s.status == Blocked(ByDreamLoop) && s.queue == [])
    case Broke => s.status == Blocked(ByTool) || (s.status.Paused? && s.status.pause != BudgetOrIterationLimit && s.queue != [])
    case StorageFailed => true
  }

  lemma IterateLeft(s: Run, c: Config, t: Turn)
    requires s.queue != [] && s.halt == Going && s.status == Running
    ensures Left(Iterate(s, c, t))
  {
    hide Push, Ordered, Continued;
    if t.report.Report? {
      var q := Ordered(s, t);
      ContinuedLog(Noted(s, t, q[0], q[1..]), c, t);
    }
  }

  lemma {:induction false} LoopLeft(s: Run, c: Config, env: nat -> Turn)
    requires Left(s)
    ensures Left(Loop(s, c, env)) && !Guard(Loop(s, c, env), c)
    decreases if Guard(s, c) then c.maxIterations - s.iteration else 0
  {
    hide Iterate;
    if Guard(s, c) {
      IterateLeft(s, c, env(s.iteration));
      Turns(s, c, env(s.iteration));
      LoopLeft(Iterate(s, c, env(s.iteration)), c, env);
    }
  }

  /** Every way out of the loop has its own reason: work left over is always explained, and
      each reason says exactly what it names. */
  lemma ExitExplained(s: Run, c: Config, env: nat -> Turn)
    requires Entering(s) && Loop(s, c, env).halt != StorageFailed
    ensures var r := Loop(s, c, env); var f := Finalize(r); var reason := ReasonFor(f, c);
      && reason != Incomplete && f.status != Running
      && (reason == EndOfPlan <==> f.status == Completed)
      && (reason == EndOfPlan ==> r.queue == [])
      && (f.status == Paused(BudgetOrIterationLimit) <==> reason == MaxSteps || reason == MaxIterations)
      && (reason == MaxSteps ==> r.queue != [] && Count(r.history) >= c.maxSteps)
      && (reason == MaxIterations ==> r.queue != [] && r.iteration >= c.maxIterations && Count(r.history) < c.maxSteps)
      && (reason == BlockedDreamLoop ==> r.queue == [])
      && (r.queue == [] ==> reason in {EndOfPlan, BlockedStep, EmergencyStop, BlockedDreamLoop})
  {
    hide Loop;
    LoopLeft(s, c, env);
  }

  // ---------------------------------------------------------------- the turn that ended it

  /** How many turns the loop makes; turn `k` is the environment's answer at iteration
      `s.iteration + k`. */
  ghost function Rounds(s: Run, c: Config, env: nat -> Turn): nat
    decreases if Guard(s, c) then c.maxIterations - s.iteration else 0
  {
    if Guard(s, c) then 1 + Rounds(Iterate(s, c, env(s.iteration)), c, env) else 0
  }

  /** An executed step of this turn is recorded: its effect is certain and no repair takes its place. */
  predicate Records(t: Turn) { t.report.Report? && (t.report.blocked || t.report.repair == None) }

  /** Whether the last report of `n` turns failed; `before` if none was recorded. */
  function LastFailed(before: bool, env: nat -> Turn, from: nat, n: nat): bool {
    if n == 0 then before
    else if Records(env(from + n - 1)) then env(from + n - 1).report.failed
    else LastFailed(before, env, from, n - 1)
  }

  /** Whether the last report of `n` turns was an emergency stop. */
  function LastEmergency(before: bool, env: nat -> Turn, from: nat, n: nat): bool {
    if n == 0 then before
    else if Records(env(from + n - 1)) then env(from + n - 1).report.emergency
    else LastEmergency(before, env, from, n - 1)
  }

  /** How many reports in a row, up to the last of `n` turns, saw no progress. */
  function Stalls(before: nat, env: nat -> Turn, from: nat, n: nat): nat {
    if n == 0 then before
    else if !Records(env(from + n - 1)) then Stalls(before, env, from, n - 1)
    else if env(from + n - 1).stalled then Stalls(before, env, from, n - 1) + 1
    else 0
  }

  predicate DreamBlocked(t: Turn) { Records(t) && t.dream.Some? && t.dream.value.blocked }

  predicate Blocking(t: Turn) { DreamBlocked(t) || (t.report.Report? && t.report.blocked) }

  /** Why a run that entered as `s` ended, from its turns, the work left over and the number
      of steps executed and recorded. */
  ghost function Cause(s: Run, c: Config, env: nat -> Turn): Reason {
    var r, n := Loop(s, c, env), Rounds(s, c, env);
    var failed, emergency := LastFailed(s.failed, env, s.iteration, n), LastEmergency(s.emergency, env, s.iteration, n);
    if n > 0 && env(s.iteration + n - 1).late then TimeBudget
    else if |r.log.executed| < n then AwaitingRepairApproval
    else if n > 0 && env(s.iteration + n - 1).report.Uncertain? then AwaitingEffectVerdict
    else if n > 0 && env(s.iteration + n - 1).report.blocked then (if emergency then EmergencyStop else BlockedStep)
    else if n > 0 && DreamBlocked(env(s.iteration + n - 1)) then BlockedDreamLoop
    else if r.queue == [] then (if !failed then EndOfPlan else if emergency then EmergencyStop else BlockedStep)
    else if n > 0 && Records(env(s.iteration + n - 1)) && Stalls(s.stalledCount, env, s.iteration, n) >= 4 then Stalled
    else if Count(s.history) + |r.log.recorded| >= c.maxSteps then MaxSteps
    else MaxIterations
  }

  /** The status that goes with a reason. */
  function StatusOf(reason: Reason): Status {
    match reason
    case EndOfPlan => Completed
    case EmergencyStop => Blocked(ByTool)
    case BlockedStep => Blocked(ByTool)
    case BlockedDreamLoop => Blocked(ByDreamLoop)
    case TimeBudget => Paused(TimeBudgetExceeded)
    case AwaitingRepairApproval => Paused(RepairPendingApproval)
    case AwaitingEffectVerdict => Paused(EffectUncertain)
    case Stalled => Paused(StalledWithoutProgress)
    case _ => Paused(BudgetOrIterationLimit)
  }

  /** Where a run that was going stands after `n` turns, the last of them `last`. */
  ghost predicate Stands(s: Run, r: Run, n: nat, last: Turn, env: nat -> Turn) {
    var executed := |r.log.executed| - |s.log.executed|;
    if last.late then executed == n - 1 && r.status == Paused(TimeBudgetExceeded) && r.halt == Broke
    else if executed != n then
      executed == n - 1 && r.status == Paused(RepairPendingApproval) && r.halt == Broke
      && r.queue != [] && r.pending == Some(r.queue[0].id)
    else if last.report.Uncertain? then r.status == Paused(EffectUncertain) && r.halt == Broke
    else
      && r.failed == LastFailed(s.failed, env, s.iteration, n)
      && r.emergency == LastEmergency(s.emergency, env, s.iteration, n)
      && r.stalledCount == Stalls(s.stalledCount, env, s.iteration, n)
      && Count(r.history) == Count(s.history) + |r.log.recorded| - |s.log.recorded|
      && (if last.report.blocked then r.status == Blocked(ByTool) && r.halt == Broke
          else if Records(last) && last.saveFails then r.halt == StorageFailed
          else if DreamBlocked(last) then r.status == Blocked(ByDreamLoop) && r.halt == Going && r.queue == []
          else if Records(last) && r.queue != [] && r.stalledCount >= 4 then r.status == Paused(StalledWithoutProgress) && r.halt == Broke
          else r.status == Running && r.halt == Going)
  }

  lemma PushCounts(h: History)
    ensures Count(Push(h)) == Count(h) + 1
  {
  }

  lemma ContinuedCounts(s: Run, c: Config, t: Turn)
    ensures var r := Continued(s, c, t);
      && r.failed == s.failed && r.emergency == s.emergency && r.stalledCount == s.stalledCount
      && r.status == (if t.dream.Some? && t.dream.value.blocked then Blocked(ByDreamLoop) else s.status)
      && (t.dream.Some? && t.dream.value.blocked ==> r.queue == [])
  {
    hide Count, Forced;
  }

  lemma OneReport(env: nat -> Turn, from: nat, failed: bool, emergency: bool, stalls: nat)
    ensures var t := env(from);
      && LastFailed(failed, env, from, 1) == (if Records(t) then t.report.failed else failed)
      && LastEmergency(emergency, env, from, 1) == (if Records(t) then t.report.emergency else emergency)
      && Stalls(stalls, env, from, 1) == (if !Records(t) then stalls else if t.stalled then stalls + 1 else 0)
  {
    assert LastFailed(failed, env, from, 0) == failed && LastEmergency(emergency, env, from, 0) == emergency;
    assert Stalls(stalls, env, from, 0) == stalls;
  }

  lemma RecordedCounts(s: Run, c: Config, t: Turn, step: Step, rest: seq<Step>)
    requires t.report.Report? && s.status == Running && s.halt == Going
    ensures var r := Recorded(s, c, t, step, rest);
      && r.failed == t.report.failed && r.emergency == t.report.emergency
      && r.stalledCount == (if t.stalled then s.stalledCount + 1 else 0)
      && Count(r.history) == Count(s.history) + 1
      && |r.log.executed| == |s.log.executed| + 1 && |r.log.recorded| == |s.log.recorded| + 1
      && (if t.report.blocked then r.status == Blocked(ByTool) && r.halt == Broke
          else if t.saveFails then r.halt == StorageFailed
          else if t.dream.Some? && t.dream.value.blocked then r.status == Blocked(ByDreamLoop) && r.halt == Going && r.queue == []
          else if r.queue != [] && r.stalledCount >= 4 then r.status == Paused(StalledWithoutProgress) && r.halt == Broke
          else r.status == Running && r.halt == Going)
  {
    hide Push, Count, Continued;
    PushCounts(s.history);
    ContinuedLog(Noted(s, t, step, rest), c, t);
    ContinuedCounts(Noted(s, t, step, rest), c, t);
  }

  lemma OneTurn(s: Run, c: Config, t: Turn, env: nat -> Turn)
    requires s.queue != [] && s.halt == Going && s.status == Running && env(s.iteration) == t
    ensures Stands(s, Iterate(s, c, t), 1, t, env)
  {
    OneReport(env, s.iteration, s.failed, s.emergency, s.stalledCount);
    hide LastFailed, LastEmergency, Stalls, Count, Recorded;
    var q := Ordered(s, t);
    if t.report.Report? { RecordedCounts(s, c, t, q[0], q[1..]); }
  }

  /** Reports of `n` turns, first turn apart. */
  lemma {:induction false} FirstApart(env: nat -> Turn, from: nat, n: nat, failed: bool, emergency: bool, stalls: nat)
    ensures LastFailed(failed, env, from, n + 1) == LastFailed(LastFailed(failed, env, from, 1), env, from + 1, n)
    ensures LastEmergency(emergency, env, from, n + 1) == LastEmergency(LastEmergency(emergency, env, from, 1), env, from + 1, n)
    ensures Stalls(stalls, env, from, n + 1) == Stalls(Stalls(stalls, env, from, 1), env, from + 1, n)
  {
    if n > 0 {
      FirstApart(env, from, n - 1, failed, emergency, stalls);
      assert from + (n + 1) - 1 == from + 1 + n - 1;
    }
  }

  lemma Standing(s: Run, m: Run, r: Run, n: nat, last: Turn, env: nat -> Turn)
    requires Stands(s, m, 1, env(s.iteration), env) && m.halt == Going && m.status == Running && m.iteration == s.iteration + 1
    requires n > 0 && Stands(m, r, n, last, env)
    ensures Stands(s, r, n + 1, last, env)
  {
    FirstApart(env, s.iteration, n, s.failed, s.emergency, s.stalledCount);
    hide LastFailed, LastEmergency, Stalls, Count;
  }

  lemma LoopUnfolds(s: Run, c: Config, env: nat -> Turn)
    ensures Guard(s, c) ==> var m := Iterate(s, c, env(s.iteration));
      Loop(s, c, env) == Loop(m, c, env) && Rounds(s, c, env) == Rounds(m, c, env) + 1
    ensures !Guard(s, c) ==> Loop(s, c, env) == s && Rounds(s, c, env) == 0
  {
    hide Iterate;
  }

  /** A turn from which the loop goes on. */
  lemma TurnGoesOn(s: Run, c: Config, t: Turn)
    requires s.queue != [] && s.halt == Going && s.status == Running && Guard(Iterate(s, c, t), c)
    ensures var m := Iterate(s, c, t); m.halt == Going && m.status == Running && m.iteration == s.iteration + 1
  {
    hide Iterate;
    IterateLeft(s, c, t);
    Turns(s, c, t);
  }

  lemma {:induction false} LoopStands(s: Run, c: Config, env: nat -> Turn)
    requires s.halt == Going && s.status == Running
    ensures var r, n := Loop(s, c, env), Rounds(s, c, env);
      if n == 0 then r == s else Stands(s, r, n, env(s.iteration + n - 1), env)
    decreases if Guard(s, c) then c.maxIterations - s.iteration else 0
  {
    hide Loop, Rounds, Iterate, Stands;
    LoopUnfolds(s, c, env);
    if Guard(s, c) {
      var m := Iterate(s, c, env(s.iteration));
      OneTurn(s, c, env(s.iteration), env);
      LoopUnfolds(m, c, env);
      if Guard(m, c) {
        TurnGoesOn(s, c, env(s.iteration));
        LoopStands(m, c, env);
        var n := Rounds(m, c, env);
        Standing(s, m, Loop(m, c, env), n, env(m.iteration + n - 1), env);
        assert m.iteration + n - 1 == s.iteration + (n + 1) - 1;
      }
    }
  }

  /** The cause of a run that a turn stopped, and of one that went on to the end. */
  ghost predicate Caused(r: Run, c: Config, cause: Reason) {
    if r.status == Running then
      if r.queue == [] then cause == if !r.failed then EndOfPlan else if r.emergency then EmergencyStop else BlockedStep
      else cause == if Count(r.history) >= c.maxSteps then MaxSteps else MaxIterations
    else if r.status == Blocked(ByTool) then cause == if r.emergency then EmergencyStop else BlockedStep
    else r.status == StatusOf(cause) && (cause == TimeBudget || cause == AwaitingRepairApproval || cause == AwaitingEffectVerdict
                                         || cause == BlockedDreamLoop || cause == Stalled)
  }

  lemma CauseAtOnce(s: Run, c: Config, env: nat -> Turn)
    requires Entering(s) && Rounds(s, c, env) == 0 && Loop(s, c, env) == s
    ensures Caused(s, c, Cause(s, c, env))
  {
    assert LastFailed(s.failed, env, s.iteration, 0) == s.failed && LastEmergency(s.emergency, env, s.iteration, 0) == s.emergency;
    hide Loop, Rounds, LastFailed, LastEmergency, Stalls, Records, DreamBlocked, Count;
  }

  lemma CauseOf(s: Run, c: Config, env: nat -> Turn)
    requires Entering(s) && Loop(s, c, env).halt != StorageFailed
    ensures Caused(Loop(s, c, env), c, Cause(s, c, env))
  {
    hide Loop, Rounds, LastFailed, LastEmergency, Stalls, Records, DreamBlocked, Count;
    LoopStands(s, c, env);
    if Rounds(s, c, env) == 0 { CauseAtOnce(s, c, env); }
  }

  /** Every finished run has the reason that its turns give it, and the status of that
      reason: a pause or a block comes from the last turn, a run out of work has completed
      exactly when its last report did not fail, and a ceiling ends only a run that nothing
      else did. */
  lemma ReasonExact(s: Run, c: Config, env: nat -> Turn)
    requires Entering(s) && Loop(s, c, env).halt != StorageFailed
    ensures var f := Finalize(Loop(s, c, env));
      ReasonFor(f, c) == Cause(s, c, env) && f.status == StatusOf(Cause(s, c, env))
  {
    hide Loop, Cause, Rounds;
    CauseOf(s, c, env);
    LoopLeft(s, c, env);
    var r := Loop(s, c, env);
    if r.status == Running {
      assert Count(r.history) >= r.history.held;
    }
  }

  /** A run has come to the end of its plan if and only if no work is left, its last turn
      was not blocked, by a report or by the Dream experiment, and the last report that was
      recorded did not fail. */
  lemma EndOfPlanExact(s: Run, c: Config, env: nat -> Turn)
    requires Entering(s) && Loop(s, c, env).halt != StorageFailed
    ensures var n := Rounds(s, c, env);
      ReasonFor(Finalize(Loop(s, c, env)), c) == EndOfPlan <==>
        && Loop(s, c, env).queue == [] && !LastFailed(s.failed, env, s.iteration, n)
        && (n > 0 ==> !Blocking(env(s.iteration + n - 1)))
  {
    hide Loop, Rounds, LastFailed, LastEmergency, Stalls, DreamBlocked, Records, Count;
    ReasonExact(s, c, env);
    LoopStands(s, c, env);
    LoopLeft(s, c, env);
    hide ReasonFor, Finalize, StatusOf;
  }

  /** The checkpoint is refused in the last turn: its step is executed and recorded, and
      its report does not block the run. */
  lemma RefusedCheckpointExact(s: Run, c: Config, env: nat -> Turn)
    requires Entering(s)
    ensures var r, n := Loop(s, c, env), Rounds(s, c, env);
      r.halt == StorageFailed <==>
        && n > 0 && |r.log.executed| == n && !env(s.iteration + n - 1).late
        && Records(env(s.iteration + n - 1)) && !env(s.iteration + n - 1).report.blocked && env(s.iteration + n - 1).saveFails
  {
    hide Loop, Rounds, LastFailed, LastEmergency, Stalls, Count, DreamBlocked;
    LoopStands(s, c, env);
  }

  /** A turn executes the first step of the scheduler's order or, while a repair waits for
      approval or the order is not one of the same steps, of the queue; it executes none when
      the time is up or that step is the waiting repair. */
  lemma TurnExecutes(s: Run, c: Config, t: Turn)
    requires s.queue != [] && s.halt == Going && s.status == Running
    ensures var q := if s.pending == None && multiset(t.order) == multiset(s.queue) then t.order else s.queue;
      q != [] && Iterate(s, c, t).log.executed == s.log.executed + if t.late || s.pending == Some(q[0].id) then [] else [q[0]]
  {
    assert |multiset(t.order)| == |t.order| && |multiset(s.queue)| == |s.queue|;
    hide Recorded;
    var q := Ordered(s, t);
    if t.report.Report? { RecordedLog(s, c, t, q[0], q[1..]); }
  }

  /** What a recorded step that does not block the run leaves in the queue: what the Dream
      experiment answers if it handled the step, else a Dream step once two reports in a row
      saw no progress, else the follow-up, the last two only below the step ceiling. */
  lemma QueueAfter(s: Run, c: Config, t: Turn)
    requires s.queue != [] && s.halt == Going && s.status == Running
    requires !t.late && Records(t) && !t.report.blocked && s.pending != Some(Ordered(s, t)[0].id)
    ensures var r, rest := Iterate(s, c, t), Ordered(s, t)[1..];
      var done, stalls := Count(s.history) + 1, if t.stalled then s.stalledCount + 1 else 0;
      r.queue ==
        if t.dream.Some? then
          (if t.dream.value.blocked then []
           else if t.dream.value.next.Some? && r.history.held < c.maxSteps then [t.dream.value.next.value] + rest else rest)
        else if stalls >= 2 && done < c.maxSteps && (forall x | x in rest :: !x.dream) then [Step(done + 1, true)] + rest
        else if t.followUp.Some? && done < c.maxSteps then [t.followUp.value] + rest
        else rest
  {
    PushCounts(s.history);
    hide Push, Count, Ordered;
  }

  // ---------------------------------------------------------------- the ceilings

  /** A ring that has dropped reports is full. */
  predicate RingOk(h: History) { h.held <= RING && (h.dropped > 0 ==> h.held == RING) }

  lemma TurnSpends(s: Run, c: Config, t: Turn)
    requires s.queue != [] && s.halt == Going && s.status == Running
    ensures var r := Iterate(s, c, t);
      && r.iteration - s.iteration == |r.log.recorded| + |r.log.replaced| - |s.log.recorded| - |s.log.replaced|
      && s.iteration <= r.iteration <= s.iteration + 1
  {
    hide Recorded, Ordered;
    if t.report.Report? { RecordedLog(s, c, t, Ordered(s, t)[0], Ordered(s, t)[1..]); }
  }

  /** Iterations are spent one by one, up to the ceiling: each one recorded or replaced a step. */
  lemma {:induction false} IterationsSpent(s: Run, c: Config, env: nat -> Turn)
    requires Left(s)
    ensures var r := Loop(s, c, env);
      && r.iteration - s.iteration == |r.log.recorded| + |r.log.replaced| - |s.log.recorded| - |s.log.replaced|
      && (r.iteration == s.iteration || r.iteration <= c.maxIterations)
    decreases if Guard(s, c) then c.maxIterations - s.iteration else 0
  {
    assert Guard(s, c) ==> s.status == Running;
    hide Iterate, Left;
    if Guard(s, c) {
      var t := env(s.iteration);
      Turns(s, c, t);
      IterateLeft(s, c, t);
      TurnSpends(s, c, t);
      IterationsSpent(Iterate(s, c, t), c, env);
    }
  }

  /** While the step ceiling fits in the ring, it holds. */
  lemma {:induction false} CeilingHolds(s: Run, c: Config, env: nat -> Turn)
    requires Left(s) && RingOk(s.history) && c.maxSteps <= RING
    ensures Count(Loop(s, c, env).history) <= if Count(s.history) < c.maxSteps then c.maxSteps else Count(s.history)
    decreases if Guard(s, c) then c.maxIterations - s.iteration else 0
  {
    assert Guard(s, c) ==> s.status == Running;
    hide Recorded, Ordered, Left;
    if Guard(s, c) {
      var t := env(s.iteration);
      Turns(s, c, t);
      IterateLeft(s, c, t);
      if t.report.Report? { RecordedLog(s, c, t, Ordered(s, t)[0], Ordered(s, t)[1..]); }
      CeilingHolds(Iterate(s, c, t), c, env);
    }
  }

  /** A turn in which the step just succeeds. */
  function Plain(followUp: Option<Step>): Turn {
    Turn(false, [], Report(false, false, false, None), false, None, followUp, false)
  }

  /** One follow-up, after the first step. */
  function OneMore(i: nat): Turn { Plain(if i == 0 then Some(Step(0, false)) else None) }

  lemma PlainTurn(s: Run, c: Config, follow: Option<Step>)
    requires s.queue != [] && s.pending == None
    ensures var r := Iterate(s, c, Plain(follow));
      && r.history == Push(s.history) && r.iteration == s.iteration + 1 && r.halt == s.halt && r.pending == None
      && r.queue == (if follow.Some? && Count(Push(s.history)) < c.maxSteps then [follow.value] else []) + s.queue[1..]
  {
    hide Push;
    assert |multiset(s.queue)| == |s.queue|;
    assert multiset([]) == multiset(s.queue) ==> |s.queue| == 0;
    assert Ordered(s, Plain(follow)) == s.queue;
    assert [] + s.queue[1..] == s.queue[1..];
  }

  lemma {:induction false} DrainsAll(s: Run, c: Config)
    requires s.halt == Going && s.pending == None && RingOk(s.history) && c.maxSteps > RING
    requires s.iteration > 0 && s.iteration + |s.queue| <= c.maxIterations
    ensures Count(Loop(s, c, OneMore).history) == Count(s.history) + |s.queue|
    decreases |s.queue|
  {
    hide Iterate;
    if s.queue != [] {
      PlainTurn(s, c, None);
      assert OneMore(s.iteration) == Plain(None);
      DrainsAll(Iterate(s, c, Plain(None)), c);
    }
  }

  lemma LoopOnce(s: Run, c: Config, env: nat -> Turn)
    requires Guard(s, c)
    ensures Loop(s, c, env) == Loop(Iterate(s, c, env(s.iteration)), c, env)
  {
  }

  /** The step ceiling of the plan holds for every fresh run if and only if it is at most
      the ring's size: the loop compares it with the reports held, not with the steps run. */
  lemma StepCeiling(c: Config)
    requires 1 <= c.maxSteps < c.maxIterations
    ensures c.maxSteps <= 32 <==>
      forall s: Run, env: nat -> Turn | Entering(s) && s.pending == None && s.history == History(0, 0) && s.iteration == 0
        && |s.queue| <= c.maxSteps :: Count(Loop(s, c, env).history) <= c.maxSteps
  {
    hide Loop, Iterate;
    if c.maxSteps <= RING {
      forall s: Run, env: nat -> Turn | Entering(s) && s.history == History(0, 0)
        ensures Count(Loop(s, c, env).history) <= c.maxSteps
      {
        CeilingHolds(s, c, env);
      }
    } else {
      var steps := seq(c.maxSteps, i => Step(1, false));
      var s := Run(steps, History(0, 0), 0, Running, None, 0, false, false, Going, Log([], [], [], [], []));
      var r := Iterate(s, c, OneMore(0));
      PlainTurn(s, c, Some(Step(0, false)));
      assert |r.queue| == c.maxSteps;
      DrainsAll(r, c);
      LoopOnce(s, c, OneMore);
      assert Entering(s) && Count(Loop(s, c, OneMore).history) == c.maxSteps + 1;
    }
  }

  // ---------------------------------------------------------------- the loop, in place

  lemma QueueReplaced(s: Run, s': Run, c: Config, t: Turn, step: Step, rest: seq<Step>)
    requires t.report.Report? && s' == s.(queue := rest)
    ensures Recorded(s', c, t, step, rest) == Recorded(s, c, t, step, rest)
  {
    hide Push, Continued;
  }

  class AgentRun {
    var queued: seq<Step>
    var history: History
    var iteration: nat
    var status: Status
    var pendingRepair: Option<nat>
    var stalledCount: nat
    var lastFailed: bool
    var lastEmergency: bool
    ghost var log: Log

    ghost function State(halt: Halt): Run
      reads this
    {
      Run(queued, history, iteration, status, pendingRepair, stalledCount, lastFailed, lastEmergency, halt, log)
    }

    constructor (plan: seq<Step>)
      ensures Entering(State(Going)) && queued == plan && history == History(0, 0) && iteration == 0 && pendingRepair == None
    {
      queued := plan;
      history := History(0, 0);
      iteration := 0;
      status := Running;
      pendingRepair := None;
      stalledCount := 0;
      lastFailed := false;
      lastEmergency := false;
      log := Log([], [], [], [], []);
    }

    method Unshift(step: Step)
      modifies this`queued, this`log
      ensures forall h :: State(h) == Enqueue(old(State(h)), Some(step))
    {
      queued := [step] + queued;
      log := log.(added := log.added + [step]);
    }

    method QueueFollowUp(c: Config, force: bool, followUp: Option<Step>)
      modifies this`queued, this`log
      ensures forall h :: State(h) == FollowUp(old(State(h)), c, force, followUp)
    {
      if force {
        Unshift(Step(Count(history) + 1, true));
      } else if followUp != None && Count(history) < c.maxSteps {
        Unshift(followUp.value);
      }
    }

    method ProcessDream(c: Config, d: Dream)
      modifies this`queued, this`log, this`status
      ensures forall h :: State(h) == DreamTurn(old(State(h)), c, d)
    {
      if d.next != None && history.held < c.maxSteps { Unshift(d.next.value); }
      if d.blocked {
        status := Blocked(ByDreamLoop);
        log := log.(discarded := log.discarded + queued);
        queued := [];
      }
    }

    method Note(t: Turn, step: Step)
      requires t.report.Report?
      modifies this
      ensures State(Going) == Noted(old(State(Going)), t, step, old(queued))
    {
      history := Push(history);
      log := log.(recorded := log.recorded + [step], executed := log.executed + [step]);
      iteration := iteration + 1;
      lastFailed, lastEmergency := t.report.failed, t.report.emergency;
      stalledCount := if t.stalled then stalledCount + 1 else 0;
    }

    method Continue(c: Config, t: Turn)
      modifies this`queued, this`log, this`status
      ensures State(Going) == Continued(old(State(Going)), c, t)
    {
      hide Count, DreamTurn, FollowUp;
      var force := stalledCount >= 2 && Count(history) < c.maxSteps && forall x | x in queued :: !x.dream;
      if t.dream.Some? { ProcessDream(c, t.dream.value); } else { QueueFollowUp(c, force, t.followUp); }
    }

    /** Records a report and queues what follows; says whether the loop goes on. */
    method RecordStep(c: Config, t: Turn, step: Step) returns (halt: Halt)
      requires t.report.Report?
      modifies this
      ensures State(halt) == Recorded(old(State(Going)), c, t, step, old(queued))
    {
      hide Noted, Continued;
      Note(t, step);
      if t.report.blocked {
        status := Blocked(ByTool);
        return Broke;
      }
      Continue(c, t);
      if t.saveFails { return StorageFailed; }
      if queued != [] && stalledCount >= 4 {
        status := Paused(StalledWithoutProgress);
        return Broke;
      }
      return Going;
    }

    method Turn(c: Config, t: Turn) returns (halt: Halt)
      requires queued != []
      modifies this
      ensures State(halt) == Iterate(old(State(Going)), c, t)
    {
      hide Recorded, Noted, Continued, Checkpointed, DreamTurn, FollowUp, Enqueue, Forced, Push, Count, Guard, Loop, Rounds;
      if t.late {
        status := Paused(TimeBudgetExceeded);
        return Broke;
      }
      ghost var s := State(Going);
      if pendingRepair == None && multiset(t.order) == multiset(queued) { queued := t.order; }
      assert queued == Ordered(s, t);
      var step := queued[0];
      if pendingRepair == Some(step.id) {
        status := Paused(RepairPendingApproval);
        return Broke;
      }
      if t.report.Uncertain? {
        log := log.(executed := log.executed + [step]);
        status := Paused(EffectUncertain);
        return Broke;
      }
      queued := queued[1..];
      if !t.report.blocked && t.report.repair.Some? {
        var repair := t.report.repair.value;
        queued := [repair] + queued;
        iteration := iteration + 1;
        pendingRepair := Some(repair.id);
        log := log.(executed := log.executed + [step], replaced := log.replaced + [step], added := log.added + [repair]);
        return Going;
      }
      QueueReplaced(s, State(Going), c, t, step, queued);
      halt := RecordStep(c, t, step);
    }

    /** The loop of `run`, and the reason recorded for its end; `env` gives the turns. */
    method RunLoop(c: Config, env: nat -> Turn) returns (halt: Halt, reason: Reason)
      requires Entering(State(Going))
      modifies this
      ensures halt == Loop(old(State(Going)), c, env).halt
      ensures State(halt) == (if halt == StorageFailed then Loop(old(State(Going)), c, env) else Finalize(Loop(old(State(Going)), c, env)))
      ensures halt != StorageFailed ==> reason == Cause(old(State(Going)), c, env) && status == StatusOf(reason)
    {
      hide Iterate, Cause, StatusOf;
      ghost var all := Loop(State(Going), c, env);
      if all.halt != StorageFailed { ReasonExact(State(Going), c, env); }
      halt := Going;
      while halt == Going && queued != [] && history.held < c.maxSteps && iteration < c.maxIterations
        invariant Left(State(halt))
        invariant all == Loop(State(halt), c, env)
        decreases if Guard(State(halt), c) then c.maxIterations - iteration else 0
      {
        ghost var s := State(Going);
        IterateLeft(s, c, env(iteration));
        Turns(s, c, env(iteration));
        halt := Turn(c, env(iteration));
      }
      assert State(halt) == all;
      if status == Running && halt != StorageFailed {
        if queued != [] { status := Paused(BudgetOrIterationLimit); }
        else { status := if lastFailed then Blocked(ByTool) else Completed; }
      }
      reason := Classify(c);
    }

    method Classify(c: Config) returns (reason: Reason)
      ensures forall h :: reason == ReasonFor(State(h), c)
    {
      match status {
        case Blocked(who) => return if who == ByDreamLoop then BlockedDreamLoop else if lastEmergency then EmergencyStop else BlockedStep;
        case Paused(pause) =>
          match pause {
            case TimeBudgetExceeded => return TimeBudget;
            case RepairPendingApproval => return AwaitingRepairApproval;
            case EffectUncertain => return AwaitingEffectVerdict;
            case StalledWithoutProgress => return Stalled;
            case BudgetOrIterationLimit =>
          }
        case Running =>
        case Completed =>
      }
      if queued == [] { return EndOfPlan; }
      if Count(history) >= c.maxSteps { return MaxSteps; }
      return if iteration >= c.maxIterations then MaxIterations else Incomplete;
    }
  }
}
