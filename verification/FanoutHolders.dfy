/** Who holds a fan-out job: when no job has two workers, and which jobs a crash leaves without one. */
module FanoutHolders {
  import opened Text
  import opened Lists
  import opened Runs
  import opened FanoutQueue

  // ---------- One worker for a job ----------

  /** The row has at most one holder, and while it has one and is still there it waits for no other. */
  ghost predicate Sole(s: State, i: nat)
    requires i < |s.rows|
  {
    Live(s.claims, i) <= 1 && (Live(s.claims, i) == 1 ==> s.rows[i].gone || !Claimable(s.rows[i].status))
  }

  ghost predicate Exclusive(s: State) { forall i :: 0 <= i < |s.rows| ==> Sole(s, i) }

  /** The step puts this row back while a worker holds it: by recovering it, by force, or by dealing a second time with
      the error of a worker that held it before. */
  predicate Disturbs(s: State, step: Step, i: nat, cfg: Config)
    requires i < |s.rows|
  {
    && Live(s.claims, i) >= 1 && !s.rows[i].gone
    && match step
       case Recover(age) => Stale(s.rows[i], s.now, age)
       case Enqueue(event, target, force) => force && HasKey(s.rows[i], event, target)
       case Retry(c, _) =>
         c < |s.claims| && s.claims[c].row == i && s.claims[c].handled && s.claims[c].attempt < cfg.maxAttempts
       case _ => false
  }

  ghost predicate Undisturbed(s: State, step: Step, cfg: Config) {
    forall i :: 0 <= i < |s.rows| ==> !Disturbs(s, step, i, cfg)
  }

  lemma EnqueueSole(s: State, event: string, target: string, force: bool, cfg: Config, i: nat)
    requires Sound(s) && i < |s.rows| && Sole(s, i)
    ensures var t := ApplyEnqueue(s, event, target, force, cfg);
      i < |t.rows| && (Sole(t, i) <==> !Disturbs(s, Enqueue(event, target, force), i, cfg))
  {
    if HasKey(s.rows[i], event, target) { FoundIs(s, event, target, i); }
  }

  lemma NewRowSole(s: State, event: string, target: string, force: bool, cfg: Config, i: nat)
    requires Sound(s) && |s.rows| <= i < |ApplyEnqueue(s, event, target, force, cfg).rows|
    ensures Sole(ApplyEnqueue(s, event, target, force, cfg), i)
  {
    TallyNone(s.claims, HoldsRow(i));
  }

  lemma HandleSole(s: State, c: nat, st: Status, nextAt: Option<int>, cfg: Config, i: nat)
    requires c < |s.claims| && s.claims[c].row < |s.rows| && i < |s.rows| && Sole(s, i)
    ensures var t := Handle(s, c, st, nextAt, cfg);
      && |t.rows| == |s.rows|
      && (Sole(t, i) <==>
            !(s.claims[c].row == i && s.claims[c].handled && Claimable(st) && Live(s.claims, i) == 1
              && !s.rows[i].gone))
  {
    TallyAt(s.claims, c, HoldsRow(i));
    TallySet(s.claims, c, s.claims[c].(handled := true), HoldsRow(i));
  }

  lemma ErrorSole(s: State, step: Step, cfg: Config, i: nat)
    requires Sound(s) && i < |s.rows| && Sole(s, i) && (step.Fail? || step.Retry?)
    ensures var t := Apply(s, step, cfg); |t.rows| == |s.rows| && (Sole(t, i) <==> !Disturbs(s, step, i, cfg))
  {
    var c := step.claim;
    if c < |s.claims| {
      if step.Retry? && s.claims[c].attempt < cfg.maxAttempts {
        HandleSole(s, c, Retrying, Some(s.now + step.delay), cfg, i);
        assert Apply(s, step, cfg) == Handle(s, c, Retrying, Some(s.now + step.delay), cfg);
      } else {
        HandleSole(s, c, Failed, Some(s.now), cfg, i);
        assert Apply(s, step, cfg) == Handle(s, c, Failed, Some(s.now), cfg);
      }
    }
  }

  lemma WorkerSole(s: State, step: Step, cfg: Config, i: nat)
    requires Sound(s) && i < |s.rows| && Sole(s, i)
    requires step.Take? || step.Deliver? || step.Success? || step.FailOpen? || step.Drop?
    ensures var t := Apply(s, step, cfg); |t.rows| == |s.rows| && Sole(t, i)
  {
    if step.Take? {
      if Apply(s, step, cfg) != s {
        var x := Claim(step.row, s.rows[step.row].attempts + 1, s.rows[step.row].version, false, false);
        TallyAppend(s.claims, [x], HoldsRow(i));
        TallyOne(x, HoldsRow(i));
      }
    } else if step.claim < |s.claims| {
      TallyAt(s.claims, step.claim, HoldsRow(i));
      TallySet(s.claims, step.claim, s.claims[step.claim].(delivered := true), HoldsRow(i));
    }
  }

  lemma BatchSole(s: State, step: Step, cfg: Config, i: nat)
    requires i < |s.rows| && Sole(s, i) && (step.Recover? || step.FailBacklog? || step.Collect? || step.Prune?)
    ensures var t := Apply(s, step, cfg); |t.rows| == |s.rows| && (Sole(t, i) <==> !Disturbs(s, step, i, cfg))
  {
  }

  lemma StepSole(s: State, step: Step, cfg: Config, i: nat)
    requires Sound(s) && i < |s.rows| && Sole(s, i)
    ensures var t := Apply(s, step, cfg); i < |t.rows| && (Sole(t, i) <==> !Disturbs(s, step, i, cfg))
  {
    if step.Enqueue? {
      EnqueueSole(s, step.event, step.target, step.force, cfg, i);
    } else if step.Fail? || step.Retry? {
      ErrorSole(s, step, cfg, i);
    } else if step.Take? || step.Deliver? || step.Success? || step.FailOpen? || step.Drop? {
      WorkerSole(s, step, cfg, i);
    } else if !step.Tick? && !step.Restart? {
      BatchSole(s, step, cfg, i);
    }
  }

  /** A step keeps every job with one worker at most exactly when it puts no row back that a worker holds. */
  lemma StepExclusive(s: State, step: Step, cfg: Config)
    requires Sound(s) && Exclusive(s)
    ensures Exclusive(Apply(s, step, cfg)) <==> Undisturbed(s, step, cfg)
  {
    var t := Apply(s, step, cfg);
    if Undisturbed(s, step, cfg) {
      forall i | 0 <= i < |t.rows| ensures Sole(t, i) {
        if i < |s.rows| { StepSole(s, step, cfg, i); } else { RowsOnlyAdded(s, step, cfg, i); }
      }
    } else {
      var i :| 0 <= i < |s.rows| && Disturbs(s, step, i, cfg);
      StepSole(s, step, cfg, i);
    }
  }

  lemma RowsOnlyAdded(s: State, step: Step, cfg: Config, i: nat)
    requires Sound(s) && |s.rows| <= i < |Apply(s, step, cfg).rows|
    ensures Sole(Apply(s, step, cfg), i)
  {
    if step.Enqueue? { NewRowSole(s, step.event, step.target, step.force, cfg, i); }
  }

  ghost predicate UndisturbedRun(s: State, steps: seq<Step>, cfg: Config)
    decreases |steps|
  {
    steps != [] ==> Undisturbed(s, steps[0], cfg) && UndisturbedRun(Apply(s, steps[0], cfg), steps[1..], cfg)
  }

  lemma {:induction false} ExclusiveRun(s: State, steps: seq<Step>, cfg: Config)
    requires Sound(s) && Behind(s) && Exclusive(s) && UndisturbedRun(s, steps, cfg)
    ensures Exclusive(Run(s, steps, cfg))
    decreases |steps|
  {
    if steps != [] {
      StepSound(s, steps[0], cfg);
      StepExclusive(s, steps[0], cfg);
      ExclusiveRun(Apply(s, steps[0], cfg), steps[1..], cfg);
    }
  }

  /** A held row that has been put back can be claimed by a second worker once it is due. */
  lemma PutBackIsShared(s: State, i: nat, cfg: Config)
    requires i < |s.rows| && Live(s.claims, i) >= 1 && !s.rows[i].gone && Claimable(s.rows[i].status)
    ensures var at := if s.now < s.rows[i].nextAt then s.rows[i].nextAt else s.now;
      Live(Run(s, [Tick(at), Take(i)], cfg).claims, i) == Live(s.claims, i) + 1
  {
    var at := if s.now < s.rows[i].nextAt then s.rows[i].nextAt else s.now;
    RunOfTwo(s, Tick(at), Take(i), Under(cfg));
    var x := Claim(i, s.rows[i].attempts + 1, s.rows[i].version, false, false);
    TallyAppend(s.claims, [x], HoldsRow(i));
    TallyOne(x, HoldsRow(i));
  }

  // ---------- One process ----------

  /** One process without forced requeues: rows are recovered only at start-up, that is after a restart and before the
      first claim. `idle`: no worker has claimed anything since the start. */
  predicate OneProcess(steps: seq<Step>, idle: bool) {
    steps == [] ||
    match steps[0]
    case Recover(_) => idle && OneProcess(steps[1..], idle)
    case Enqueue(_, _, force) => !force && OneProcess(steps[1..], idle)
    case Restart => OneProcess(steps[1..], true)
    case Take(_) => OneProcess(steps[1..], false)
    case _ => OneProcess(steps[1..], idle)
  }

  /** No job is put back again for an error that has been dealt with. */
  ghost predicate OncePutBack(s: State, steps: seq<Step>, cfg: Config)
    decreases |steps|
  {
    steps != [] ==>
      && (steps[0].Retry? && steps[0].claim < |s.claims| ==> !s.claims[steps[0].claim].handled)
      && OncePutBack(Apply(s, steps[0], cfg), steps[1..], cfg)
  }

  /** Nothing but a claim adds to the workers. */
  lemma NoNewClaims(s: State, step: Step, cfg: Config)
    requires s.claims == [] && !step.Take?
    ensures Apply(s, step, cfg).claims == []
  {
  }

  /** One process gives no job two workers as long as it deals with no error twice. */
  lemma {:induction false} OneProcessExclusive(s: State, steps: seq<Step>, idle: bool, cfg: Config)
    requires Sound(s) && Behind(s) && Exclusive(s) && (idle ==> s.claims == [])
    requires OneProcess(steps, idle) && OncePutBack(s, steps, cfg)
    ensures Exclusive(Run(s, steps, cfg))
    decreases |steps|
  {
    if steps != [] {
      var step := steps[0];
      StepSound(s, step, cfg);
      LeavesHeldAlone(s, step, idle, cfg);
      StepExclusive(s, step, cfg);
      if idle && !step.Take? { NoNewClaims(s, step, cfg); }
      OneProcessExclusive(Apply(s, step, cfg), steps[1..], step.Restart? || (idle && !step.Take?), cfg);
    }
  }

  lemma LeavesHeldAlone(s: State, step: Step, idle: bool, cfg: Config)
    requires (idle ==> s.claims == []) && (step.Recover? ==> idle) && (step.Enqueue? ==> !step.force)
    requires step.Retry? && step.claim < |s.claims| ==> !s.claims[step.claim].handled
    ensures Undisturbed(s, step, cfg)
  {
  }

  ghost predicate NoneHandled(s: State) { forall x <- s.claims :: !x.handled }

  lemma NoneHandledStep(s: State, step: Step, cfg: Config)
    requires NoneHandled(s) && forall target :: !cfg.letta(target)
    ensures NoneHandled(Apply(s, step, cfg))
  {
  }

  lemma {:induction false} NoneHandledRun(s: State, steps: seq<Step>, cfg: Config)
    requires NoneHandled(s) && forall target :: !cfg.letta(target)
    ensures OncePutBack(s, steps, cfg)
    decreases |steps|
  {
    if steps != [] {
      NoneHandledStep(s, steps[0], cfg);
      NoneHandledRun(Apply(s, steps[0], cfg), steps[1..], cfg);
    }
  }

  /** So with no sink pushed job by job the order of the steps decides alone: whatever else one process does, from an
      empty outbox on no job has two workers. */
  lemma OneProcessOneWorker(now: int, steps: seq<Step>, cfg: Config)
    requires OneProcess(steps, true) && forall target :: !cfg.letta(target)
    ensures Exclusive(Run(Start(now), steps, cfg))
  {
    NoneHandledRun(Start(now), steps, cfg);
    OneProcessExclusive(Start(now), steps, true, cfg);
  }

  // ---------- Jobs left running by a crash ----------

  /** A running row on which no worker works. */
  ghost predicate Orphaned(s: State, i: nat) {
    i < |s.rows| && !s.rows[i].gone && s.rows[i].status == Running && forall x <- s.claims :: x.row != i
  }

  /** Steps that change this row all the same: a recovery that finds it stale, a forced requeue of its event, giving up
      on its sink, and deleting it. */
  predicate Touches(s: State, step: Step, i: nat, cfg: Config)
    requires i < |s.rows|
  {
    match step
    case Recover(age) => Stale(s.rows[i], s.now, age)
    case Enqueue(event, target, force) => force && HasKey(s.rows[i], event, target)
    case FailBacklog(target) => s.rows[i].target == target
    case Collect(p) => Expired(s.rows[i], s.now, p)
    case Prune(which) => i in which && cfg.letta(s.rows[i].target)
    case _ => false
  }

  /** Nothing else does: an orphan stays exactly as it is. */
  lemma OrphanStep(s: State, step: Step, i: nat, cfg: Config)
    requires Sound(s) && Orphaned(s, i) && !Touches(s, step, i, cfg)
    ensures var t := Apply(s, step, cfg); Orphaned(t, i) && t.rows[i] == s.rows[i]
  {
    OrphanRow(s, step, i, cfg);
    OrphanClaims(s, step, i, cfg);
  }

  lemma OrphanRow(s: State, step: Step, i: nat, cfg: Config)
    requires Sound(s) && Orphaned(s, i) && !Touches(s, step, i, cfg)
    ensures i < |Apply(s, step, cfg).rows| && Apply(s, step, cfg).rows[i] == s.rows[i]
  {
    if step.Enqueue? {
      NotWritten(s, step.event, step.target, step.force, i, cfg);
    } else if step.Fail? || step.Retry? || step.Success? || step.FailOpen? {
      NotMarked(s, step, i, cfg);
    }
  }

  lemma NotWritten(s: State, event: string, target: string, force: bool, i: nat, cfg: Config)
    requires Orphaned(s, i) && !Touches(s, Enqueue(event, target, force), i, cfg)
    ensures WritesTo(s, event, target, force, cfg) != Some(i)
  {
  }

  lemma NotMarked(s: State, step: Step, i: nat, cfg: Config)
    requires Sound(s) && Orphaned(s, i) && (step.Fail? || step.Retry? || step.Success? || step.FailOpen?)
    ensures |Apply(s, step, cfg).rows| == |s.rows| && Apply(s, step, cfg).rows[i] == s.rows[i]
  {
    assert step.claim < |s.claims| ==> s.claims[step.claim] in s.claims;
  }

  lemma OrphanClaims(s: State, step: Step, i: nat, cfg: Config)
    requires Orphaned(s, i)
    ensures forall x <- Apply(s, step, cfg).claims :: x.row != i
  {
  }

  ghost predicate TouchedIn(s: State, steps: seq<Step>, i: nat, cfg: Config)
    requires i < |s.rows| && Sound(s) && Behind(s)
    decreases |steps|
  {
    && steps != []
    && (|| Touches(s, steps[0], i, cfg)
        || (StepSound(s, steps[0], cfg); TouchedIn(Apply(s, steps[0], cfg), steps[1..], i, cfg)))
  }

  /** A job that was running when its worker died stays as it is until a step touches it. */
  lemma {:induction false} OrphansStay(s: State, steps: seq<Step>, i: nat, cfg: Config)
    requires Sound(s) && Behind(s) && Orphaned(s, i) && !TouchedIn(s, steps, i, cfg)
    ensures var t := Run(s, steps, cfg); Orphaned(t, i) && t.rows[i] == s.rows[i]
    decreases |steps|
  {
    if steps != [] {
      StepSound(s, steps[0], cfg);
      OrphanStep(s, steps[0], i, cfg);
      OrphansStay(Apply(s, steps[0], cfg), steps[1..], i, cfg);
    }
  }

  lemma AfterRestart(s: State, to: int, age: nat, i: nat, cfg: Config)
    requires i < |s.rows| && !s.rows[i].gone && s.rows[i].status == Running && to >= s.now
    ensures var t := Run(s, [Restart, Tick(to), Recover(age)], cfg);
      && |t.rows| == |s.rows| && t.claims == [] && t.now == to
      && t.rows[i] == Recovered(s.rows, to, age)[i]
  {
    RunOfThree(s, Restart, Tick(to), Recover(age), Under(cfg));
  }

  /** A restart and a recovery bring a running row back exactly when it is old enough by then: the next claim makes it
      the job of one worker, with one attempt more. Otherwise it stays as it is through whatever does not touch it. */
  lemma RestartRecovers(s: State, to: int, age: nat, i: nat, steps: seq<Step>, cfg: Config)
    requires Sound(s) && Behind(s)
    requires i < |s.rows| && !s.rows[i].gone && s.rows[i].status == Running && to >= s.now
    ensures var t := Run(s, [Restart, Tick(to), Recover(age)], cfg);
      && Sound(t) && Behind(t) && i < |t.rows|
      && if s.rows[i].lastAt.None? || s.rows[i].lastAt.value <= to - age then
           var u := Run(t, [Take(i)], cfg);
           && i < |u.rows| && u.rows[i].status == Running && u.rows[i].attempts == s.rows[i].attempts + 1
           && Live(u.claims, i) == 1
         else
           var u := Run(t, steps, cfg);
           Orphaned(t, i) && (!TouchedIn(t, steps, i, cfg) ==> Orphaned(u, i) && u.rows[i] == s.rows[i])
  {
    var t := Run(s, [Restart, Tick(to), Recover(age)], cfg);
    RunSound(s, [Restart, Tick(to), Recover(age)], cfg);
    AfterRestart(s, to, age, i, cfg);
    if Stale(s.rows[i], to, age) {
      ClaimedAlone(t, i, cfg);
    } else if !TouchedIn(t, steps, i, cfg) {
      OrphansStay(t, steps, i, cfg);
    }
  }

  lemma ClaimedAlone(s: State, i: nat, cfg: Config)
    requires i < |s.rows| && !s.rows[i].gone && Claimable(s.rows[i].status) && s.rows[i].nextAt <= s.now
    requires s.claims == []
    ensures var t := Run(s, [Take(i)], cfg);
      && |t.rows| == |s.rows| && t.rows[i].status == Running && t.rows[i].attempts == s.rows[i].attempts + 1
      && Live(t.claims, i) == 1
  {
    RunOfOne(s, Take(i), Under(cfg));
    var x := Claim(i, s.rows[i].attempts + 1, s.rows[i].version, false, false);
    assert Apply(s, Take(i), cfg).claims == [x];
    TallyOne(x, HoldsRow(i));
  }
}
