/** How often a fan-out job can be tried since it was last put back by force: the limit, plus one for every
    recovery, for every error dealt with twice, and for every claim that was live when it was put back. */
module FanoutAttempts {
  import opened Text
  import opened Lists
  import opened Runs
  import opened FanoutQueue

  /** A claim whose failure would put the row back for another attempt. */
  function IsLow(row: nat, max: nat): Claim -> bool { (c: Claim) => c.row == row && !c.handled && c.attempt < max }

  function Low(claims: seq<Claim>, row: nat, max: nat): nat { Tally(claims, IsLow(row, max)) }

  /** Attempts made, plus all that can still follow without anything extra: claims not yet made below the limit, live
      claims below the limit, and the claim the row is waiting for. */
  function Potential(r: Row, low: nat, max: nat): int {
    r.attempts + (if r.attempts < max then max - 1 - r.attempts else 0) + low + if Claimable(r.status) then 1 else 0
  }

  ghost predicate Bounded(s: State, i: nat, max: nat)
    requires i < |s.rows|
  {
    Potential(s.rows[i], Low(s.claims, i, max), max) <= max + s.rows[i].extra
  }

  ghost predicate AllBounded(s: State, max: nat) {
    forall i :: 0 <= i < |s.rows| ==> Bounded(s, i, max)
  }

  lemma EnqueueBounded(s: State, event: string, target: string, force: bool, cfg: Config, i: nat)
    requires Sound(s) && AllBounded(s, cfg.maxAttempts) && cfg.maxAttempts >= 1
    requires i < |ApplyEnqueue(s, event, target, force, cfg).rows|
    ensures Bounded(ApplyEnqueue(s, event, target, force, cfg), i, cfg.maxAttempts)
  {
    if i < |s.rows| {
      assert Bounded(s, i, cfg.maxAttempts);
      TallyFewer(s.claims, IsLow(i, cfg.maxAttempts), HoldsRow(i));
    } else {
      TallyNone(s.claims, IsLow(i, cfg.maxAttempts));
    }
  }

  /** A claim that has been dealt with no longer counts as low, whether it stays or ends. */
  lemma HandleLow(s: State, c: nat, st: Status, nextAt: Option<int>, cfg: Config, i: nat)
    requires c < |s.claims| && s.claims[c].row < |s.rows|
    ensures var max := cfg.maxAttempts;
      Low(Handle(s, c, st, nextAt, cfg).claims, i, max) + (if IsLow(i, max)(s.claims[c]) then 1 else 0)
      == Low(s.claims, i, max)
  {
    TallyAt(s.claims, c, IsLow(i, cfg.maxAttempts));
    TallySet(s.claims, c, s.claims[c].(handled := true), IsLow(i, cfg.maxAttempts));
  }

  /** What dealing with an error does to a row: nothing elsewhere, and on the claim's own row the mark. */
  lemma HandleRow(s: State, c: nat, st: Status, nextAt: Option<int>, cfg: Config, i: nat)
    requires c < |s.claims| && s.claims[c].row < |s.rows| && i < |s.rows|
    ensures var r, r' := s.rows[i], Handle(s, c, st, nextAt, cfg).rows[i];
      if i != s.claims[c].row || r.gone then r' == r
      else r'.attempts == r.attempts && r'.status == st && r'.extra == r.extra + if s.claims[c].handled then 1 else 0
  {
  }

  /** Dealing with an error uses the claim up, or is counted as extra. */
  lemma HandleBounded(s: State, c: nat, st: Status, nextAt: Option<int>, cfg: Config, i: nat)
    requires Sound(s) && AllBounded(s, cfg.maxAttempts) && cfg.maxAttempts >= 1 && c < |s.claims| && i < |s.rows|
    requires Claimable(st) ==> s.claims[c].attempt < cfg.maxAttempts
    ensures i < |Handle(s, c, st, nextAt, cfg).rows| && Bounded(Handle(s, c, st, nextAt, cfg), i, cfg.maxAttempts)
  {
    assert Bounded(s, i, cfg.maxAttempts);
    HandleLow(s, c, st, nextAt, cfg, i);
    HandleRow(s, c, st, nextAt, cfg, i);
  }

  lemma TakeBounded(s: State, k: nat, cfg: Config, i: nat)
    requires AllBounded(s, cfg.maxAttempts) && cfg.maxAttempts >= 1 && i < |s.rows|
    ensures Bounded(Apply(s, Take(k), cfg), i, cfg.maxAttempts)
  {
    assert Bounded(s, i, cfg.maxAttempts);
    if Apply(s, Take(k), cfg) != s {
      var x := Claim(k, s.rows[k].attempts + 1, s.rows[k].version, false, false);
      TallyAppend(s.claims, [x], IsLow(i, cfg.maxAttempts));
      TallyOne(x, IsLow(i, cfg.maxAttempts));
    }
  }

  /** Statements over the whole table. */
  lemma BatchBounded(s: State, step: Step, cfg: Config, i: nat)
    requires AllBounded(s, cfg.maxAttempts) && cfg.maxAttempts >= 1 && i < |s.rows|
    requires step.Recover? || step.FailBacklog? || step.Collect? || step.Prune?
    ensures Bounded(Apply(s, step, cfg), i, cfg.maxAttempts)
  {
    assert Bounded(s, i, cfg.maxAttempts);
  }

  lemma ClaimBounded(s: State, step: Step, cfg: Config, i: nat)
    requires Sound(s) && AllBounded(s, cfg.maxAttempts) && cfg.maxAttempts >= 1 && i < |s.rows|
    requires step.Deliver? || step.Success? || step.FailOpen? || step.Drop?
    ensures Bounded(Apply(s, step, cfg), i, cfg.maxAttempts)
  {
    assert Bounded(s, i, cfg.maxAttempts);
    var c := step.claim;
    if c < |s.claims| {
      TallyAt(s.claims, c, IsLow(i, cfg.maxAttempts));
      TallySet(s.claims, c, s.claims[c].(delivered := true), IsLow(i, cfg.maxAttempts));
    }
  }

  lemma ErrorBounded(s: State, step: Step, cfg: Config, i: nat)
    requires Sound(s) && AllBounded(s, cfg.maxAttempts) && cfg.maxAttempts >= 1 && i < |s.rows|
    requires step.Fail? || step.Retry?
    ensures Bounded(Apply(s, step, cfg), i, cfg.maxAttempts)
  {
    assert Bounded(s, i, cfg.maxAttempts);
    var c := step.claim;
    if c < |s.claims| {
      if step.Retry? && s.claims[c].attempt < cfg.maxAttempts {
        HandleBounded(s, c, Retrying, Some(s.now + step.delay), cfg, i);
        assert Apply(s, step, cfg) == Handle(s, c, Retrying, Some(s.now + step.delay), cfg);
      } else {
        HandleBounded(s, c, Failed, Some(s.now), cfg, i);
        assert Apply(s, step, cfg) == Handle(s, c, Failed, Some(s.now), cfg);
      }
    }
  }

  lemma SameCount(s: State, step: Step, cfg: Config)
    requires !step.Enqueue?
    ensures |Apply(s, step, cfg).rows| == |s.rows|
  {
  }

  lemma StepBounded(s: State, step: Step, cfg: Config, i: nat)
    requires Sound(s) && AllBounded(s, cfg.maxAttempts) && cfg.maxAttempts >= 1 && i < |Apply(s, step, cfg).rows|
    ensures Bounded(Apply(s, step, cfg), i, cfg.maxAttempts)
  {
    if step.Enqueue? {
      EnqueueBounded(s, step.event, step.target, step.force, cfg, i);
    } else {
      SameCount(s, step, cfg);
      assert Bounded(s, i, cfg.maxAttempts);
      if step.Take? {
        TakeBounded(s, step.row, cfg, i);
      } else if step.Fail? || step.Retry? {
        ErrorBounded(s, step, cfg, i);
      } else if step.Deliver? || step.Success? || step.FailOpen? || step.Drop? {
        ClaimBounded(s, step, cfg, i);
      } else if !step.Tick? && !step.Restart? {
        BatchBounded(s, step, cfg, i);
      }
    }
  }

  /** In every run no job is claimed more than `maxAttempts + extra` times since it was last put back by force. */
  lemma {:induction false} AttemptsBound(s: State, steps: seq<Step>, cfg: Config)
    requires Sound(s) && Behind(s) && AllBounded(s, cfg.maxAttempts) && cfg.maxAttempts >= 1
    ensures var t := Run(s, steps, cfg);
      && AllBounded(t, cfg.maxAttempts)
      && forall i :: 0 <= i < |t.rows| ==> t.rows[i].attempts <= cfg.maxAttempts + t.rows[i].extra
    decreases |steps|
  {
    if steps == [] {
      forall i | 0 <= i < |s.rows| ensures s.rows[i].attempts <= cfg.maxAttempts + s.rows[i].extra {
        assert Bounded(s, i, cfg.maxAttempts);
      }
    } else {
      var m := Apply(s, steps[0], cfg);
      StepSound(s, steps[0], cfg);
      forall i | 0 <= i < |m.rows| ensures Bounded(m, i, cfg.maxAttempts) { StepBounded(s, steps[0], cfg, i); }
      AttemptsBound(m, steps[1..], cfg);
    }
  }

  /** Steps that add nothing to `extra`: no recovery, nothing forced, and no error dealt with a second time. */
  predicate Calm(s: State, step: Step) {
    match step
    case Recover(_) => false
    case Enqueue(_, _, force) => !force
    case Fail(c) => c < |s.claims| ==> !s.claims[c].handled
    case Retry(c, _) => c < |s.claims| ==> !s.claims[c].handled
    case _ => true
  }

  ghost predicate CalmRun(s: State, steps: seq<Step>, cfg: Config)
    decreases |steps|
  {
    steps != [] ==> Calm(s, steps[0]) && CalmRun(Apply(s, steps[0], cfg), steps[1..], cfg)
  }

  ghost predicate NoExtra(s: State) { forall i :: 0 <= i < |s.rows| ==> s.rows[i].extra == 0 }

  lemma CalmStep(s: State, step: Step, cfg: Config)
    requires Calm(s, step) && NoExtra(s)
    ensures NoExtra(Apply(s, step, cfg))
  {
  }

  lemma {:induction false} CalmNoExtra(s: State, steps: seq<Step>, cfg: Config)
    requires NoExtra(s) && CalmRun(s, steps, cfg)
    ensures NoExtra(Run(s, steps, cfg))
    decreases |steps|
  {
    if steps != [] {
      CalmStep(s, steps[0], cfg);
      CalmNoExtra(Apply(s, steps[0], cfg), steps[1..], cfg);
    }
  }

  /** In a calm run the limit itself holds, from an empty outbox on. */
  lemma CalmAttempts(now: int, steps: seq<Step>, cfg: Config)
    requires cfg.maxAttempts >= 1 && CalmRun(Start(now), steps, cfg)
    ensures var t := Run(Start(now), steps, cfg);
      forall i :: 0 <= i < |t.rows| ==> t.rows[i].attempts <= cfg.maxAttempts
  {
    CalmNoExtra(Start(now), steps, cfg);
    AttemptsBound(Start(now), steps, cfg);
  }

  // ---------- The bound is reached ----------

  /** One row, claimed once just now, tried `attempts` times. */
  ghost predicate Held(s: State, attempts: nat, extra: nat) {
    && |s.rows| == 1 && !s.rows[0].gone && s.rows[0].status == Running && s.rows[0].target == "t"
    && s.rows[0].attempts == attempts && s.rows[0].extra == extra && s.rows[0].lastAt == Some(s.now)
    && s.claims == [Claim(0, attempts, s.rows[0].version, false, false)]
  }

  /** A retry after some delay: the job waits it out and is claimed again. */
  function Again(at: int, delay: nat): seq<Step> { [Retry(0, delay), Drop(0)] + [Tick(at), Take(0)] }

  /** Retries one after the other, each with its own delay. */
  function Retries(delays: seq<nat>, now: int): seq<Step> {
    if delays == [] then [] else Again(now + delays[0], delays[0]) + Retries(delays[1..], now + delays[0])
  }

  function Sum(delays: seq<nat>): nat { if delays == [] then 0 else delays[0] + Sum(delays[1..]) }

  lemma RetryOnce(s: State, attempts: nat, delay: nat, cfg: Config)
    requires Held(s, attempts, 0) && attempts < cfg.maxAttempts
    ensures var t := Run(s, Again(s.now + delay, delay), cfg); Held(t, attempts + 1, 0) && t.now == s.now + delay
  {
    RunOfAppend(s, [Retry(0, delay), Drop(0)], [Tick(s.now + delay), Take(0)], Under(cfg));
    RunOfTwo(s, Retry(0, delay), Drop(0), Under(cfg));
    var m := Apply(Apply(s, Retry(0, delay), cfg), Drop(0), cfg);
    RetriedWaits(s, attempts, delay, cfg);
    RunOfTwo(m, Tick(s.now + delay), Take(0), Under(cfg));
  }

  lemma RetriedWaits(s: State, attempts: nat, delay: nat, cfg: Config)
    requires Held(s, attempts, 0) && attempts < cfg.maxAttempts
    ensures var m := Apply(Apply(s, Retry(0, delay), cfg), Drop(0), cfg);
      && m.claims == [] && m.now == s.now && |m.rows| == 1 && !m.rows[0].gone && m.rows[0].target == "t"
      && m.rows[0].status == Retrying && m.rows[0].nextAt == s.now + delay
      && m.rows[0].attempts == attempts && m.rows[0].extra == 0
  {
  }

  lemma {:induction false} ManyRetries(s: State, attempts: nat, delays: seq<nat>, cfg: Config)
    requires Held(s, attempts, 0) && attempts + |delays| <= cfg.maxAttempts
    ensures var t := Run(s, Retries(delays, s.now), cfg);
      Held(t, attempts + |delays|, 0) && t.now == s.now + Sum(delays)
    decreases |delays|
  {
    if delays != [] {
      var first := Again(s.now + delays[0], delays[0]);
      RetryOnce(s, attempts, delays[0], cfg);
      RunOfAppend(s, first, Retries(delays[1..], s.now + delays[0]), Under(cfg));
      ManyRetries(Run(s, first, cfg), attempts + 1, delays[1..], cfg);
    }
  }

  /** The process dies, comes back when the job is old enough, recovers it and claims it again. */
  function Rebirth(at: int, age: nat): seq<Step> { [Restart, Tick(at)] + [Recover(age), Take(0)] }

  function Rebirths(n: nat, now: int, age: nat): seq<Step> {
    if n == 0 then [] else Rebirths(n - 1, now, age) + Rebirth(now + n * age, age)
  }

  lemma RebirthOnce(s: State, attempts: nat, extra: nat, age: nat, cfg: Config)
    requires Held(s, attempts, extra)
    ensures var t := Run(s, Rebirth(s.now + age, age), cfg); Held(t, attempts + 1, extra + 1) && t.now == s.now + age
  {
    RunOfAppend(s, [Restart, Tick(s.now + age)], [Recover(age), Take(0)], Under(cfg));
    RunOfTwo(s, Restart, Tick(s.now + age), Under(cfg));
    var m := Apply(Apply(s, Restart, cfg), Tick(s.now + age), cfg);
    RunOfTwo(m, Recover(age), Take(0), Under(cfg));
    assert Stale(m.rows[0], m.now, age);
  }

  lemma {:induction false} ManyRebirths(s: State, n: nat, attempts: nat, age: nat, cfg: Config)
    requires Held(s, attempts, 0)
    ensures var t := Run(s, Rebirths(n, s.now, age), cfg); Held(t, attempts + n, n) && t.now == s.now + n * age
  {
    if n > 0 {
      ManyRebirths(s, n - 1, attempts, age, cfg);
      var m := Run(s, Rebirths(n - 1, s.now, age), cfg);
      assert s.now + n * age == m.now + age;
      RunOfAppend(s, Rebirths(n - 1, s.now, age), Rebirth(m.now + age, age), Under(cfg));
      RebirthOnce(m, attempts + n - 1, n - 1, age, cfg);
    }
  }

  const FIRST: seq<Step> := [Enqueue("e", "t", false), Take(0)]

  lemma FirstTake(now: int, cfg: Config)
    ensures var t := Run(Start(now), FIRST, cfg); Held(t, 1, 0) && t.now == now
  {
    RunOfTwo(Start(now), Enqueue("e", "t", false), Take(0), Under(cfg));
    var m := Apply(Start(now), Enqueue("e", "t", false), cfg);
    assert m.rows == [Row("e", "t", 0, Pending, 0, now, None, now, None, 0, false)];
  }

  /** Claimed at once and then retried with these delays. */
  lemma TriedSoFar(now: int, delays: seq<nat>, cfg: Config)
    requires |delays| + 1 <= cfg.maxAttempts
    ensures var t := Run(Start(now), FIRST + Retries(delays, now), cfg);
      Held(t, |delays| + 1, 0) && t.now == now + Sum(delays)
  {
    FirstTake(now, cfg);
    RunOfAppend(Start(now), FIRST, Retries(delays, now), Under(cfg));
    ManyRetries(Run(Start(now), FIRST, cfg), 1, delays, cfg);
  }

  /** For every limit, all delays between its attempts, every age and every number of restarts some run from an empty
      outbox makes exactly that many attempts, with no worker alive at any recovery. */
  lemma AttemptsReached(now: int, delays: seq<nat>, restarts: nat, age: nat, cfg: Config)
    requires |delays| + 1 == cfg.maxAttempts
    ensures var steps := FIRST + Retries(delays, now) + Rebirths(restarts, now + Sum(delays), age);
      var t := Run(Start(now), steps, cfg);
      |t.rows| == 1 && t.rows[0].attempts == cfg.maxAttempts + restarts && t.rows[0].extra == restarts
  {
    var b, c := Retries(delays, now), Rebirths(restarts, now + Sum(delays), age);
    TriedSoFar(now, delays, cfg);
    RunOfAppend(Start(now), FIRST + b, c, Under(cfg));
    ManyRebirths(Run(Start(now), FIRST + b, cfg), restarts, cfg.maxAttempts, age, cfg);
  }

  /** The job is put back, waits and is claimed by another worker. */
  function PutBack(at: int, delay: nat): seq<Step> { [Retry(0, delay), Tick(at), Take(0)] }

  lemma PutBackFirst(s: State, attempts: nat, delay: nat, cfg: Config)
    requires Held(s, attempts, 0) && attempts < cfg.maxAttempts && cfg.letta("t")
    ensures var t := Run(s, PutBack(s.now + delay, delay), cfg);
      && t.now == s.now + delay && |t.rows| == 1 && !t.rows[0].gone && t.rows[0].target == "t"
      && t.rows[0].attempts == attempts + 1 && t.rows[0].extra == 0
      && |t.claims| == 2 && t.claims[0] == s.claims[0].(handled := true)
  {
    RunOfThree(s, Retry(0, delay), Tick(s.now + delay), Take(0), Under(cfg));
    var a := Apply(s, Retry(0, delay), cfg);
    assert a.claims == [s.claims[0].(handled := true)] && a.now == s.now && |a.rows| == 1 && !a.rows[0].gone
      && a.rows[0].status == Retrying && a.rows[0].nextAt == s.now + delay;
  }

  lemma PutBackAgain(s: State, attempts: nat, delay: nat, cfg: Config)
    requires |s.rows| == 1 && !s.rows[0].gone && s.rows[0].extra == 0 && s.rows[0].attempts == attempts
    requires |s.claims| > 0 && s.claims[0].row == 0 && s.claims[0].handled && s.claims[0].attempt < cfg.maxAttempts
    ensures var t := Run(s, PutBack(s.now + delay, delay), cfg);
      |t.rows| == 1 && t.rows[0].attempts == attempts + 1 && t.rows[0].extra == 1
  {
    RunOfThree(s, Retry(0, delay), Tick(s.now + delay), Take(0), Under(cfg));
    var a := Apply(s, Retry(0, delay), cfg);
    assert a.now == s.now && |a.rows| == 1 && a.rows[0].extra == 1 && a.rows[0].attempts == attempts
      && !a.rows[0].gone && a.rows[0].status == Retrying && a.rows[0].nextAt == s.now + delay;
  }

  /** Claimed by a second worker while the first is still at its batch, and then handled by the first once more. */
  lemma TwiceHandled(s: State, attempts: nat, d: nat, e: nat, cfg: Config)
    requires Held(s, attempts, 0) && attempts < cfg.maxAttempts && cfg.letta("t")
    ensures var t := Run(s, PutBack(s.now + d, d) + PutBack(s.now + d + e, e), cfg);
      |t.rows| == 1 && t.rows[0].attempts == attempts + 2 && t.rows[0].extra == 1
  {
    RunOfAppend(s, PutBack(s.now + d, d), PutBack(s.now + d + e, e), Under(cfg));
    PutBackFirst(s, attempts, d, cfg);
    PutBackAgain(Run(s, PutBack(s.now + d, d), cfg), attempts + 1, e, cfg);
  }

  /** Where errors can be dealt with twice the limit is passed without any recovery or forced requeue, whatever the
      delays. */
  lemma HandledTwiceReached(now: int, delays: seq<nat>, d: nat, e: nat, cfg: Config)
    requires |delays| + 2 == cfg.maxAttempts && cfg.letta("t")
    ensures var at := now + Sum(delays);
      var steps := FIRST + Retries(delays, now) + (PutBack(at + d, d) + PutBack(at + d + e, e));
      var t := Run(Start(now), steps, cfg);
      |t.rows| == 1 && t.rows[0].attempts == cfg.maxAttempts + 1 && t.rows[0].extra == 1
  {
    var at, b := now + Sum(delays), Retries(delays, now);
    TriedSoFar(now, delays, cfg);
    RunOfAppend(Start(now), FIRST + b, PutBack(at + d, d) + PutBack(at + d + e, e), Under(cfg));
    TwiceHandled(Run(Start(now), FIRST + b, cfg), cfg.maxAttempts - 1, d, e, cfg);
  }
}
