/** Which accepted events the fan-out outbox loses: deleted before they were pushed, with no worker left to push
    them. */
module FanoutLosses {
  import opened Text
  import opened Lists
  import opened Runs
  import opened FanoutQueue
  import opened FanoutDelivery

  /** No worker can push the row any more. */
  ghost predicate Abandoned(s: State, i: nat) { forall x <- s.claims :: x.handled || x.row != i }

  /** The row has been deleted without being pushed, and no worker holds it. */
  ghost predicate LostRow(s: State, i: nat)
    requires i < |s.rows|
  {
    s.rows[i].gone && !Pushed(s, i) && Abandoned(s, i)
  }

  /** Every row that carries the event is lost. */
  ghost predicate Lost(s: State, a: Accepted, cfg: Config) {
    forall i: nat :: Carries(s, a, i, cfg) ==> LostRow(s, i)
  }

  // ---------- Which steps lose events ----------

  predicate Deletes(s: State, step: Step, i: nat, cfg: Config)
    requires i < |s.rows|
  {
    match step
    case Collect(p) => Expired(s.rows[i], s.now, p)
    case Prune(which) => i in which && cfg.letta(s.rows[i].target) && Unfinished(s.rows[i].status)
    case _ => false
  }

  /** The step ends this worker's claim: an error, leaving, or a restart. */
  predicate Ends(step: Step, c: nat) {
    match step
    case Fail(d) => d == c
    case Retry(d, _) => d == c
    case Drop(d) => d == c
    case Restart => true
    case _ => false
  }

  /** Whoever holds the row lets go of it with this very step. */
  ghost predicate LetsGo(s: State, step: Step, i: nat) {
    forall c: nat :: c < |s.claims| && s.claims[c].row == i && !s.claims[c].handled ==> Ends(step, c)
  }

  /** Something is stored for the sink and file of the event, at least as new as it. */
  predicate Revives(s: State, step: Step, a: Accepted, cfg: Config) {
    && Renews(step, a, cfg) && s.nextVersion >= a.version
    && (|| WritesTo(s, step.event, step.target, step.force, cfg).Some?
        || FindKey(s.rows, step.event, step.target).None?)
  }

  predicate Renews(step: Step, a: Accepted, cfg: Config) {
    step.Enqueue? && step.target == a.target && cfg.place(step.event) == cfg.place(a.event)
  }

  /** The claims are as they were, but for one that is gone or dealt with if it was on this row. */
  ghost predicate OneEnded(a: seq<Claim>, b: seq<Claim>, c: nat, i: nat) {
    || (b == a && (c < |a| ==> a[c].row != i))
    || (c < |a| && (b == Without(a, c) || b == a[c := a[c].(handled := true)]))
  }

  lemma ErrorEnds(s: State, step: Step, i: nat, cfg: Config)
    requires i < |s.rows| && (step.Fail? || step.Retry? || step.Drop?)
    ensures OneEnded(s.claims, Apply(s, step, cfg).claims, step.claim, i)
  {
  }

  lemma EndedFree(a: seq<Claim>, b: seq<Claim>, c: nat, i: nat)
    requires OneEnded(a, b, c, i)
    ensures (forall x <- b :: x.handled || x.row != i) <==>
      forall d: nat :: d < |a| && a[d].row == i && !a[d].handled ==> d == c
  {
    if forall d: nat :: d < |a| && a[d].row == i && !a[d].handled ==> d == c {
      forall x <- b ensures x.handled || x.row != i {
        var d :| 0 <= d < |b| && b[d] == x;
        var e := if |b| == |a| || d < c then d else d + 1;
        assert b[d] == a[e] || b[d].handled;
      }
    } else {
      var d: nat :| d < |a| && a[d].row == i && !a[d].handled && d != c;
      assert b[if |b| == |a| || d < c then d else d - 1] == a[d];
    }
  }

  lemma EndedAbandons(s: State, t: State, step: Step, i: nat)
    requires (step.Fail? || step.Retry? || step.Drop?) && OneEnded(s.claims, t.claims, step.claim, i)
    ensures Abandoned(t, i) <==> LetsGo(s, step, i)
  {
    EndedFree(s.claims, t.claims, step.claim, i);
  }

  lemma OthersAbandon(s: State, step: Step, i: nat, cfg: Config)
    requires i < |s.rows| && (s.rows[i].gone || Deletes(s, step, i, cfg))
    requires !(step.Enqueue? || step.Fail? || step.Retry? || step.Drop?)
    ensures Abandoned(Apply(s, step, cfg), i) <==> LetsGo(s, step, i)
  {
    var t := Apply(s, step, cfg);
    if !step.Restart? {
      assert |s.claims| <= |t.claims|;
      assert forall c :: 0 <= c < |s.claims| ==>
        t.claims[c].row == s.claims[c].row && t.claims[c].handled == s.claims[c].handled;
      assert forall c :: |s.claims| <= c < |t.claims| ==> t.claims[c].row != i;
      SameHolders(s, t, step, i);
    }
  }

  lemma SameHolders(s: State, t: State, step: Step, i: nat)
    requires forall c :: !Ends(step, c)
    requires |s.claims| <= |t.claims| && forall c :: |s.claims| <= c < |t.claims| ==> t.claims[c].row != i
    requires forall c :: 0 <= c < |s.claims| ==>
      t.claims[c].row == s.claims[c].row && t.claims[c].handled == s.claims[c].handled
    ensures Abandoned(t, i) <==> LetsGo(s, step, i)
  {
    if LetsGo(s, step, i) {
      forall x <- t.claims ensures x.handled || x.row != i {
        var d :| 0 <= d < |t.claims| && t.claims[d] == x;
      }
    } else {
      var d: nat :| d < |s.claims| && s.claims[d].row == i && !s.claims[d].handled;
      assert t.claims[d] in t.claims;
    }
  }

  /** Only a holder who goes on holding the row pushes it. */
  lemma PushedBefore(s: State, step: Step, i: nat, cfg: Config)
    requires !step.Enqueue? && i < |s.rows|
    ensures var t := Apply(s, step, cfg);
      |t.rows| == |s.rows| && (Pushed(s, i) ==> Pushed(t, i)) && (Pushed(t, i) ==> Pushed(s, i) || !LetsGo(s, step, i))
  {
    OtherStepRows(s, step, cfg);
  }

  lemma DeletedAfter(s: State, step: Step, i: nat, cfg: Config)
    requires !step.Enqueue? && i < |s.rows|
    ensures var t := Apply(s, step, cfg);
      |t.rows| == |s.rows| && (t.rows[i].gone <==> s.rows[i].gone || Deletes(s, step, i, cfg))
  {
  }

  lemma RowLoses(s: State, step: Step, i: nat, cfg: Config)
    requires !step.Enqueue? && i < |s.rows|
    ensures var t := Apply(s, step, cfg);
      && |t.rows| == |s.rows|
      && (LostRow(t, i) <==>
            (s.rows[i].gone || Deletes(s, step, i, cfg)) && !Pushed(s, i) && LetsGo(s, step, i))
  {
    DeletedAfter(s, step, i, cfg);
    PushedBefore(s, step, i, cfg);
    if s.rows[i].gone || Deletes(s, step, i, cfg) {
      if step.Fail? || step.Retry? || step.Drop? {
        ErrorEnds(s, step, i, cfg);
        EndedAbandons(s, Apply(s, step, cfg), step, i);
      } else {
        OthersAbandon(s, step, i, cfg);
      }
    }
  }

  /** An enqueue writes only to rows of its own sink and file. */
  lemma WritesThere(s: State, event: string, target: string, force: bool, cfg: Config)
    ensures var w := WritesTo(s, event, target, force, cfg);
      w.Some? ==> s.rows[w.value].target == target && cfg.place(s.rows[w.value].event) == cfg.place(event)
  {
  }

  lemma EnqueueRevives(s: State, step: Step, a: Accepted, cfg: Config)
    requires Revives(s, step, a, cfg)
    ensures !Lost(Apply(s, step, cfg), a, cfg)
  {
    var t, w := Apply(s, step, cfg), WritesTo(s, step.event, step.target, step.force, cfg);
    WritesThere(s, step.event, step.target, step.force, cfg);
    var i := if w.Some? then w.value else |s.rows|;
    assert Carries(t, a, i, cfg) && !t.rows[i].gone;
  }

  /** Any other enqueue leaves the event as it was. */
  lemma EnqueueElsewhere(s: State, step: Step, a: Accepted, cfg: Config)
    requires Behind(s) && step.Enqueue? && !Revives(s, step, a, cfg)
    ensures Lost(Apply(s, step, cfg), a, cfg) <==> Lost(s, a, cfg)
  {
    var t := Apply(s, step, cfg);
    WritesThere(s, step.event, step.target, step.force, cfg);
    forall i: nat ensures Carries(t, a, i, cfg) <==> Carries(s, a, i, cfg) { }
    forall i: nat | Carries(s, a, i, cfg) ensures LostRow(t, i) <==> LostRow(s, i) { }
  }

  /** Exactly when a step leaves an event lost: nothing is stored for it, and every row that carries it has been deleted
      or is now, unpushed, while whoever still holds it lets go. */
  lemma StepLoses(s: State, step: Step, a: Accepted, cfg: Config)
    requires step.Enqueue? ==> Behind(s)
    ensures Lost(Apply(s, step, cfg), a, cfg) <==>
      && !Revives(s, step, a, cfg)
      && forall i: nat :: Carries(s, a, i, cfg) ==>
           (s.rows[i].gone || Deletes(s, step, i, cfg)) && !Pushed(s, i) && LetsGo(s, step, i)
  {
    var t := Apply(s, step, cfg);
    if step.Enqueue? {
      if Revives(s, step, a, cfg) { EnqueueRevives(s, step, a, cfg); } else { EnqueueElsewhere(s, step, a, cfg); }
      forall i: nat ensures LetsGo(s, step, i) <==> Abandoned(s, i) { SameHolders(s, s, step, i); }
    } else {
      OtherStepRows(s, step, cfg);
      forall i: nat ensures Carries(t, a, i, cfg) <==> Carries(s, a, i, cfg) {
        if i < |s.rows| { assert Follows(s.rows[i], t.rows[i]); }
      }
      forall i: nat | i < |s.rows|
        ensures LostRow(t, i) <==>
          (s.rows[i].gone || Deletes(s, step, i, cfg)) && !Pushed(s, i) && LetsGo(s, step, i)
      {
        RowLoses(s, step, i, cfg);
      }
    }
  }

  // ---------- Lost for good ----------

  lemma LostStep(s: State, step: Step, a: Accepted, cfg: Config)
    requires Behind(s) && Lost(s, a, cfg) && !Renews(step, a, cfg)
    ensures Lost(Apply(s, step, cfg), a, cfg)
  {
    StepLoses(s, step, a, cfg);
  }

  /** A lost event stays lost until something is stored for its sink and file again. */
  lemma {:induction false} LostForGood(s: State, steps: seq<Step>, a: Accepted, cfg: Config)
    requires Sound(s) && Behind(s) && Lost(s, a, cfg) && forall k :: 0 <= k < |steps| ==> !Renews(steps[k], a, cfg)
    ensures Lost(Run(s, steps, cfg), a, cfg) && !Reached(Run(s, steps, cfg), a, cfg)
    decreases |steps|
  {
    if steps != [] {
      StepSound(s, steps[0], cfg);
      LostStep(s, steps[0], a, cfg);
      LostForGood(Apply(s, steps[0], cfg), steps[1..], a, cfg);
    }
  }

  // ---------- Failures are forgotten ----------

  /** Whatever failed for good, unpushed and held by no one, is lost once its age is up. */
  lemma FailuresAreForgotten(s: State, a: Accepted, to: int, p: Policy, cfg: Config)
    requires to >= s.now
    requires forall i: nat :: Carries(s, a, i, cfg) ==>
      && !Pushed(s, i) && Abandoned(s, i)
      && (s.rows[i].gone ||
          (s.rows[i].status == Failed && Or(s.rows[i].completedAt, s.rows[i].updatedAt) < to - p.failed))
    ensures var t := Run(s, [Tick(to), Collect(p)], cfg); SamePayloads(s, t) && Lost(t, a, cfg) && !Reached(t, a, cfg)
  {
    RunOfTwo(s, Tick(to), Collect(p), Under(cfg));
    var m := Apply(s, Tick(to), cfg);
    OtherStepRows(m, Collect(p), cfg);
    forall i: nat | Carries(m, a, i, cfg)
      ensures (m.rows[i].gone || Deletes(m, Collect(p), i, cfg)) && !Pushed(m, i) && LetsGo(m, Collect(p), i)
    {
      assert Carries(s, a, i, cfg) && Abandoned(s, i);
    }
    StepLoses(m, Collect(p), a, cfg);
  }

  lemma FailedOnce(now: int, cfg: Config)
    ensures var t := Run(Start(now), [Enqueue("e", "t", false), Take(0), Fail(0)], cfg);
      && t.now == now && t.accepted == [Accepted("e", "t", 0)] && t.delivered == {}
      && |t.rows| == 1 && t.rows[0].event == "e" && t.rows[0].target == "t"
      && t.rows[0].status == Failed && t.rows[0].completedAt == Some(now) && forall x <- t.claims :: x.handled
  {
    RunOfThree(Start(now), Enqueue("e", "t", false), Take(0), Fail(0), Under(cfg));
    var a := Apply(Start(now), Enqueue("e", "t", false), cfg);
    assert a.rows == [Row("e", "t", 0, Pending, 0, now, None, now, None, 0, false)];
    var b := Apply(a, Take(0), cfg);
    assert b.claims == [Claim(0, 1, 0, false, false)] && |b.rows| == 1 && b.rows[0].status == Running;
  }

  /** So for every configuration and collecting age there is a run after which no job is left that is not done, although
      an accepted event never got to its sink. */
  lemma CollectedFailureForgets(now: int, p: Policy, cfg: Config)
    ensures var steps := [Enqueue("e", "t", false), Take(0), Fail(0)] + [Tick(now + p.failed + 1), Collect(p)];
      var t := Run(Start(now), steps, cfg);
      && t.accepted == [Accepted("e", "t", 0)] && |t.rows| == 1 && t.rows[0].gone && AllDone(t)
      && Lost(t, t.accepted[0], cfg) && !Reached(t, t.accepted[0], cfg)
  {
    var first, second := [Enqueue("e", "t", false), Take(0), Fail(0)], [Tick(now + p.failed + 1), Collect(p)];
    RunOfAppend(Start(now), first, second, Under(cfg));
    FailedOnce(now, cfg);
    var m := Run(Start(now), first, cfg);
    FailuresAreForgotten(m, Accepted("e", "t", 0), now + p.failed + 1, p, cfg);
    assert Follows(m.rows[0], Run(m, second, cfg).rows[0]);
    assert Carries(Run(m, second, cfg), Accepted("e", "t", 0), 0, cfg);
  }
}
