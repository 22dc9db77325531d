/** What the fan-out outbox promises about deliveries: when a job reported as done was delivered as it stands, what
    becomes of every accepted event, and what is known once every job left is done. */
module FanoutDelivery {
  import opened Text
  import opened Lists
  import opened Runs
  import opened FanoutQueue

  // ---------- Done means delivered ----------

  /** A job reported as done, deleted or not, has been delivered in the version it carries. */
  ghost predicate DoneIsDelivered(s: State) {
    forall i :: 0 <= i < |s.rows| && s.rows[i].status == Succeeded ==> Delivery(i, s.rows[i].version) in s.delivered
  }

  /** A worker holds its row's present version, and has delivered it if it says so. */
  ghost predicate Current(s: State, c: Claim) {
    c.handled || (&& c.row < |s.rows| && c.version == s.rows[c.row].version
                  && (c.delivered ==> Delivery(c.row, c.version) in s.delivered))
  }

  ghost predicate Faithful(s: State) {
    DoneIsDelivered(s) && forall c :: 0 <= c < |s.claims| ==> Current(s, s.claims[c])
  }

  /** The step writes a new payload over a row that a worker holds, or reports a job as done whose payload no one
      delivered. */
  ghost predicate Breaks(s: State, step: Step, cfg: Config) {
    match step
    case Enqueue(event, target, force) =>
      exists c: nat :: Holds(s, c) && WritesTo(s, event, target, force, cfg) == Some(s.claims[c].row)
    case FailOpen(c) =>
      && Holds(s, c) && !s.rows[s.claims[c].row].gone
      && Delivery(s.claims[c].row, s.rows[s.claims[c].row].version) !in s.delivered
    case _ => false
  }

  lemma EnqueueFaithful(s: State, event: string, target: string, force: bool, cfg: Config)
    requires Sound(s) && Faithful(s) && !Breaks(s, Enqueue(event, target, force), cfg)
    ensures Faithful(ApplyEnqueue(s, event, target, force, cfg))
  {
    var t := ApplyEnqueue(s, event, target, force, cfg);
    forall c | 0 <= c < |t.claims| ensures Current(t, t.claims[c]) {
      assert Current(s, s.claims[c]);
      assert Holds(s, c) ==> WritesTo(s, event, target, force, cfg) != Some(s.claims[c].row);
    }
  }

  lemma EnqueueBreaks(s: State, event: string, target: string, force: bool, cfg: Config)
    requires Behind(s) && Breaks(s, Enqueue(event, target, force), cfg)
    ensures !Faithful(ApplyEnqueue(s, event, target, force, cfg))
  {
    var c: nat :| Holds(s, c) && WritesTo(s, event, target, force, cfg) == Some(s.claims[c].row);
    assert !Current(ApplyEnqueue(s, event, target, force, cfg), s.claims[c]);
  }

  /** Rows keep their payloads, and the claims are the old ones, some gone, dealt with or delivered, or one is new. */
  lemma HandleFaithful(s: State, c: nat, st: Status, nextAt: Option<int>, cfg: Config)
    requires Faithful(s) && c < |s.claims| && s.claims[c].row < |s.rows| && st != Succeeded
    ensures Faithful(Handle(s, c, st, nextAt, cfg))
  {
    var t := Handle(s, c, st, nextAt, cfg);
    forall d | 0 <= d < |t.claims| ensures Current(t, t.claims[d]) {
      var e := if |t.claims| == |s.claims| || d < c then d else d + 1;
      assert Current(s, s.claims[e]);
      assert t.claims[d] == s.claims[e] || t.claims[d].handled;
    }
  }

  lemma MarkFaithful(s: State, c: nat)
    requires Faithful(s) && Holds(s, c)
    ensures Faithful(Mark(s, s.claims[c].row, Succeeded, None)) <==>
      || s.rows[s.claims[c].row].gone
      || Delivery(s.claims[c].row, s.rows[s.claims[c].row].version) in s.delivered
  {
    var t := Mark(s, s.claims[c].row, Succeeded, None);
    forall d | 0 <= d < |t.claims| ensures Current(t, t.claims[d]) { assert Current(s, s.claims[d]); }
    assert t.rows[s.claims[c].row] == Marked(s.rows[s.claims[c].row], Succeeded, None, s.now);
  }

  lemma WorkerFaithful(s: State, step: Step, cfg: Config)
    requires Faithful(s) && (step.Take? || step.Deliver? || step.Drop?)
    ensures Faithful(Apply(s, step, cfg))
  {
    var t := Apply(s, step, cfg);
    forall d | 0 <= d < |t.claims| ensures Current(t, t.claims[d]) {
      if d < |s.claims| { assert Current(s, s.claims[d]); }
      if d + 1 < |s.claims| { assert Current(s, s.claims[d + 1]); }
    }
  }

  lemma BatchFaithful(s: State, step: Step, cfg: Config)
    requires Faithful(s) && (step.Recover? || step.FailBacklog? || step.Collect? || step.Prune?)
    ensures Faithful(Apply(s, step, cfg))
  {
    var t := Apply(s, step, cfg);
    forall d | 0 <= d < |t.claims| ensures Current(t, t.claims[d]) { assert Current(s, s.claims[d]); }
  }

  lemma ErrorFaithful(s: State, step: Step, cfg: Config)
    requires Sound(s) && Faithful(s) && (step.Fail? || step.Retry?)
    ensures Faithful(Apply(s, step, cfg))
  {
    var c := step.claim;
    if c < |s.claims| {
      if step.Retry? && s.claims[c].attempt < cfg.maxAttempts {
        HandleFaithful(s, c, Retrying, Some(s.now + step.delay), cfg);
        assert Apply(s, step, cfg) == Handle(s, c, Retrying, Some(s.now + step.delay), cfg);
      } else {
        HandleFaithful(s, c, Failed, Some(s.now), cfg);
        assert Apply(s, step, cfg) == Handle(s, c, Failed, Some(s.now), cfg);
      }
    }
  }

  /** A step keeps the outbox faithful exactly when it does not write over a held row and does not report an undelivered
      job as done: putting a row back under its worker breaks nothing by itself. */
  lemma StepFaithful(s: State, step: Step, cfg: Config)
    requires Sound(s) && Behind(s) && Faithful(s)
    ensures Faithful(Apply(s, step, cfg)) <==> !Breaks(s, step, cfg)
  {
    match step {
      case Tick(_) =>
        forall d | 0 <= d < |s.claims| ensures Current(Apply(s, step, cfg), s.claims[d]) {
          assert Current(s, s.claims[d]);
        }
      case Enqueue(event, target, force) =>
        if Breaks(s, step, cfg) { EnqueueBreaks(s, event, target, force, cfg); }
        else { EnqueueFaithful(s, event, target, force, cfg); }
      case Success(c) => if Holds(s, c) { MarkFaithful(s, c); assert Current(s, s.claims[c]); }
      case FailOpen(c) => if Holds(s, c) { MarkFaithful(s, c); }
      case Take(_) => WorkerFaithful(s, step, cfg);
      case Deliver(_) => WorkerFaithful(s, step, cfg);
      case Drop(_) => WorkerFaithful(s, step, cfg);
      case Fail(_) => ErrorFaithful(s, step, cfg);
      case Retry(_, _) => ErrorFaithful(s, step, cfg);
      case Restart =>
      case Recover(_) => BatchFaithful(s, step, cfg);
      case FailBacklog(_) => BatchFaithful(s, step, cfg);
      case Collect(_) => BatchFaithful(s, step, cfg);
      case Prune(_) => BatchFaithful(s, step, cfg);
    }
  }

  ghost predicate UnbrokenRun(s: State, steps: seq<Step>, cfg: Config)
    decreases |steps|
  {
    steps != [] ==> !Breaks(s, steps[0], cfg) && UnbrokenRun(Apply(s, steps[0], cfg), steps[1..], cfg)
  }

  /** So over every run without such a step, every job reported as done has been delivered in the version it carries. */
  lemma {:induction false} DoneMeansDelivered(s: State, steps: seq<Step>, cfg: Config)
    requires Sound(s) && Behind(s) && Faithful(s) && UnbrokenRun(s, steps, cfg)
    ensures Faithful(Run(s, steps, cfg))
    decreases |steps|
  {
    if steps != [] {
      StepSound(s, steps[0], cfg);
      StepFaithful(s, steps[0], cfg);
      DoneMeansDelivered(Apply(s, steps[0], cfg), steps[1..], cfg);
    }
  }

  /** And in every reachable state such a step can end with a job reported as done whose payload no one delivered: a
      merge or forced requeue over a held row, once its worker delivers what it holds and reports success. */
  lemma OverwriteLosesUpdate(now: int, before: seq<Step>, event: string, target: string, force: bool, c: nat,
                             cfg: Config)
    requires var s := Run(Start(now), before, cfg);
      Holds(s, c) && WritesTo(s, event, target, force, cfg) == Some(s.claims[c].row)
    ensures var s := Run(Start(now), before, cfg);
      var i, t := s.claims[c].row, Run(s, [Enqueue(event, target, force), Deliver(c), Success(c)], cfg);
      i < |t.rows| && t.rows[i].status == Succeeded && Delivery(i, t.rows[i].version) !in t.delivered
  {
    var s := Run(Start(now), before, cfg);
    RunSound(Start(now), before, cfg);
    LateSuccess(s, event, target, force, c, cfg);
  }

  lemma LateSuccess(s: State, event: string, target: string, force: bool, c: nat, cfg: Config)
    requires Behind(s) && Holds(s, c) && WritesTo(s, event, target, force, cfg) == Some(s.claims[c].row)
    ensures var i, t := s.claims[c].row, Run(s, [Enqueue(event, target, force), Deliver(c), Success(c)], cfg);
      i < |t.rows| && t.rows[i].status == Succeeded && Delivery(i, t.rows[i].version) !in t.delivered
  {
    RunOfThree(s, Enqueue(event, target, force), Deliver(c), Success(c), Under(cfg));
    var m := Apply(s, Enqueue(event, target, force), cfg);
    assert m.claims == s.claims && m.rows[s.claims[c].row].version == s.nextVersion && !m.rows[s.claims[c].row].gone;
    var d := Apply(m, Deliver(c), cfg);
    assert d.claims[c].row == s.claims[c].row && d.claims[c].delivered && Holds(d, c);
  }

  // ---------- What becomes of accepted events ----------

  /** A row for the same sink and file carries this version or a newer one. */
  ghost predicate Carries(s: State, a: Accepted, i: nat, cfg: Config) {
    && i < |s.rows| && s.rows[i].target == a.target && cfg.place(s.rows[i].event) == cfg.place(a.event)
    && s.rows[i].version >= a.version
  }

  ghost predicate IsCarried(s: State, a: Accepted, cfg: Config) {
    exists i: nat :: Carries(s, a, i, cfg)
  }

  ghost predicate Covered(s: State, cfg: Config) {
    forall k :: 0 <= k < |s.accepted| ==> IsCarried(s, s.accepted[k], cfg)
  }

  lemma CarriesOn(s: State, t: State, a: Accepted, cfg: Config)
    requires RowsKept(s.rows, t.rows) && IsCarried(s, a, cfg)
    ensures IsCarried(t, a, cfg)
  {
    var i: nat :| Carries(s, a, i, cfg);
    assert Follows(s.rows[i], t.rows[i]);
    assert Carries(t, a, i, cfg);
  }

  /** What an enqueue stores is carried by the row it wrote. */
  lemma EnqueueCarries(s: State, event: string, target: string, force: bool, cfg: Config)
    ensures var t, a := ApplyEnqueue(s, event, target, force, cfg), Accepted(event, target, s.nextVersion);
      t == s || (t.accepted == s.accepted + [a] && IsCarried(t, a, cfg))
  {
    var t := ApplyEnqueue(s, event, target, force, cfg);
    var i := WritesTo(s, event, target, force, cfg);
    if t != s {
      assert Carries(t, Accepted(event, target, s.nextVersion), if i.Some? then i.value else |s.rows|, cfg);
    }
  }

  lemma StepCovered(s: State, step: Step, cfg: Config)
    requires Sound(s) && Behind(s) && Covered(s, cfg)
    ensures Covered(Apply(s, step, cfg), cfg)
  {
    var t := Apply(s, step, cfg);
    StepSound(s, step, cfg);
    if step.Enqueue? {
      EnqueueCarries(s, step.event, step.target, step.force, cfg);
    } else {
      OtherStepRows(s, step, cfg);
    }
    forall k | 0 <= k < |t.accepted| ensures IsCarried(t, t.accepted[k], cfg) {
      if k < |s.accepted| {
        assert t.accepted[k] == s.accepted[k];
        CarriesOn(s, t, s.accepted[k], cfg);
      }
    }
  }

  /** In every run each accepted event is carried, in its own version or a newer one, by a row of its sink and file that
      is still there or has been deleted since. */
  lemma {:induction false} NothingUnaccounted(s: State, steps: seq<Step>, cfg: Config)
    requires Sound(s) && Behind(s) && Covered(s, cfg)
    ensures Covered(Run(s, steps, cfg), cfg)
    decreases |steps|
  {
    if steps != [] {
      StepSound(s, steps[0], cfg);
      StepCovered(s, steps[0], cfg);
      NothingUnaccounted(Apply(s, steps[0], cfg), steps[1..], cfg);
    }
  }

  /** The payload the row carries now has been pushed to its sink. */
  ghost predicate Pushed(s: State, i: nat)
    requires i < |s.rows|
  {
    Delivery(i, s.rows[i].version) in s.delivered
  }

  /** The event got to its sink: a job of its file was pushed in the event's version or a newer one. */
  ghost predicate Reached(s: State, a: Accepted, cfg: Config) {
    exists i: nat :: Carries(s, a, i, cfg) && Pushed(s, i)
  }

  ghost predicate AllDone(s: State) {
    forall i :: 0 <= i < |s.rows| && !s.rows[i].gone ==> s.rows[i].status == Succeeded
  }

  /** Once every job left is done, an accepted event has got to its sink if every row deleted for it was done. */
  lemma AllDoneAllDelivered(now: int, steps: seq<Step>, cfg: Config, k: nat)
    requires UnbrokenRun(Start(now), steps, cfg)
    requires var t := Run(Start(now), steps, cfg);
      && k < |t.accepted| && AllDone(t)
      && (forall i: nat :: Carries(t, t.accepted[k], i, cfg) && t.rows[i].gone ==> t.rows[i].status == Succeeded)
    ensures var t := Run(Start(now), steps, cfg); Reached(t, t.accepted[k], cfg)
  {
    var t := Run(Start(now), steps, cfg);
    NothingUnaccounted(Start(now), steps, cfg);
    DoneMeansDelivered(Start(now), steps, cfg);
    assert IsCarried(t, t.accepted[k], cfg);
    var i: nat :| Carries(t, t.accepted[k], i, cfg);
    assert t.rows[i].status == Succeeded;
  }

  // ---------- Pushed, but not reported ----------

  /** Workers that have pushed this row and may still report it. */
  function Couriers(claims: seq<Claim>, row: nat): nat { Tally(claims, IsCourier(row)) }

  function IsCourier(row: nat): Claim -> bool { (c: Claim) => c.row == row && !c.handled && c.delivered }

  /** If the row has been pushed it is done, or it is there and a worker is about to say so. */
  ghost predicate SettledRow(s: State, i: nat)
    requires i < |s.rows|
  {
    Pushed(s, i) ==> s.rows[i].status == Succeeded || (!s.rows[i].gone && Couriers(s.claims, i) >= 1)
  }

  ghost predicate Settled(s: State) { forall i :: 0 <= i < |s.rows| ==> SettledRow(s, i) }

  /** The step leaves this row pushed with no one to report it: an error of its last courier, that courier leaving, a
      restart, deleting the row before it is done, or pushing a row that has been deleted. */
  ghost predicate Strands(s: State, step: Step, i: nat, cfg: Config)
    requires i < |s.rows|
  {
    match step
    case Fail(c) => LastCourier(s, c, i) && Pushed(s, i) && !s.rows[i].gone
    case Retry(c, _) => LastCourier(s, c, i) && Pushed(s, i) && !s.rows[i].gone
    case Drop(c) => LastCourier(s, c, i) && Pushed(s, i) && s.rows[i].status != Succeeded
    case Restart => Pushed(s, i) && s.rows[i].status != Succeeded
    case Collect(p) => Pushed(s, i) && s.rows[i].status != Succeeded && Expired(s.rows[i], s.now, p)
    case Prune(which) => Pushed(s, i) && i in which && cfg.letta(s.rows[i].target) && Unfinished(s.rows[i].status)
    case Deliver(c) =>
      && Holds(s, c) && s.claims[c].row == i && s.claims[c].version == s.rows[i].version
      && s.rows[i].gone && s.rows[i].status != Succeeded
    case _ => false
  }

  /** A claim on the row, and no courier but it. */
  predicate LastCourier(s: State, c: nat, i: nat) {
    c < |s.claims| && s.claims[c].row == i && Couriers(Without(s.claims, c), i) == 0
  }

  lemma HandleCouriers(s: State, c: nat, st: Status, nextAt: Option<int>, cfg: Config, i: nat)
    requires c < |s.claims| && s.claims[c].row < |s.rows|
    ensures Couriers(Handle(s, c, st, nextAt, cfg).claims, i) == Couriers(Without(s.claims, c), i)
  {
    TallySet(s.claims, c, s.claims[c].(handled := true), IsCourier(i));
  }

  lemma HandleRow(s: State, c: nat, st: Status, nextAt: Option<int>, cfg: Config, i: nat)
    requires c < |s.claims| && s.claims[c].row < |s.rows| && i < |s.rows|
    ensures var t := Handle(s, c, st, nextAt, cfg);
      && |t.rows| == |s.rows| && t.delivered == s.delivered
      && t.rows[i].version == s.rows[i].version && t.rows[i].gone == s.rows[i].gone
      && t.rows[i].status == if s.claims[c].row == i && !s.rows[i].gone then st else s.rows[i].status
  {
  }

  lemma HandleSettled(s: State, c: nat, st: Status, nextAt: Option<int>, cfg: Config, i: nat)
    requires c < |s.claims| && s.claims[c].row < |s.rows| && i < |s.rows| && SettledRow(s, i) && st != Succeeded
    ensures var t := Handle(s, c, st, nextAt, cfg);
      |t.rows| == |s.rows| && (SettledRow(t, i) <==> !(LastCourier(s, c, i) && Pushed(s, i) && !s.rows[i].gone))
  {
    HandleCouriers(s, c, st, nextAt, cfg, i);
    HandleRow(s, c, st, nextAt, cfg, i);
    TallyAt(s.claims, c, IsCourier(i));
  }

  lemma ErrorSettled(s: State, step: Step, cfg: Config, i: nat)
    requires Sound(s) && i < |s.rows| && SettledRow(s, i) && (step.Fail? || step.Retry?)
    ensures var t := Apply(s, step, cfg); |t.rows| == |s.rows| && (SettledRow(t, i) <==> !Strands(s, step, i, cfg))
  {
    var c := step.claim;
    if c < |s.claims| {
      if step.Retry? && s.claims[c].attempt < cfg.maxAttempts {
        HandleSettled(s, c, Retrying, Some(s.now + step.delay), cfg, i);
        assert Apply(s, step, cfg) == Handle(s, c, Retrying, Some(s.now + step.delay), cfg);
      } else {
        HandleSettled(s, c, Failed, Some(s.now), cfg, i);
        assert Apply(s, step, cfg) == Handle(s, c, Failed, Some(s.now), cfg);
      }
    }
  }

  lemma DropSettled(s: State, c: nat, cfg: Config, i: nat)
    requires i < |s.rows| && SettledRow(s, i)
    ensures SettledRow(Apply(s, Drop(c), cfg), i) <==> !Strands(s, Drop(c), i, cfg)
  {
    if c < |s.claims| { TallyAt(s.claims, c, IsCourier(i)); }
  }

  lemma DeliverSettled(s: State, c: nat, cfg: Config, i: nat)
    requires i < |s.rows| && SettledRow(s, i)
    ensures SettledRow(Apply(s, Deliver(c), cfg), i) <==> !Strands(s, Deliver(c), i, cfg)
  {
    if Holds(s, c) {
      TallyAt(s.claims, c, IsCourier(i));
      TallySet(s.claims, c, s.claims[c].(delivered := true), IsCourier(i));
    }
  }

  lemma TakeSettled(s: State, row: nat, cfg: Config, i: nat)
    requires i < |s.rows| && SettledRow(s, i)
    ensures var t := Apply(s, Take(row), cfg); |t.rows| == |s.rows| && SettledRow(t, i)
  {
    if Apply(s, Take(row), cfg) != s {
      var x := Claim(row, s.rows[row].attempts + 1, s.rows[row].version, false, false);
      TallyAppend(s.claims, [x], IsCourier(i));
    }
  }

  lemma OtherSettled(s: State, step: Step, cfg: Config, i: nat)
    requires i < |s.rows| && SettledRow(s, i)
    requires !(step.Enqueue? || step.Fail? || step.Retry? || step.Drop? || step.Deliver? || step.Take?)
    ensures var t := Apply(s, step, cfg); |t.rows| == |s.rows| && (SettledRow(t, i) <==> !Strands(s, step, i, cfg))
  {
  }

  lemma EnqueueSettled(s: State, event: string, target: string, force: bool, cfg: Config, i: nat)
    requires Behind(s) && i < |ApplyEnqueue(s, event, target, force, cfg).rows|
    requires i < |s.rows| ==> SettledRow(s, i)
    ensures SettledRow(ApplyEnqueue(s, event, target, force, cfg), i)
  {
  }

  lemma StepSettledRow(s: State, step: Step, cfg: Config, i: nat)
    requires Sound(s) && Behind(s) && i < |s.rows| && SettledRow(s, i)
    ensures var t := Apply(s, step, cfg); i < |t.rows| && (SettledRow(t, i) <==> !Strands(s, step, i, cfg))
  {
    match step {
      case Enqueue(event, target, force) => EnqueueSettled(s, event, target, force, cfg, i);
      case Fail(_) => ErrorSettled(s, step, cfg, i);
      case Retry(_, _) => ErrorSettled(s, step, cfg, i);
      case Drop(c) => DropSettled(s, c, cfg, i);
      case Deliver(c) => DeliverSettled(s, c, cfg, i);
      case Take(row) => TakeSettled(s, row, cfg, i);
      case _ => OtherSettled(s, step, cfg, i);
    }
  }

  /** A step keeps every pushed row done or about to be reported exactly when it strands none. */
  lemma StepSettled(s: State, step: Step, cfg: Config)
    requires Sound(s) && Behind(s) && Settled(s)
    ensures Settled(Apply(s, step, cfg)) <==> forall i :: 0 <= i < |s.rows| ==> !Strands(s, step, i, cfg)
  {
    var t := Apply(s, step, cfg);
    forall i | 0 <= i < |s.rows| ensures i < |t.rows| && (SettledRow(t, i) <==> !Strands(s, step, i, cfg)) {
      StepSettledRow(s, step, cfg, i);
    }
    forall i | |s.rows| <= i < |t.rows| ensures SettledRow(t, i) {
      if step.Enqueue? { EnqueueSettled(s, step.event, step.target, step.force, cfg, i); }
      else { OtherStepRows(s, step, cfg); }
    }
  }

  ghost predicate UnstrandedRun(s: State, steps: seq<Step>, cfg: Config)
    decreases |steps|
  {
    steps != [] ==>
      && (forall i :: 0 <= i < |s.rows| ==> !Strands(s, steps[0], i, cfg))
      && UnstrandedRun(Apply(s, steps[0], cfg), steps[1..], cfg)
  }

  lemma {:induction false} SettledRun(s: State, steps: seq<Step>, cfg: Config)
    requires Sound(s) && Behind(s) && Settled(s) && UnstrandedRun(s, steps, cfg)
    ensures Settled(Run(s, steps, cfg))
    decreases |steps|
  {
    if steps != [] {
      StepSound(s, steps[0], cfg);
      StepSettled(s, steps[0], cfg);
      SettledRun(Apply(s, steps[0], cfg), steps[1..], cfg);
    }
  }

  /** Once every job left is done, an accepted event has got to its sink exactly when a row that carries it, left or
      deleted, is reported as done. */
  lemma AllDoneExactly(now: int, steps: seq<Step>, cfg: Config, k: nat)
    requires UnbrokenRun(Start(now), steps, cfg) && UnstrandedRun(Start(now), steps, cfg)
    requires var t := Run(Start(now), steps, cfg); k < |t.accepted| && AllDone(t)
    ensures var t := Run(Start(now), steps, cfg);
      Reached(t, t.accepted[k], cfg) <==>
        exists i: nat :: Carries(t, t.accepted[k], i, cfg) && t.rows[i].status == Succeeded
  {
    var t := Run(Start(now), steps, cfg);
    DoneMeansDelivered(Start(now), steps, cfg);
    SettledRun(Start(now), steps, cfg);
    if i: nat :| Carries(t, t.accepted[k], i, cfg) && Pushed(t, i) {
      assert SettledRow(t, i);
    }
  }

  /** The second condition is needed in every state: a pushed row whose worker then fails is deleted in time as failed,
      although what it carries has got to its sink. */
  lemma StrandedIsDeletedUnreported(s: State, c: nat, p: Policy, cfg: Config)
    requires c < |s.claims| && s.claims[c].row < |s.rows| && Strands(s, Fail(c), s.claims[c].row, cfg)
    ensures var i, t := s.claims[c].row, Run(s, [Fail(c), Tick(s.now + p.failed + 1), Collect(p)], cfg);
      i < |t.rows| && t.rows[i].gone && t.rows[i].status == Failed && Pushed(t, i)
  {
    RunOfThree(s, Fail(c), Tick(s.now + p.failed + 1), Collect(p), Under(cfg));
    var i, m := s.claims[c].row, Apply(s, Fail(c), cfg);
    assert m.rows[i].status == Failed && m.rows[i].completedAt == Some(s.now) && m.now == s.now;
  }

  lemma StepsKeepRows(s: State, a: Step, b: Step, c: Step, cfg: Config)
    requires !a.Enqueue? && !b.Enqueue? && !c.Enqueue?
    ensures SamePayloads(s, Run(s, [a, b, c], cfg))
  {
    RunOfThree(s, a, b, c, Under(cfg));
    OtherStepRows(s, a, cfg);
    OtherStepRows(Apply(s, a, cfg), b, cfg);
    OtherStepRows(Apply(Apply(s, a, cfg), b, cfg), c, cfg);
  }

  /** The only job there is has just been pushed by its first worker. */
  ghost predicate JustPushed(t: State, now: int) {
    && t.now == now && t.accepted == [Accepted("e", "t", 0)] && t.delivered == {Delivery(0, 0)}
    && |t.rows| == 1 && t.rows[0].event == "e" && t.rows[0].target == "t" && t.rows[0].version == 0
    && !t.rows[0].gone && t.claims == [Claim(0, 1, 0, true, false)]
  }

  lemma PushedOnce(now: int, cfg: Config)
    ensures JustPushed(Run(Start(now), [Enqueue("e", "t", false), Take(0), Deliver(0)], cfg), now)
  {
    RunOfThree(Start(now), Enqueue("e", "t", false), Take(0), Deliver(0), Under(cfg));
    var a := Apply(Start(now), Enqueue("e", "t", false), cfg);
    assert a.rows == [Row("e", "t", 0, Pending, 0, now, None, now, None, 0, false)];
    var b := Apply(a, Take(0), cfg);
    assert b.claims == [Claim(0, 1, 0, false, false)] && |b.rows| == 1;
  }

  /** No job is left, and the event got to its sink although no row says so. */
  ghost predicate Unreported(t: State, cfg: Config) {
    && t.accepted == [Accepted("e", "t", 0)] && AllDone(t) && Reached(t, t.accepted[0], cfg)
    && forall i :: 0 <= i < |t.rows| ==> t.rows[i].status != Succeeded
  }

  lemma PushedThenFailed(s: State, p: Policy, cfg: Config)
    requires JustPushed(s, s.now)
    ensures Unreported(Run(s, [Fail(0), Tick(s.now + p.failed + 1), Collect(p)], cfg), cfg)
  {
    var t := Run(s, [Fail(0), Tick(s.now + p.failed + 1), Collect(p)], cfg);
    assert Without(s.claims, 0) == [];
    StrandedIsDeletedUnreported(s, 0, p, cfg);
    StepsKeepRows(s, Fail(0), Tick(s.now + p.failed + 1), Collect(p), cfg);
    assert Follows(s.rows[0], t.rows[0]) && Carries(t, Accepted("e", "t", 0), 0, cfg);
  }

  /** So for every configuration and collecting age some run ends like that. */
  lemma ReachedUnreported(now: int, p: Policy, cfg: Config)
    ensures var steps := [Enqueue("e", "t", false), Take(0), Deliver(0)];
      Unreported(Run(Start(now), steps + [Fail(0), Tick(now + p.failed + 1), Collect(p)], cfg), cfg)
  {
    var first := [Enqueue("e", "t", false), Take(0), Deliver(0)];
    RunOfAppend(Start(now), first, [Fail(0), Tick(now + p.failed + 1), Collect(p)], Under(cfg));
    PushedOnce(now, cfg);
    PushedThenFailed(Run(Start(now), first, cfg), p, cfg);
  }
}
