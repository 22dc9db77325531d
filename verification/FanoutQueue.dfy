/** The fan-out outbox: one row per event and sink, claimed by workers, retried with a limit, merged with newer writes
    to the same file, recovered after a restart, collected when old. Every interleaving of producers, workers, crashes,
    operators and the collector is a run. */
module FanoutQueue {
  import opened Text
  import opened Lists
  import opened Runs

  datatype Status = Pending | Running | Retrying | Succeeded | Failed

  datatype Place = Place(project: string, file: string)

  /** `version` stands for the payload; `extra` counts what may add attempts beyond the limit; a row that has been
      deleted is kept as `gone`, as it was last. */
  datatype Row = Row(event: string, target: string, version: nat, status: Status, attempts: nat, nextAt: int,
                     lastAt: Option<int>, updatedAt: int, completedAt: Option<int>, extra: nat, gone: bool)

  /** A worker's copy of a claimed row; `handled` once an error of it has been dealt with. */
  datatype Claim = Claim(row: nat, attempt: nat, version: nat, delivered: bool, handled: bool)

  datatype Delivery = Delivery(row: nat, version: nat)

  /** An event stored for a sink, with the version it was stored as. */
  datatype Accepted = Accepted(event: string, target: string, version: nat)

  datatype State = State(now: int, rows: seq<Row>, claims: seq<Claim>, nextVersion: nat,
                         delivered: set<Delivery>, accepted: seq<Accepted>)

  /** Settings: the attempt limit; which sinks merge writes, and which of them at any age; the merge window; which sinks
      are pushed job by job, so that an error of the batch deals with a failed job once more; where an event belongs. */
  datatype Config = Config(maxAttempts: nat, merges: string -> bool, anyAge: string -> bool, window: nat,
                           letta: string -> bool, place: string -> Place)

  /** The collector's ages, and the sinks whose unfinished rows it collects too. */
  datatype Policy = Policy(succeeded: nat, failed: nat, pending: nat, stale: set<string>)

  datatype Step =
    | Tick(to: int)
    | Enqueue(event: string, target: string, force: bool)
    | Take(row: nat)
    | Deliver(claim: nat)
    | Success(claim: nat)
    | FailOpen(claim: nat)                 // success without delivery, where the sink is allowed to be broken
    | Fail(claim: nat)
    | Retry(claim: nat, delay: nat)
    | Drop(claim: nat)                     // the worker is done with the job, or gone
    | Restart
    | Recover(age: nat)
    | FailBacklog(target: string)
    | Collect(policy: Policy)
    | Prune(which: set<nat>)               // low-value rows of a sink pushed job by job

  predicate Claimable(st: Status) { st == Pending || st == Retrying }

  predicate Unfinished(st: Status) { Claimable(st) || st == Running }

  // ---------- Enqueue ----------

  /** The row may take over a newer payload for the same file and sink. */
  predicate Mergeable(r: Row, event: string, target: string, now: int, cfg: Config) {
    && !r.gone && r.target == target && cfg.place(r.event) == cfg.place(event) && Claimable(r.status)
    && (cfg.anyAge(target) || r.updatedAt >= now - cfg.window)
  }

  /** The latest such row, the last one on a tie. */
  function MergeInto(rows: seq<Row>, event: string, target: string, now: int, cfg: Config): (r: Option<nat>)
    ensures r.Some? ==> r.value < |rows| && Mergeable(rows[r.value], event, target, now, cfg)
  {
    if rows == [] then None
    else
      var n := |rows| - 1;
      var best := MergeInto(rows[..n], event, target, now, cfg);
      if && Mergeable(rows[n], event, target, now, cfg)
         && (best.None? || rows[best.value].updatedAt <= rows[n].updatedAt) then Some(n)
      else best
  }

  /** A waiting row is found whenever there is one, and none of the others was touched later. */
  lemma {:induction false} MergeIntoLatest(rows: seq<Row>, event: string, target: string, now: int, cfg: Config)
    ensures var r := MergeInto(rows, event, target, now, cfg);
      forall i :: 0 <= i < |rows| && Mergeable(rows[i], event, target, now, cfg) ==>
        && r.Some?
        && (|| rows[i].updatedAt < rows[r.value].updatedAt
            || (rows[i].updatedAt == rows[r.value].updatedAt && i <= r.value))
  {
    if rows != [] {
      var front := rows[..|rows| - 1];
      MergeIntoLatest(front, event, target, now, cfg);
      assert forall i :: 0 <= i < |front| ==> front[i] == rows[i];
    }
  }

  predicate Merging(event: string, target: string, force: bool, cfg: Config) {
    !force && cfg.place(event).project != "" && cfg.place(event).file != "" && cfg.merges(target) && cfg.window > 0
  }

  predicate HasKey(r: Row, event: string, target: string) { !r.gone && r.event == event && r.target == target }

  /** The present row of an event for a sink. */
  function FindKey(rows: seq<Row>, event: string, target: string): (r: Option<nat>)
    ensures r.Some? ==> r.value < |rows| && HasKey(rows[r.value], event, target)
    ensures r.None? ==> forall i :: 0 <= i < |rows| ==> !HasKey(rows[i], event, target)
  {
    if rows == [] then None
    else
      var n := |rows| - 1;
      if HasKey(rows[n], event, target) then Some(n) else FindKey(rows[..n], event, target)
  }

  /** The row an enqueue overwrites: the one it merges into, or under force the event's own. */
  function WritesTo(s: State, event: string, target: string, force: bool, cfg: Config): (r: Option<nat>)
    ensures r.Some? ==> r.value < |s.rows| && !s.rows[r.value].gone && s.rows[r.value].target == target
  {
    var into := if Merging(event, target, force, cfg) then MergeInto(s.rows, event, target, s.now, cfg) else None;
    if into.Some? then into else if force then FindKey(s.rows, event, target) else None
  }

  function Overwritten(r: Row, v: nat, now: int, force: bool, live: nat): Row {
    var written := r.(version := v, nextAt := now, updatedAt := now);
    if force then written.(status := Pending, attempts := 0, completedAt := None, extra := live) else written
  }

  function ApplyEnqueue(s: State, event: string, target: string, force: bool, cfg: Config): State {
    var v := s.nextVersion;
    var stored := s.(nextVersion := v + 1, accepted := s.accepted + [Accepted(event, target, v)]);
    match WritesTo(s, event, target, force, cfg)
    case Some(i) => stored.(rows := s.rows[i := Overwritten(s.rows[i], v, s.now, force, Live(s.claims, i))])
    case None =>
      if FindKey(s.rows, event, target).Some? then s
      else stored.(rows := s.rows + [Row(event, target, v, Pending, 0, s.now, None, s.now, None, 0, false)])
  }

  // ---------- The other steps ----------

  /** Claims on a row whose errors have not been dealt with. */
  function Live(claims: seq<Claim>, row: nat): nat { Tally(claims, HoldsRow(row)) }

  function HoldsRow(row: nat): Claim -> bool { (c: Claim) => c.row == row && !c.handled }

  predicate Stale(r: Row, now: int, age: nat) {
    !r.gone && r.status == Running && (r.lastAt.None? || r.lastAt.value <= now - age)
  }

  function Recovered(rows: seq<Row>, now: int, age: nat): seq<Row> {
    seq(|rows|, i requires 0 <= i < |rows| =>
      if Stale(rows[i], now, age) then
        rows[i].(status := Retrying, nextAt := now, updatedAt := now, extra := rows[i].extra + 1)
      else rows[i])
  }

  function Backlogged(rows: seq<Row>, now: int, target: string): seq<Row> {
    seq(|rows|, i requires 0 <= i < |rows| =>
      if !rows[i].gone && rows[i].target == target && Unfinished(rows[i].status) then
        rows[i].(status := Failed, nextAt := now, updatedAt := now, completedAt := Some(now))
      else rows[i])
  }

  function Or(a: Option<int>, b: int): int { if a.Some? then a.value else b }

  /** The collector's three conditions. */
  predicate Expired(r: Row, now: int, p: Policy) {
    match r.status
    case Succeeded => Or(r.completedAt, r.updatedAt) < now - p.succeeded
    case Failed => Or(r.completedAt, r.updatedAt) < now - p.failed
    case _ => r.target in p.stale && Or(r.lastAt, r.updatedAt) < now - p.pending
  }

  function Collected(rows: seq<Row>, now: int, p: Policy): seq<Row> {
    seq(|rows|, i requires 0 <= i < |rows| => if Expired(rows[i], now, p) then rows[i].(gone := true) else rows[i])
  }

  function Pruned(rows: seq<Row>, which: set<nat>, cfg: Config): seq<Row> {
    seq(|rows|, i requires 0 <= i < |rows| =>
      if i in which && cfg.letta(rows[i].target) && Unfinished(rows[i].status) then rows[i].(gone := true) else rows[i])
  }

  /** Marking ignores what the row's status is by then; a deleted row cannot be marked. */
  function Marked(r: Row, st: Status, nextAt: Option<int>, now: int): Row {
    if r.gone then r
    else r.(status := st, updatedAt := now, nextAt := if nextAt.Some? then nextAt.value else r.nextAt,
            completedAt := if st == Succeeded || st == Failed then Some(now) else r.completedAt)
  }

  function Mark(s: State, row: nat, st: Status, nextAt: Option<int>): State
    requires row < |s.rows|
  {
    s.(rows := s.rows[row := Marked(s.rows[row], st, nextAt, s.now)])
  }

  /** A worker deals with an error once, or twice where jobs are pushed one by one; the second time may put the row back
      beyond what the limit allows. */
  function Handle(s: State, c: nat, st: Status, nextAt: Option<int>, cfg: Config): State
    requires c < |s.claims| && s.claims[c].row < |s.rows|
  {
    var claim := s.claims[c];
    var r := s.rows[claim.row];
    var m := Mark(s, claim.row, st, nextAt);
    if claim.handled then
      m.(claims := Without(s.claims, c),
         rows := if r.gone then m.rows else m.rows[claim.row := m.rows[claim.row].(extra := r.extra + 1)])
    else if cfg.letta(r.target) then m.(claims := s.claims[c := claim.(handled := true)])
    else m.(claims := Without(s.claims, c))
  }

  predicate Holds(s: State, c: nat) { c < |s.claims| && s.claims[c].row < |s.rows| && !s.claims[c].handled }

  /** One step; a step that does not apply changes nothing. */
  function Apply(s: State, step: Step, cfg: Config): State {
    match step
    case Tick(to) => if to >= s.now then s.(now := to) else s
    case Enqueue(event, target, force) => ApplyEnqueue(s, event, target, force, cfg)
    case Take(i) =>
      if i < |s.rows| && !s.rows[i].gone && Claimable(s.rows[i].status) && s.rows[i].nextAt <= s.now then
        var r := s.rows[i].(status := Running, attempts := s.rows[i].attempts + 1, lastAt := Some(s.now),
                            updatedAt := s.now);
        s.(rows := s.rows[i := r], claims := s.claims + [Claim(i, r.attempts, r.version, false, false)])
      else s
    case Deliver(c) =>
      if Holds(s, c) then
        s.(claims := s.claims[c := s.claims[c].(delivered := true)],
           delivered := s.delivered + {Delivery(s.claims[c].row, s.claims[c].version)})
      else s
    case Success(c) =>
      if Holds(s, c) && s.claims[c].delivered then Mark(s, s.claims[c].row, Succeeded, None) else s
    case FailOpen(c) => if Holds(s, c) then Mark(s, s.claims[c].row, Succeeded, None) else s
    case Fail(c) =>
      if c < |s.claims| && s.claims[c].row < |s.rows| then Handle(s, c, Failed, Some(s.now), cfg) else s
    case Retry(c, delay) =>
      if c < |s.claims| && s.claims[c].row < |s.rows| then
        if s.claims[c].attempt < cfg.maxAttempts then Handle(s, c, Retrying, Some(s.now + delay), cfg)
        else Handle(s, c, Failed, Some(s.now), cfg)
      else s
    case Drop(c) => if c < |s.claims| then s.(claims := Without(s.claims, c)) else s
    case Restart => s.(claims := [])
    case Recover(age) => s.(rows := Recovered(s.rows, s.now, age))
    case FailBacklog(target) => s.(rows := Backlogged(s.rows, s.now, target))
    case Collect(p) => s.(rows := Collected(s.rows, s.now, p))
    case Prune(which) => s.(rows := Pruned(s.rows, which, cfg))
  }

  function Under(cfg: Config): (State, Step) -> State { (s, step) => Apply(s, step, cfg) }

  function Run(s: State, steps: seq<Step>, cfg: Config): State { RunOf(s, steps, Under(cfg)) }

  function Start(now: int): State { State(now, [], [], 0, {}, []) }

  // ---------- Keys and references ----------

  /** No two present rows for one event and sink, and every claim is on a row. */
  ghost predicate Sound(s: State) {
    && (forall i, j :: 0 <= i < j < |s.rows| ==>
      !(HasKey(s.rows[i], s.rows[j].event, s.rows[j].target) && !s.rows[j].gone))
    && (forall c :: 0 <= c < |s.claims| ==> s.claims[c].row < |s.rows|)
  }

  /** What every step keeps of a row: whose it is, a payload at least as new, and everything once it is gone. */
  ghost predicate Follows(a: Row, b: Row) {
    && b.event == a.event && b.target == a.target && b.version >= a.version
    && (a.gone ==> b == a)
  }

  ghost predicate RowsKept(a: seq<Row>, b: seq<Row>) {
    |a| <= |b| && forall i :: 0 <= i < |a| ==> Follows(a[i], b[i])
  }

  /** All versions in circulation were given out before. */
  ghost predicate Behind(s: State) {
    && (forall i :: 0 <= i < |s.rows| ==> s.rows[i].version < s.nextVersion)
    && (forall c :: 0 <= c < |s.claims| ==> s.claims[c].version < s.nextVersion)
    && (forall d :: d in s.delivered ==> d.version < s.nextVersion)
    && (forall k :: 0 <= k < |s.accepted| ==> s.accepted[k].version < s.nextVersion)
  }

  /** The event's own row is the one found. */
  lemma FoundIs(s: State, event: string, target: string, i: nat)
    requires Sound(s) && i < |s.rows| && HasKey(s.rows[i], event, target)
    ensures FindKey(s.rows, event, target) == Some(i)
  {
    var j := FindKey(s.rows, event, target).value;
    assert HasKey(s.rows[if i < j then i else j], s.rows[if i < j then j else i].event,
                  s.rows[if i < j then j else i].target);
  }

  lemma EnqueueSound(s: State, event: string, target: string, force: bool, cfg: Config)
    requires Sound(s) && Behind(s)
    ensures var t := ApplyEnqueue(s, event, target, force, cfg); Sound(t) && Behind(t) && RowsKept(s.rows, t.rows)
  {
  }

  /** The rows are the same ones with the same payloads, and nothing was accepted. */
  ghost predicate SamePayloads(s: State, t: State) {
    && |t.rows| == |s.rows| && RowsKept(s.rows, t.rows) && t.accepted == s.accepted && t.nextVersion == s.nextVersion
    && forall i :: 0 <= i < |s.rows| ==> t.rows[i].version == s.rows[i].version
  }

  /** One row changes, and keeps its payload. */
  lemma OneRow(s: State, t: State, i: nat)
    requires i < |s.rows| == |t.rows| && t.rows == s.rows[i := t.rows[i]]
    requires Follows(s.rows[i], t.rows[i]) && t.rows[i].version == s.rows[i].version
    requires t.accepted == s.accepted && t.nextVersion == s.nextVersion
    ensures SamePayloads(s, t)
  {
  }

  lemma BatchRows(s: State, step: Step, cfg: Config)
    requires step.Recover? || step.FailBacklog? || step.Collect? || step.Prune?
    ensures SamePayloads(s, Apply(s, step, cfg))
  {
  }

  /** Steps that a worker takes for one of its claims. */
  lemma ClaimRows(s: State, step: Step, c: nat, cfg: Config)
    requires step == Success(c) || step == FailOpen(c) || step == Fail(c) || (step.Retry? && step.claim == c)
    ensures SamePayloads(s, Apply(s, step, cfg))
  {
    if c < |s.claims| && s.claims[c].row < |s.rows| { OneRow(s, Apply(s, step, cfg), s.claims[c].row); }
  }

  /** Steps other than storing an event touch no payload and accept nothing. */
  lemma OtherStepRows(s: State, step: Step, cfg: Config)
    requires !step.Enqueue?
    ensures SamePayloads(s, Apply(s, step, cfg))
  {
    match step {
      case Take(i) => if i < |s.rows| { OneRow(s, Apply(s, step, cfg), i); }
      case Success(c) => ClaimRows(s, step, c, cfg);
      case FailOpen(c) => ClaimRows(s, step, c, cfg);
      case Fail(c) => ClaimRows(s, step, c, cfg);
      case Retry(c, _) => ClaimRows(s, step, c, cfg);
      case Recover(_) => BatchRows(s, step, cfg);
      case FailBacklog(_) => BatchRows(s, step, cfg);
      case Collect(_) => BatchRows(s, step, cfg);
      case Prune(_) => BatchRows(s, step, cfg);
      case _ =>
    }
  }

  lemma OtherStepClaims(s: State, step: Step, cfg: Config)
    requires Sound(s) && Behind(s) && !step.Enqueue?
    ensures var t := Apply(s, step, cfg);
      && (forall c :: 0 <= c < |t.claims| ==> t.claims[c].row < |s.rows| && t.claims[c].version < s.nextVersion)
      && (forall d :: d in t.delivered ==> d.version < s.nextVersion)
  {
  }

  lemma StepSound(s: State, step: Step, cfg: Config)
    requires Sound(s) && Behind(s)
    ensures var t := Apply(s, step, cfg); Sound(t) && Behind(t) && RowsKept(s.rows, t.rows)
  {
    if step.Enqueue? {
      EnqueueSound(s, step.event, step.target, step.force, cfg);
    } else {
      OtherStepRows(s, step, cfg);
      OtherStepClaims(s, step, cfg);
    }
  }

  lemma RowsKeptOn(a: seq<Row>, b: seq<Row>, c: seq<Row>)
    requires RowsKept(a, b) && RowsKept(b, c)
    ensures RowsKept(a, c)
  {
  }

  /** In every run there is at most one present row for an event and a sink; no row changes owner or takes an older
      payload, and what has been deleted stays as it was. */
  lemma {:induction false} RunSound(s: State, steps: seq<Step>, cfg: Config)
    requires Sound(s) && Behind(s)
    ensures var t := Run(s, steps, cfg); Sound(t) && Behind(t) && RowsKept(s.rows, t.rows)
    decreases |steps|
  {
    if steps != [] {
      var m := Apply(s, steps[0], cfg);
      StepSound(s, steps[0], cfg);
      RunSound(m, steps[1..], cfg);
      RowsKeptOn(s.rows, m.rows, Run(m, steps[1..], cfg).rows);
    }
  }
}
