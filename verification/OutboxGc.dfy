/** Garbage collection of the fanout outbox: three deletes whose conditions compare timestamp texts under SQL's
    three-valued logic. */
module OutboxGc {
  import opened Text
  import opened Lists
  import opened IsoTime
  import Order

  // ---------- SQL conditions ----------

  datatype Truth = True | False | Unknown

  function And(a: Truth, b: Truth): Truth {
    if a == False || b == False then False else if a == True && b == True then True else Unknown
  }

  function Known(b: bool): Truth { if b then True else False }

  function Equals(x: Option<string>, y: string): Truth {
    if x.None? then Unknown else Known(x.value == y)
  }

  function OneOf(x: Option<string>, ys: seq<string>): Truth {
    if ys == [] then False else if x.None? then Unknown else Known(x.value in ys)
  }

  function Less(x: Option<string>, y: string): Truth {
    if x.None? then Unknown else Known(TextLess(x.value, y))
  }

  function Coalesce(a: Option<string>, b: Option<string>, c: Option<string>): Option<string> {
    if a.Some? then a else if b.Some? then b else c
  }

  // ---------- Rows and statements ----------

  datatype Row = Row(id: nat, status: Option<string>, target: Option<string>,
                     completedAt: Option<string>, lastAttemptAt: Option<string>,
                     updatedAt: Option<string>, createdAt: Option<string>)

  datatype Cutoffs = Cutoffs(succeeded: string, failed: string, pending: string)

  datatype Plan = Plan(cutoffs: Cutoffs, staleTargets: seq<string>)

  datatype Statement = Succeeded | Failed | Stale

  /** The time that decides about a row. */
  function Age(row: Row, st: Statement): Option<string> {
    if st == Stale then Coalesce(row.lastAttemptAt, row.updatedAt, row.createdAt)
    else Coalesce(row.completedAt, row.updatedAt, row.createdAt)
  }

  function Cutoff(plan: Plan, st: Statement): string {
    match st
    case Succeeded => plan.cutoffs.succeeded
    case Failed => plan.cutoffs.failed
    case Stale => plan.cutoffs.pending
  }

  /** The part of the condition that does not speak about time. */
  function Concerns(row: Row, st: Statement, plan: Plan): Truth {
    match st
    case Succeeded => Equals(row.status, "succeeded")
    case Failed => Equals(row.status, "failed")
    case Stale => And(OneOf(row.target, plan.staleTargets), OneOf(row.status, ["pending", "retrying", "running"]))
  }

  function Where(row: Row, st: Statement, plan: Plan): Truth {
    And(Concerns(row, st, plan), Less(Age(row, st), Cutoff(plan, st)))
  }

  /** A statement touches the rows for which its condition is true, not those for which it is unknown. */
  function Matches(st: Statement, plan: Plan): Row -> bool {
    row => Where(row, st, plan) == True
  }

  function Count(rows: seq<Row>, st: Statement, plan: Plan): nat { |Filter(rows, Matches(st, plan))| }

  function Delete(rows: seq<Row>, st: Statement, plan: Plan): seq<Row> { Filter(rows, Not(Matches(st, plan))) }

  /** The stale statement is only issued when stale targets are named. */
  function DeleteStale(rows: seq<Row>, plan: Plan): seq<Row> {
    if plan.staleTargets == [] then rows else Delete(rows, Stale, plan)
  }

  function Collected(rows: seq<Row>, plan: Plan): seq<Row> {
    DeleteStale(Delete(Delete(rows, Succeeded, plan), Failed, plan), plan)
  }

  // ---------- The run ----------

  datatype Report = Report(ok: bool, succeeded: nat, failed: nat, stale: nat, total: nat, before: nat, after: nat)

  const FAILED := Report(false, 0, 0, 0, 0, 0, 0)

  class Outbox {
    var rows: seq<Row>

    constructor (rows: seq<Row>)
      ensures this.rows == rows
    {
      this.rows := rows;
    }

    /** One run. `failAt` numbers the database operation that raises an error: 0 the first count, 1 to 3 the three
        statements, 4 the commit, 5 the last count; a larger number means that none does. */
    method Run(plan: Plan, dryRun: bool, failAt: nat) returns (report: Report)
      modifies this
      ensures failAt <= 4 ==> rows == old(rows) && report == FAILED
      ensures failAt == 5 ==> rows == (if dryRun then old(rows) else Collected(old(rows), plan)) && report == FAILED
      ensures failAt > 5 ==> rows == if dryRun then old(rows) else Collected(old(rows), plan)
      ensures failAt > 5 ==> report.ok && report.before == |old(rows)| && report.after == |rows|
      ensures failAt > 5 ==> report.total == report.succeeded + report.failed + report.stale
      ensures failAt > 5 ==> report.succeeded == Count(old(rows), Succeeded, plan)
      ensures failAt > 5 ==> report.failed == Count(old(rows), Failed, plan)
      ensures failAt > 5 ==> report.stale == if plan.staleTargets == [] then 0 else Count(old(rows), Stale, plan)
    {
      var committed := rows;
      if failAt == 0 { return FAILED; }
      var before := |rows|;
      var succeeded := Count(rows, Succeeded, plan);
      if !dryRun { rows := Delete(rows, Succeeded, plan); }
      if failAt == 1 { rows := committed; return FAILED; }
      var failed := Count(rows, Failed, plan);
      if !dryRun { rows := Delete(rows, Failed, plan); }
      if failAt == 2 { rows := committed; return FAILED; }
      var stale := 0;
      if plan.staleTargets != [] {
        stale := Count(rows, Stale, plan);
        if !dryRun { rows := Delete(rows, Stale, plan); }
      }
      if failAt == 3 || failAt == 4 { rows := committed; return FAILED; }
      if failAt == 5 { return FAILED; }
      LaterCounts(old(rows), plan);
      report := Report(true, succeeded, failed, stale, succeeded + failed + stale, before, |rows|);
    }
  }

  // ---------- What the statements delete ----------

  /** No row is the business of two statements. */
  lemma Disjoint(row: Row, a: Statement, b: Statement, plan: Plan)
    requires a != b && Where(row, a, plan) == True
    ensures Where(row, b, plan) != True
  {
  }

  lemma CountAfter(rows: seq<Row>, a: Statement, b: Statement, plan: Plan)
    requires a != b
    ensures Count(Delete(rows, a, plan), b, plan) == Count(rows, b, plan)
  {
    FilterFilter(rows, Not(Matches(a, plan)), Matches(b, plan));
    forall i | 0 <= i < |rows|
      ensures Both(Not(Matches(a, plan)), Matches(b, plan))(rows[i]) == Matches(b, plan)(rows[i])
    {
      if Matches(b, plan)(rows[i]) { Disjoint(rows[i], b, a, plan); }
    }
    FilterAgree(rows, Both(Not(Matches(a, plan)), Matches(b, plan)), Matches(b, plan));
  }

  /** The counts of a dry run are the counts of the deletes run one after the other. */
  lemma LaterCounts(rows: seq<Row>, plan: Plan)
    ensures var r1 := Delete(rows, Succeeded, plan); var r2 := Delete(r1, Failed, plan);
      Count(r1, Failed, plan) == Count(rows, Failed, plan) && Count(r2, Stale, plan) == Count(rows, Stale, plan)
  {
    var r1 := Delete(rows, Succeeded, plan);
    CountAfter(rows, Succeeded, Failed, plan);
    CountAfter(rows, Succeeded, Stale, plan);
    CountAfter(r1, Failed, Stale, plan);
  }

  /** The statement that deletes a row, if one does. */
  function Verdict(row: Row, plan: Plan): Option<Statement> {
    if Where(row, Succeeded, plan) == True then Some(Succeeded)
    else if Where(row, Failed, plan) == True then Some(Failed)
    else if Where(row, Stale, plan) == True then Some(Stale)
    else None
  }

  function Survives(plan: Plan): Row -> bool { row => Verdict(row, plan).None? }

  lemma NoTargetsNoStale(row: Row, plan: Plan)
    requires plan.staleTargets == []
    ensures Where(row, Stale, plan) != True
  {
  }

  /** One pass over the table decides every row on its own; the survivors keep their order. */
  lemma CollectedOnce(rows: seq<Row>, plan: Plan)
    ensures Collected(rows, plan) == Filter(rows, Survives(plan))
  {
    var s, f := Not(Matches(Succeeded, plan)), Not(Matches(Failed, plan));
    FilterFilter(rows, s, f);
    if plan.staleTargets == [] {
      forall i | 0 <= i < |rows| ensures Both(s, f)(rows[i]) == Survives(plan)(rows[i]) {
        NoTargetsNoStale(rows[i], plan);
      }
      FilterAgree(rows, Both(s, f), Survives(plan));
    } else {
      CollectedThrice(rows, plan);
    }
  }

  lemma CollectedThrice(rows: seq<Row>, plan: Plan)
    ensures var s, f, t := Not(Matches(Succeeded, plan)), Not(Matches(Failed, plan)), Not(Matches(Stale, plan));
      Filter(Filter(rows, Both(s, f)), t) == Filter(rows, Survives(plan))
  {
    var s, f, t := Not(Matches(Succeeded, plan)), Not(Matches(Failed, plan)), Not(Matches(Stale, plan));
    FilterFilter(rows, Both(s, f), t);
    forall i | 0 <= i < |rows| ensures Both(Both(s, f), t)(rows[i]) == Survives(plan)(rows[i]) {
      AllThree(rows[i], plan);
    }
    FilterAgree(rows, Both(Both(s, f), t), Survives(plan));
  }

  lemma AllThree(row: Row, plan: Plan)
    ensures Survives(plan)(row) <==> forall st: Statement :: Where(row, st, plan) != True
  {
  }

  function Deleted(rows: seq<Row>, plan: Plan): seq<Row> { Filter(rows, Not(Survives(plan))) }

  /** The first of the three times that is there comes before the cutoff. */
  predicate OlderThan(a: Option<string>, b: Option<string>, c: Option<string>, cutoff: string) {
    || (a.Some? && TextLess(a.value, cutoff))
    || (a.None? && b.Some? && TextLess(b.value, cutoff))
    || (a.None? && b.None? && c.Some? && TextLess(c.value, cutoff))
  }

  predicate OldSucceeded(row: Row, plan: Plan) {
    && row.status == Some("succeeded")
    && OlderThan(row.completedAt, row.updatedAt, row.createdAt, plan.cutoffs.succeeded)
  }

  predicate OldFailed(row: Row, plan: Plan) {
    row.status == Some("failed") && OlderThan(row.completedAt, row.updatedAt, row.createdAt, plan.cutoffs.failed)
  }

  predicate OldStale(row: Row, plan: Plan) {
    && row.target.Some? && row.target.value in plan.staleTargets
    && (row.status == Some("pending") || row.status == Some("retrying") || row.status == Some("running"))
    && OlderThan(row.lastAttemptAt, row.updatedAt, row.createdAt, plan.cutoffs.pending)
  }

  /** A row is kept exactly when it is neither a succeeded nor a failed row past the age for its status, nor an
      unfinished row of a stale target past the age for those. */
  lemma CollectedMeaning(rows: seq<Row>, row: Row, plan: Plan)
    ensures row in Collected(rows, plan) <==>
      row in rows && !OldSucceeded(row, plan) && !OldFailed(row, plan) && !OldStale(row, plan)
  {
    CollectedOnce(rows, plan);
    SurvivesMeaning(row, plan);
  }

  lemma SurvivesMeaning(row: Row, plan: Plan)
    ensures Survives(plan)(row) <==> !OldSucceeded(row, plan) && !OldFailed(row, plan) && !OldStale(row, plan)
  {
    StatementsMeaning(row, plan);
  }

  lemma StatementsMeaning(row: Row, plan: Plan)
    ensures Matches(Succeeded, plan)(row) <==> OldSucceeded(row, plan)
    ensures Matches(Failed, plan)(row) <==> OldFailed(row, plan)
    ensures Matches(Stale, plan)(row) <==> OldStale(row, plan)
  {
  }

  /** The counts a run reports are the numbers of these rows. */
  lemma CountsMeaning(rows: seq<Row>, plan: Plan)
    ensures Count(rows, Succeeded, plan) == |Filter(rows, (row: Row) => OldSucceeded(row, plan))|
    ensures Count(rows, Failed, plan) == |Filter(rows, (row: Row) => OldFailed(row, plan))|
    ensures Count(rows, Stale, plan) == |Filter(rows, (row: Row) => OldStale(row, plan))|
  {
    forall i | 0 <= i < |rows|
      ensures Matches(Succeeded, plan)(rows[i]) <==> OldSucceeded(rows[i], plan)
      ensures Matches(Failed, plan)(rows[i]) <==> OldFailed(rows[i], plan)
      ensures Matches(Stale, plan)(rows[i]) <==> OldStale(rows[i], plan)
    {
      StatementsMeaning(rows[i], plan);
    }
    FilterAgree(rows, Matches(Succeeded, plan), (row: Row) => OldSucceeded(row, plan));
    FilterAgree(rows, Matches(Failed, plan), (row: Row) => OldFailed(row, plan));
    FilterAgree(rows, Matches(Stale, plan), (row: Row) => OldStale(row, plan));
  }

  /** Every row either survives or is deleted, and the three counts add up to what is gone. */
  lemma Conservation(rows: seq<Row>, plan: Plan)
    ensures multiset(rows) == multiset(Collected(rows, plan)) + multiset(Deleted(rows, plan))
    ensures |rows| == |Collected(rows, plan)| + Count(rows, Succeeded, plan) + Count(rows, Failed, plan)
      + (if plan.staleTargets == [] then 0 else Count(rows, Stale, plan))
  {
    CollectedOnce(rows, plan);
    FilterSplits(rows, Survives(plan));
    var r1 := Delete(rows, Succeeded, plan);
    var r2 := Delete(r1, Failed, plan);
    FilterSplits(rows, Matches(Succeeded, plan));
    FilterSplits(r1, Matches(Failed, plan));
    FilterSplits(r2, Matches(Stale, plan));
    LaterCounts(rows, plan);
  }

  /** A second run with the same cutoffs finds nothing to delete. */
  lemma SecondRunIdle(rows: seq<Row>, plan: Plan)
    ensures var once := Collected(rows, plan);
      && Collected(once, plan) == once
      && Count(once, Succeeded, plan) == 0 && Count(once, Failed, plan) == 0
      && (plan.staleTargets != [] ==> Count(once, Stale, plan) == 0)
  {
    var once := Collected(rows, plan);
    CollectedOnce(rows, plan);
    CollectedOnce(once, plan);
    FilterAll(once, Survives(plan));
    FilterNone(once, Matches(Succeeded, plan));
    FilterNone(once, Matches(Failed, plan));
    FilterNone(once, Matches(Stale, plan));
  }

  /** A row stays, whatever the cutoffs, when no statement that concerns it has a time to decide by. */
  lemma UndatedRowsStay(rows: seq<Row>, row: Row, plan: Plan)
    requires row in rows && forall st :: Concerns(row, st, plan) == True ==> Age(row, st).None?
    ensures row in Collected(rows, plan)
  {
    CollectedOnce(rows, plan);
    AllThree(row, plan);
  }

  // ---------- Texts against instants ----------

  /** The row is old by the clock: its business, and an instant before the cutoff's. */
  predicate Expired(row: Row, st: Statement, plan: Plan, at: Instant, cutoff: Instant) {
    Concerns(row, st, plan) == True && at.Before(cutoff)
  }

  /** Deciding by text differs from deciding by the clock only for rows that are the statement's business, in the
      cutoff's own second, when exactly one of the two times has no fraction. */
  lemma TextDecisionExact(row: Row, st: Statement, plan: Plan, at: Instant, cutoff: Instant)
    requires at.Valid() && cutoff.Valid() && Age(row, st) == Some(Iso(at)) && Cutoff(plan, st) == Iso(cutoff)
    ensures (Where(row, st, plan) == True) != Expired(row, st, plan, at, cutoff) <==>
      Concerns(row, st, plan) == True && Odd(at, cutoff)
  {
    IsoAgrees(at, cutoff);
  }

  /** On those rows the text decision is the wrong way round: a row of the cutoff's second that has a fraction is
      deleted although it is not older, and one without a fraction is kept although it is older. */
  lemma TextDecisionReversed(row: Row, st: Statement, plan: Plan, at: Instant, cutoff: Instant)
    requires at.Valid() && cutoff.Valid() && Age(row, st) == Some(Iso(at)) && Cutoff(plan, st) == Iso(cutoff)
    requires Concerns(row, st, plan) == True && Odd(at, cutoff)
    ensures Where(row, st, plan) == True <==> cutoff.Before(at)
    ensures Where(row, st, plan) == True <==> at.micro > 0
  {
    IsoOrder(at, cutoff);
    Order.LessLast(cutoff.Fields(), at.Fields(), cutoff.micro, at.micro);
    Order.LessTrichotomy(at.Fields(), at.Fields());
  }
}
