/** What each statement of the outbox does to its rows, said about the columns. */
module FanoutSteps {
  import opened Text
  import opened Lists
  import opened FanoutQueue

  // ---------- Storing an event ----------

  /** A waiting row for the same sink, project and file, recent enough to take over a newer write. */
  ghost predicate Awaits(r: Row, event: string, target: string, now: int, cfg: Config) {
    && !r.gone && (r.status == Pending || r.status == Retrying) && r.target == target
    && cfg.place(r.event).project == cfg.place(event).project && cfg.place(r.event).file == cfg.place(event).file
    && (cfg.anyAge(target) || r.updatedAt >= now - cfg.window)
  }

  /** No such row is touched later, or as late and newer. */
  ghost predicate LatestAwaiting(s: State, i: nat, event: string, target: string, cfg: Config) {
    && i < |s.rows| && Awaits(s.rows[i], event, target, s.now, cfg)
    && forall j :: 0 <= j < |s.rows| && Awaits(s.rows[j], event, target, s.now, cfg) ==>
         s.rows[j].updatedAt < s.rows[i].updatedAt || (s.rows[j].updatedAt == s.rows[i].updatedAt && j <= i)
  }

  /** Writes of this event may be merged: not forced, into a named file, for a sink that merges, within a window. */
  ghost predicate MayMerge(event: string, target: string, force: bool, cfg: Config) {
    && !force && cfg.merges(target) && cfg.window > 0
    && cfg.place(event).project != "" && cfg.place(event).file != ""
  }

  /** Neither merging nor anything to merge into. */
  ghost predicate StandsAlone(s: State, event: string, target: string, force: bool, cfg: Config) {
    MayMerge(event, target, force, cfg) ==>
      forall j :: 0 <= j < |s.rows| ==> !Awaits(s.rows[j], event, target, s.now, cfg)
  }

  lemma AwaitsIsMergeable(r: Row, event: string, target: string, now: int, cfg: Config)
    ensures Mergeable(r, event, target, now, cfg) <==> Awaits(r, event, target, now, cfg)
  {
  }

  lemma MergesIntoLatest(s: State, i: nat, event: string, target: string, cfg: Config)
    requires LatestAwaiting(s, i, event, target, cfg)
    ensures MergeInto(s.rows, event, target, s.now, cfg) == Some(i)
  {
    MergeIntoLatest(s.rows, event, target, s.now, cfg);
    AwaitsIsMergeable(s.rows[i], event, target, s.now, cfg);
    var r := MergeInto(s.rows, event, target, s.now, cfg);
    AwaitsIsMergeable(s.rows[r.value], event, target, s.now, cfg);
  }

  lemma MergesNowhere(s: State, event: string, target: string, force: bool, cfg: Config)
    requires StandsAlone(s, event, target, force, cfg)
    ensures !Merging(event, target, force, cfg) || MergeInto(s.rows, event, target, s.now, cfg).None?
  {
    if Merging(event, target, force, cfg) {
      var r := MergeInto(s.rows, event, target, s.now, cfg);
      if r.Some? { AwaitsIsMergeable(s.rows[r.value], event, target, s.now, cfg); }
    }
  }

  /** The event is stored as the newest version. */
  ghost predicate Stored(s: State, t: State, event: string, target: string) {
    && t.accepted == s.accepted + [Accepted(event, target, s.nextVersion)] && t.nextVersion == s.nextVersion + 1
    && t.claims == s.claims && t.delivered == s.delivered && t.now == s.now
  }

  /** A write that may be merged goes into the latest waiting row of its file, which is due at once with the new payload
      and otherwise as it was. */
  lemma EnqueueMerges(s: State, event: string, target: string, force: bool, i: nat, cfg: Config)
    requires MayMerge(event, target, force, cfg) && LatestAwaiting(s, i, event, target, cfg)
    ensures var t := Apply(s, Enqueue(event, target, force), cfg);
      && Stored(s, t, event, target)
      && t.rows == s.rows[i := s.rows[i].(version := s.nextVersion, nextAt := s.now, updatedAt := s.now)]
  {
    MergesIntoLatest(s, i, event, target, cfg);
  }

  /** An event that has its row already is left alone... */
  lemma EnqueueKnown(s: State, event: string, target: string, i: nat, cfg: Config)
    requires StandsAlone(s, event, target, false, cfg)
    requires i < |s.rows| && !s.rows[i].gone && s.rows[i].event == event && s.rows[i].target == target
    ensures Apply(s, Enqueue(event, target, false), cfg) == s
  {
    MergesNowhere(s, event, target, false, cfg);
    assert HasKey(s.rows[i], event, target);
  }

  /** ...unless it is forced: then the row starts over, due at once. */
  lemma EnqueueForced(s: State, event: string, target: string, i: nat, cfg: Config)
    requires Sound(s)
    requires i < |s.rows| && !s.rows[i].gone && s.rows[i].event == event && s.rows[i].target == target
    ensures var r, t := s.rows[i], Apply(s, Enqueue(event, target, true), cfg);
      && Stored(s, t, event, target) && |t.rows| == |s.rows|
      && (forall j :: 0 <= j < |s.rows| && j != i ==> t.rows[j] == s.rows[j])
      && t.rows[i] == Row(event, target, s.nextVersion, Pending, 0, s.now, r.lastAt, s.now, None, t.rows[i].extra,
                          false)
  {
    FoundIs(s, event, target, i);
  }

  /** An event without a row gets one, due at once. */
  lemma EnqueueNew(s: State, event: string, target: string, force: bool, cfg: Config)
    requires StandsAlone(s, event, target, force, cfg)
    requires forall j :: 0 <= j < |s.rows| && s.rows[j].event == event && s.rows[j].target == target ==> s.rows[j].gone
    ensures var t := Apply(s, Enqueue(event, target, force), cfg);
      && Stored(s, t, event, target)
      && t.rows == s.rows + [Row(event, target, s.nextVersion, Pending, 0, s.now, None, s.now, None, 0, false)]
  {
    MergesNowhere(s, event, target, force, cfg);
  }

  // ---------- Working on a job ----------

  /** A job is claimed exactly when it is there, waiting and due; it is then running with one attempt more, and the
      worker has its payload. */
  lemma TakeMeaning(s: State, i: nat, cfg: Config)
    ensures var t := Apply(s, Take(i), cfg);
      if && i < |s.rows| && !s.rows[i].gone && (s.rows[i].status == Pending || s.rows[i].status == Retrying)
         && s.rows[i].nextAt <= s.now
      then
        var r := s.rows[i];
        && t.rows == s.rows[i := r.(status := Running, attempts := r.attempts + 1, lastAt := Some(s.now),
                                    updatedAt := s.now)]
        && t.claims == s.claims + [Claim(i, r.attempts + 1, r.version, false, false)]
        && t.accepted == s.accepted && t.delivered == s.delivered
      else t == s
  {
  }

  /** The row of the claim, if it is still there, has this status now, is due then, and was completed now if that is
      an end; what else it says, and every other row, is as before. */
  ghost predicate Reported(s: State, t: State, i: nat, st: Status, nextAt: int) {
    && i < |s.rows| == |t.rows| && (forall j :: 0 <= j < |s.rows| && j != i ==> t.rows[j] == s.rows[j])
    && t.accepted == s.accepted && t.delivered == s.delivered && t.now == s.now
    && if s.rows[i].gone then t.rows[i] == s.rows[i]
       else
         var r := s.rows[i];
         t.rows[i] == r.(status := st, nextAt := nextAt, updatedAt := s.now, extra := t.rows[i].extra,
                         completedAt := if st == Succeeded || st == Failed then Some(s.now) else r.completedAt)
  }

  /** A delivered job is done; one that may be skipped is done as well. */
  lemma SuccessMeaning(s: State, c: nat, cfg: Config)
    requires c < |s.claims| && s.claims[c].row < |s.rows| && !s.claims[c].handled
    ensures var i, r := s.claims[c].row, s.rows[s.claims[c].row];
      && Reported(s, Apply(s, FailOpen(c), cfg), i, Succeeded, r.nextAt)
      && (s.claims[c].delivered ==> Reported(s, Apply(s, Success(c), cfg), i, Succeeded, r.nextAt))
      && (!s.claims[c].delivered ==> Apply(s, Success(c), cfg) == s)
  {
  }

  /** A failed job ends; a job to be retried waits for its delay, or ends when its claim was the last one allowed. */
  lemma ErrorMeaning(s: State, c: nat, delay: nat, cfg: Config)
    requires c < |s.claims| && s.claims[c].row < |s.rows|
    ensures Reported(s, Apply(s, Fail(c), cfg), s.claims[c].row, Failed, s.now)
    ensures s.claims[c].attempt < cfg.maxAttempts ==>
      Reported(s, Apply(s, Retry(c, delay), cfg), s.claims[c].row, Retrying, s.now + delay)
    ensures s.claims[c].attempt >= cfg.maxAttempts ==>
      Reported(s, Apply(s, Retry(c, delay), cfg), s.claims[c].row, Failed, s.now)
  {
    HandleReports(s, c, Failed, s.now, cfg);
    HandleReports(s, c, Retrying, s.now + delay, cfg);
  }

  lemma HandleReports(s: State, c: nat, st: Status, nextAt: int, cfg: Config)
    requires c < |s.claims| && s.claims[c].row < |s.rows|
    ensures Reported(s, Handle(s, c, st, Some(nextAt), cfg), s.claims[c].row, st, nextAt)
  {
  }

  // ---------- Statements over the whole table ----------

  /** Only rows change, and each on its own. */
  ghost predicate RowByRow(s: State, t: State) {
    && |t.rows| == |s.rows| && t.claims == s.claims && t.accepted == s.accepted && t.delivered == s.delivered
    && t.now == s.now && t.nextVersion == s.nextVersion
  }

  /** Recovery puts back exactly the running rows whose last attempt is old enough or unknown. */
  lemma RecoverMeaning(s: State, age: nat, i: nat, cfg: Config)
    requires i < |s.rows|
    ensures var r, t := s.rows[i], Apply(s, Recover(age), cfg);
      && RowByRow(s, t)
      && t.rows[i] ==
         if !r.gone && r.status == Running && (r.lastAt.Some? ==> r.lastAt.value + age <= s.now)
         then r.(status := Retrying, nextAt := s.now, updatedAt := s.now, extra := r.extra + 1) else r
  {
  }

  /** Giving up on a sink fails exactly its unfinished rows. */
  lemma GiveUpMeaning(s: State, target: string, i: nat, cfg: Config)
    requires i < |s.rows|
    ensures var r, t := s.rows[i], Apply(s, FailBacklog(target), cfg);
      && RowByRow(s, t)
      && t.rows[i] ==
         if && !r.gone && r.target == target
            && (r.status == Pending || r.status == Retrying || r.status == Running)
         then r.(status := Failed, nextAt := s.now, updatedAt := s.now, completedAt := Some(s.now)) else r
  {
  }

  /** The time that decides about a row: the first if there is one, else the second. */
  function Stamp(a: Option<int>, b: int): int { match a case Some(t) => t case None => b }

  /** The collector deletes exactly the done rows past their age, the failed rows past theirs, and the unfinished
      rows of stale sinks past theirs. */
  lemma CollectMeaning(s: State, p: Policy, i: nat, cfg: Config)
    requires i < |s.rows|
    ensures var r, t := s.rows[i], Apply(s, Collect(p), cfg);
      && RowByRow(s, t) && t.rows[i] == r.(gone := t.rows[i].gone)
      && (t.rows[i].gone <==>
            || r.gone
            || (r.status == Succeeded && Stamp(r.completedAt, r.updatedAt) + p.succeeded < s.now)
            || (r.status == Failed && Stamp(r.completedAt, r.updatedAt) + p.failed < s.now)
            || (r.status != Succeeded && r.status != Failed && r.target in p.stale
                && Stamp(r.lastAt, r.updatedAt) + p.pending < s.now))
  {
  }

  /** Pruning deletes chosen unfinished rows of sinks pushed job by job. */
  lemma PruneMeaning(s: State, which: set<nat>, i: nat, cfg: Config)
    requires i < |s.rows|
    ensures var r, t := s.rows[i], Apply(s, Prune(which), cfg);
      && RowByRow(s, t) && t.rows[i] == r.(gone := t.rows[i].gone)
      && (t.rows[i].gone <==>
            || r.gone
            || (i in which && cfg.letta(r.target) && r.status != Succeeded && r.status != Failed))
  {
  }
}
