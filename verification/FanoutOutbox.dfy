/** The outbox table's two batch operations: storing an event for several sinks, and claiming the jobs that are due. */
module FanoutOutbox {
  import opened Text
  import opened Runs
  import opened FanoutQueue

  function Enqueues(event: string, targets: seq<string>, force: bool): seq<Step> {
    seq(|targets|, i requires 0 <= i < |targets| => Enqueue(event, targets[i], force))
  }

  function Takes(ids: seq<nat>): seq<Step> {
    seq(|ids|, i requires 0 <= i < |ids| => Take(ids[i]))
  }

  /** Which sink's jobs are wanted: one sink, all but one, or all. */
  datatype Want = Only(target: string) | AllBut(target: string) | Everything

  predicate Wanted(r: Row, w: Want) {
    match w case Only(t) => r.target == t case AllBut(t) => r.target != t case Everything => true
  }

  predicate Due(r: Row, now: int, w: Want) {
    !r.gone && Claimable(r.status) && r.nextAt <= now && Wanted(r, w)
  }

  /** What a claimed row looks like: there, waiting, due, and of the right sink. */
  ghost predicate Fits(r: Row, now: int, w: Want) {
    && !r.gone && (r.status == Pending || r.status == Retrying) && r.nextAt <= now
    && (forall t :: w == Only(t) ==> r.target == t) && (forall t :: w == AllBut(t) ==> r.target != t)
  }

  /** Exactly such rows are due. */
  lemma DueMeaning(r: Row, now: int, w: Want)
    ensures Due(r, now, w) <==> Fits(r, now, w)
  {
  }

  /** Earlier due time first, then the older row. */
  predicate Precedes(rows: seq<Row>, i: nat, j: nat)
    requires i < |rows| && j < |rows|
  {
    rows[i].nextAt < rows[j].nextAt || (rows[i].nextAt == rows[j].nextAt && i < j)
  }

  /** Rows that are due, distinct, in order, and none left out that comes before one of them. */
  ghost predicate FirstDue(rows: seq<Row>, now: int, w: Want, ids: seq<nat>) {
    && (forall k :: 0 <= k < |ids| ==> ids[k] < |rows| && Due(rows[ids[k]], now, w))
    && (forall j, k :: 0 <= j < k < |ids| ==> Precedes(rows, ids[j], ids[k]))
    && (forall i, k :: 0 <= i < |rows| && 0 <= k < |ids| && Due(rows[i], now, w) && i !in ids ==>
      Precedes(rows, ids[k], i))
  }

  /** The first due row not yet chosen. */
  method NextDue(rows: seq<Row>, now: int, w: Want, ids: seq<nat>) returns (best: Option<nat>)
    ensures best.None? ==> forall i :: 0 <= i < |rows| && Due(rows[i], now, w) ==> i in ids
    ensures best.Some? ==> best.value < |rows| && Due(rows[best.value], now, w) && best.value !in ids
    ensures best.Some? ==> forall i :: 0 <= i < |rows| && Due(rows[i], now, w) && i !in ids && i != best.value ==>
      Precedes(rows, best.value, i)
  {
    best := None;
    for i := 0 to |rows|
      invariant best.None? ==> forall j :: 0 <= j < i && Due(rows[j], now, w) ==> j in ids
      invariant best.Some? ==> best.value < i && Due(rows[best.value], now, w) && best.value !in ids
      invariant best.Some? ==> forall j :: 0 <= j < i && Due(rows[j], now, w) && j !in ids && j != best.value ==>
        Precedes(rows, best.value, j)
    {
      if Due(rows[i], now, w) && i !in ids && (best.None? || rows[i].nextAt < rows[best.value].nextAt) {
        best := Some(i);
      }
    }
  }

  lemma FirstDueMore(rows: seq<Row>, now: int, w: Want, ids: seq<nat>, b: nat)
    requires FirstDue(rows, now, w, ids) && b < |rows| && Due(rows[b], now, w) && b !in ids
    requires forall i :: 0 <= i < |rows| && Due(rows[i], now, w) && i !in ids && i != b ==> Precedes(rows, b, i)
    ensures FirstDue(rows, now, w, ids + [b])
  {
    var more := ids + [b];
    forall i, k | 0 <= i < |rows| && 0 <= k < |more| && Due(rows[i], now, w) && i !in more
      ensures Precedes(rows, more[k], i)
    {
      assert i !in ids && i != b by { assert more[|ids|] == b; assert forall x :: x in ids ==> x in more; }
    }
    forall j, k | 0 <= j < k < |more| ensures Precedes(rows, more[j], more[k]) {
      if k == |ids| { assert Precedes(rows, ids[j], b); }
    }
  }

  method SelectDue(rows: seq<Row>, now: int, w: Want, limit: nat) returns (ids: seq<nat>)
    ensures FirstDue(rows, now, w, ids) && |ids| <= limit
    ensures |ids| < limit ==> forall i :: 0 <= i < |rows| && Due(rows[i], now, w) ==> i in ids
  {
    ids := [];
    while |ids| < limit
      invariant FirstDue(rows, now, w, ids) && |ids| <= limit
      decreases limit - |ids|
    {
      var best := NextDue(rows, now, w, ids);
      if best.None? {
        return;
      }
      FirstDueMore(rows, now, w, ids, best.value);
      ids := ids + [best.value];
    }
  }

  function Clamp(limit: int): nat { if limit < 1 then 1 else if limit > 256 then 256 else limit }

  class Outbox {
    var state: State

    constructor (now: int)
      ensures state == Start(now)
    {
      state := Start(now);
    }

    /** Stores an event for each sink and says what became of each: a new row, a merge into a waiting row, or an
        existing row, put back when forced. */
    method Add(event: string, targets: seq<string>, force: bool, cfg: Config)
      returns (inserted: nat, requeued: nat, existing: nat, merged: nat)
      modifies this
      ensures state == Run(old(state), Enqueues(event, targets, force), cfg)
      ensures inserted + existing + merged == |targets| && requeued == (if force then existing else 0)
      ensures |state.rows| == |old(state).rows| + inserted
      ensures |state.accepted| == |old(state).accepted| + inserted + merged + requeued
    {
      inserted, requeued, existing, merged := 0, 0, 0, 0;
      for i := 0 to |targets|
        invariant state == Run(old(state), Enqueues(event, targets[..i], force), cfg)
        invariant inserted + existing + merged == i && requeued == if force then existing else 0
        invariant |state.rows| == |old(state).rows| + inserted
        invariant |state.accepted| == |old(state).accepted| + inserted + merged + requeued
      {
        ghost var before := state;
        ghost var step := Enqueue(event, targets[i], force);
        var into := if Merging(event, targets[i], force, cfg)
          then MergeInto(state.rows, event, targets[i], state.now, cfg) else None;
        if into.Some? {
          merged := merged + 1;
        } else {
          var key := FindKey(state.rows, event, targets[i]);
          if key.Some? {
            existing := existing + 1;
            if force { requeued := requeued + 1; }
          } else {
            inserted := inserted + 1;
          }
        }
        state := ApplyEnqueue(state, event, targets[i], force, cfg);
        assert Enqueues(event, targets[..i + 1], force) == Enqueues(event, targets[..i], force) + [step];
        RunOneMore(old(state), Enqueues(event, targets[..i], force), step, cfg);
      }
      assert targets[..|targets|] == targets;
    }

    /** Claims the first due jobs, at least one slot and at most 256. */
    method ClaimBatch(limit: int, w: Want, cfg: Config) returns (ids: seq<nat>)
      modifies this
      ensures FirstDue(old(state).rows, old(state).now, w, ids) && |ids| <= Clamp(limit)
      ensures |ids| < Clamp(limit) ==>
        forall i :: 0 <= i < |old(state).rows| && Due(old(state).rows[i], old(state).now, w) ==> i in ids
      ensures state == Run(old(state), Takes(ids), cfg) && Taken(old(state), state, ids)
      ensures Earliest(old(state).rows, old(state).now, w,
                       if limit < 1 then 1 else if limit > 256 then 256 else limit, ids)
    {
      ids := SelectDue(state.rows, state.now, w, Clamp(limit));
      for k := 0 to |ids|
        invariant state == Run(old(state), Takes(ids[..k]), cfg)
      {
        state := Apply(state, Take(ids[k]), cfg);
        assert Takes(ids[..k + 1]) == Takes(ids[..k]) + [Take(ids[k])];
        RunOneMore(old(state), Takes(ids[..k]), Take(ids[k]), cfg);
      }
      assert ids[..|ids|] == ids;
      ClaimedIsTaken(old(state), w, ids, cfg);
      FirstIsEarliest(old(state).rows, old(state).now, w, Clamp(limit), ids);
    }
  }

  /** The batch in terms of its rows: only fitting ones, by due time and then by age, each once, up to the limit,
      and none left out that is due before the last of them, or at all while there is room. */
  ghost predicate Earliest(rows: seq<Row>, now: int, w: Want, limit: nat, ids: seq<nat>) {
    && |ids| <= limit
    && (forall k :: 0 <= k < |ids| ==> ids[k] < |rows| && Fits(rows[ids[k]], now, w))
    && (forall j, k :: 0 <= j < k < |ids| ==>
          || rows[ids[j]].nextAt < rows[ids[k]].nextAt
          || (rows[ids[j]].nextAt == rows[ids[k]].nextAt && ids[j] < ids[k]))
    && (forall i :: 0 <= i < |rows| && Fits(rows[i], now, w) && i !in ids ==>
          && |ids| == limit
          && forall k :: 0 <= k < |ids| ==>
               || rows[ids[k]].nextAt < rows[i].nextAt
               || (rows[ids[k]].nextAt == rows[i].nextAt && ids[k] < i))
  }

  lemma FirstIsEarliest(rows: seq<Row>, now: int, w: Want, limit: nat, ids: seq<nat>)
    requires FirstDue(rows, now, w, ids) && |ids| <= limit
    requires |ids| < limit ==> forall i :: 0 <= i < |rows| && Due(rows[i], now, w) ==> i in ids
    ensures Earliest(rows, now, w, limit, ids)
  {
    forall i | 0 <= i < |rows| ensures Due(rows[i], now, w) <==> Fits(rows[i], now, w) { DueMeaning(rows[i], now, w); }
    forall j, k | 0 <= j < k < |ids| ensures Precedes(rows, ids[j], ids[k]) { }
  }

  lemma RunOneMore(s: State, steps: seq<Step>, step: Step, cfg: Config)
    ensures Run(s, steps + [step], cfg) == Apply(Run(s, steps, cfg), step, cfg)
  {
    RunOfAppend(s, steps, [step], Under(cfg));
    RunOfOne(Run(s, steps, cfg), step, Under(cfg));
  }

  // ---------- What a claimed batch looks like ----------

  /** This job is running with one more attempt and has a new claim with the payload it had. */
  ghost predicate TakenAt(s: State, t: State, i: nat, c: nat) {
    && i < |s.rows| && i < |t.rows| && c < |t.claims|
    && t.rows[i] == s.rows[i].(status := Running, attempts := s.rows[i].attempts + 1, lastAt := Some(s.now),
                               updatedAt := s.now)
    && t.claims[c] == Claim(i, s.rows[i].attempts + 1, s.rows[i].version, false, false)
  }

  /** The chosen jobs are taken, in order; every other row and every earlier claim is as it was. */
  ghost predicate Taken(s: State, t: State, ids: seq<nat>) {
    && |t.rows| == |s.rows| && t.now == s.now && |t.claims| == |s.claims| + |ids| && s.claims <= t.claims
    && (forall k :: 0 <= k < |ids| ==> TakenAt(s, t, ids[k], |s.claims| + k))
    && (forall i :: 0 <= i < |s.rows| && i !in ids ==> t.rows[i] == s.rows[i])
  }

  predicate Takeable(s: State, i: nat) {
    i < |s.rows| && !s.rows[i].gone && Claimable(s.rows[i].status) && s.rows[i].nextAt <= s.now
  }

  lemma TakenMore(s: State, m: State, ids: seq<nat>, last: nat, cfg: Config)
    requires Taken(s, m, ids) && last !in ids && Takeable(s, last)
    ensures Taken(s, Apply(m, Take(last), cfg), ids + [last])
  {
    var t, all := Apply(m, Take(last), cfg), ids + [last];
    assert m.rows[last] == s.rows[last];
    forall k | 0 <= k < |all| ensures TakenAt(s, t, all[k], |s.claims| + k) {
      if k < |ids| { assert all[k] == ids[k] && TakenAt(s, m, ids[k], |s.claims| + k) && ids[k] != last; }
    }
    forall i | 0 <= i < |s.rows| && i !in all ensures t.rows[i] == s.rows[i] {
      assert all[|ids|] == last && i != last;
      assert i !in ids by { assert forall x :: x in ids ==> x in all; }
    }
  }

  lemma {:induction false} BatchTaken(s: State, ids: seq<nat>, cfg: Config)
    requires forall k :: 0 <= k < |ids| ==> Takeable(s, ids[k])
    requires forall j, k :: 0 <= j < k < |ids| ==> ids[j] != ids[k]
    ensures Taken(s, Run(s, Takes(ids), cfg), ids)
  {
    if ids == [] {
      assert Takes(ids) == [];
    } else {
      var front, last := ids[..|ids| - 1], ids[|ids| - 1];
      assert ids == front + [last];
      BatchTaken(s, front, cfg);
      assert Takes(ids) == Takes(front) + [Take(last)];
      RunOneMore(s, Takes(front), Take(last), cfg);
      TakenMore(s, Run(s, Takes(front), cfg), front, last, cfg);
    }
  }

  /** The jobs of a claimed batch are all taken. */
  lemma ClaimedIsTaken(s: State, w: Want, ids: seq<nat>, cfg: Config)
    requires FirstDue(s.rows, s.now, w, ids)
    ensures Taken(s, Run(s, Takes(ids), cfg), ids)
  {
    forall j, k | 0 <= j < k < |ids| ensures ids[j] != ids[k] { assert Precedes(s.rows, ids[j], ids[k]); }
    BatchTaken(s, ids, cfg);
  }
}
