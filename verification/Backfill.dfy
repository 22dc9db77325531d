/** The backfill script: wait until the fan-out queue has been quiet for several polls in a row, then run a phase; three
    phases, each behind its own wait. */
module Backfill {
  import opened Text

  datatype Telemetry = Telemetry(pending: int, retrying: int, running: int)

  datatype Config = Config(pendingMax: int, retryingMax: int, runningMax: int, consecutive: int, pollSecs: int,
                           maxWait: int)

  /** What one wait sees: the clock when it starts and before each poll, and the answer to each poll, if it succeeds. */
  datatype World = World(start: int, clock: nat -> int, poll: nat -> Option<Telemetry>)

  datatype Outcome = Quiet | TimedOut | PollFailed

  /** The script sleeps between polls, and the clock does not go back. */
  ghost predicate Sleeps(w: World, c: Config) {
    w.start <= w.clock(0) && forall k: nat :: w.clock(k) + c.pollSecs <= w.clock(k + 1)
  }

  predicate IsQuiet(t: Telemetry, c: Config) {
    t.pending <= c.pendingMax && t.retrying <= c.retryingMax && t.running <= c.runningMax
  }

  predicate QuietAt(w: World, c: Config, k: nat) {
    w.poll(k).Some? && IsQuiet(w.poll(k).value, c)
  }

  /** The counter after `n` polls. */
  function Hits(w: World, c: Config, n: nat): nat {
    if n == 0 then 0 else if QuietAt(w, c, n - 1) then Hits(w, c, n - 1) + 1 else 0
  }

  /** The counter is the length of the longest run of quiet polls that ends now. */
  lemma {:induction false} HitsIsLongestRun(w: World, c: Config, n: nat)
    ensures var h := Hits(w, c, n);
      && h <= n
      && (forall k :: n - h <= k < n ==> QuietAt(w, c, k))
      && (h < n ==> !QuietAt(w, c, n - h - 1))
  {
    if n > 0 { HitsIsLongestRun(w, c, n - 1); }
  }

  /** The last `consecutive` of the first `n` polls were all quiet. */
  ghost predicate Window(w: World, c: Config, n: nat) {
    c.consecutive <= n && forall k: nat :: n - c.consecutive <= k < n ==> QuietAt(w, c, k)
  }

  lemma HitsIsWindow(w: World, c: Config, n: nat)
    ensures Hits(w, c, n) >= c.consecutive <==> Window(w, c, n)
  {
    HitsIsLongestRun(w, c, n);
    var h := Hits(w, c, n);
    assert h < n ==> !QuietAt(w, c, n - h - 1);
  }

  predicate InTime(w: World, c: Config, k: nat) { w.clock(k) - w.start <= c.maxWait }

  /** The wait gets as far as poll `n`: every poll before was in time and answered. */
  ghost predicate Reaches(w: World, c: Config, n: nat) {
    forall k: nat :: k < n ==> InTime(w, c, k) && w.poll(k).Some?
  }

  /** The wait ends well at poll `n`, counted from one. */
  ghost predicate Succeeds(w: World, c: Config, n: nat) {
    n >= 1 && Reaches(w, c, n) && Window(w, c, n)
  }

  /** Spelled out: every poll up to this one came before the deadline and was answered, and the last ones in a row found
      each of the three counts within its own limit. */
  lemma SucceedsMeaning(w: World, c: Config, n: nat)
    ensures Succeeds(w, c, n) <==>
      && n >= 1 && c.consecutive <= n
      && (forall k: nat :: k < n ==> w.poll(k).Some? && w.clock(k) <= w.start + c.maxWait)
      && (forall k: nat :: n - c.consecutive <= k < n ==>
            var t := w.poll(k).value;
            t.pending <= c.pendingMax && t.retrying <= c.retryingMax && t.running <= c.runningMax)
  {
    if Succeeds(w, c, n) {
      forall k: nat | k < n ensures w.poll(k).Some? && w.clock(k) <= w.start + c.maxWait { assert InTime(w, c, k); }
      forall k: nat | n - c.consecutive <= k < n ensures IsQuiet(w.poll(k).value, c) { assert QuietAt(w, c, k); }
    }
  }

  lemma {:induction false} ClockRuns(w: World, c: Config, k: nat)
    requires Sleeps(w, c) && c.pollSecs >= 0
    ensures w.start + k * c.pollSecs <= w.clock(k)
  {
    if k > 0 {
      ClockRuns(w, c, k - 1);
      assert w.clock(k - 1) + c.pollSecs <= w.clock(k - 1 + 1);
      assert k * c.pollSecs == (k - 1) * c.pollSecs + c.pollSecs;
    }
  }

  /** No more polls fit before the deadline. */
  lemma PollsBounded(w: World, c: Config, n: nat)
    requires Sleeps(w, c) && c.pollSecs >= 1 && c.maxWait >= 0 && Reaches(w, c, n)
    ensures n <= c.maxWait / c.pollSecs + 1
  {
    if n > 0 {
      ClockRuns(w, c, n - 1);
      assert InTime(w, c, n - 1);
      Fits(n - 1, c.pollSecs, c.maxWait);
    }
  }

  lemma Fits(k: nat, d: int, m: int)
    requires d >= 1 && k * d <= m
    ensures k <= m / d
  {
    var q := m / d + 1;
    assert m < q * d;
    assert (k - q) * d == k * d - q * d;
    assert k - q >= 0 ==> (k - q) * d >= 0;
  }

  /** The polling loop. It succeeds exactly at the first poll that ends a long enough quiet run, provided every poll
      up to there is in time and answered. */
  method WaitForQuiet(w: World, c: Config) returns (outcome: Outcome, polls: nat)
    requires Sleeps(w, c) && c.pollSecs >= 1
    ensures Reaches(w, c, polls)
    ensures forall n: nat :: Succeeds(w, c, n) ==> outcome == Quiet && polls <= n
    ensures outcome == Quiet ==> Succeeds(w, c, polls)
    ensures outcome == TimedOut ==> !InTime(w, c, polls)
    ensures outcome == PollFailed ==> InTime(w, c, polls) && w.poll(polls).None?
    ensures c.maxWait >= 0 ==> polls <= c.maxWait / c.pollSecs + 1
  {
    polls := 0;
    var quietHits := 0;
    while true
      invariant quietHits == Hits(w, c, polls)
      invariant Reaches(w, c, polls)
      invariant forall n: nat :: 1 <= n <= polls ==> !Window(w, c, n)
      decreases c.maxWait - (w.clock(polls) - w.start)
    {
      if c.maxWait >= 0 { PollsBounded(w, c, polls); }
      if w.clock(polls) - w.start > c.maxWait {
        assert !InTime(w, c, polls);
        return TimedOut, polls;
      }
      if w.poll(polls).None? {
        return PollFailed, polls;
      }
      quietHits := if IsQuiet(w.poll(polls).value, c) then quietHits + 1 else 0;
      assert w.clock(polls) + c.pollSecs <= w.clock(polls + 1);
      polls := polls + 1;
      HitsIsWindow(w, c, polls);
      if quietHits >= c.consecutive {
        if c.maxWait >= 0 { PollsBounded(w, c, polls); }
        return Quiet, polls;
      }
    }
  }

  // ---------- The phases ----------

  /** A phase: whether it is switched on, what its wait would see, and whether its backfill request would succeed. */
  datatype Phase = Phase(enabled: bool, world: World, works: bool)

  ghost predicate MayStart(p: Phase, c: Config, waitQuiet: bool) {
    waitQuiet ==> exists n: nat :: Succeeds(p.world, c, n)
  }

  /** The phases in order; the first wait or request that fails ends the script. A phase is started exactly when it is
      switched on, its own wait succeeds, and every phase before it was off or went through. */
  method Run(phases: seq<Phase>, c: Config, waitQuiet: bool) returns (started: seq<nat>, done: bool)
    requires forall i :: 0 <= i < |phases| ==> Sleeps(phases[i].world, c)
    requires c.pollSecs >= 1
    ensures forall i :: 0 <= i < |started| - 1 ==> started[i] < started[i + 1]
    ensures forall i: nat :: i in started <==>
      && i < |phases| && phases[i].enabled && MayStart(phases[i], c, waitQuiet)
      && forall j :: 0 <= j < i && phases[j].enabled ==> MayStart(phases[j], c, waitQuiet) && phases[j].works
    ensures done <==>
      forall j :: 0 <= j < |phases| && phases[j].enabled ==> MayStart(phases[j], c, waitQuiet) && phases[j].works
  {
    started := [];
    for i := 0 to |phases|
      invariant forall k :: 0 <= k < |started| - 1 ==> started[k] < started[k + 1]
      invariant started != [] ==> started[|started| - 1] < i
      invariant forall j :: 0 <= j < i && phases[j].enabled ==> MayStart(phases[j], c, waitQuiet) && phases[j].works
      invariant forall k: nat :: k in started <==> k < i && phases[k].enabled
    {
      if phases[i].enabled {
        if waitQuiet {
          var outcome, polls := WaitForQuiet(phases[i].world, c);
          if outcome != Quiet {
            return started, false;
          }
        }
        started := started + [i];
        if !phases[i].works {
          return started, false;
        }
      }
    }
    return started, true;
  }
}
