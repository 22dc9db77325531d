/** The sign-in rate limiter: a request first counts the attempts of its email in the window, and records its own
    attempt later. Requests of the two reset routes share one action and may overlap. */
module RateLimit {
  import opened Lists
  import opened Gate
  import opened Runs

  /** What attempts are counted under. */
  datatype Who = Who(email: string, action: string)

  datatype Attempt = Attempt(who: Who, createdAt: int)

  datatype Limits = Limits(window: nat, max: int)

  /** `waiting`: requests past the check that have not recorded yet. */
  datatype State = State(now: int, attempts: seq<Attempt>, waiting: multiset<Who>)

  datatype Step =
    | Tick(to: int)
    | Check(who: Who, lag: nat)      // lag: how long ago the request read the clock
    | Record(who: Who)
    | Fail(who: Who)

  function Recent(attempts: seq<Attempt>, who: Who, since: int): nat {
    if attempts == [] then 0
    else
      var a := attempts[|attempts| - 1];
      Recent(attempts[..|attempts| - 1], who, since) + if a.who == who && a.createdAt >= since then 1 else 0
  }

  predicate IsRateLimited(attempts: seq<Attempt>, who: Who, now: int, l: Limits) {
    Recent(attempts, who, now - l.window) >= l.max
  }

  function Apply(s: State, step: Step, l: Limits): State {
    match step
    case Tick(to) => if to >= s.now then s.(now := to) else s
    case Check(who, lag) =>
      if IsRateLimited(s.attempts, who, s.now - lag, l) then s else s.(waiting := s.waiting + multiset{who})
    case Record(who) =>
      if who in s.waiting then s.(attempts := s.attempts + [Attempt(who, s.now)], waiting := s.waiting - multiset{who})
      else s
    case Fail(who) => s.(waiting := s.waiting - multiset{who})
  }

  function Under(l: Limits): (State, Step) -> State { (s, step) => Apply(s, step, l) }

  function Run(s: State, steps: seq<Step>, l: Limits): State { RunOf(s, steps, Under(l)) }

  // ---------- What is counted and what is admitted ----------

  function Since(who: Who, since: int): Attempt -> bool {
    (a: Attempt) => a.who.email == who.email && a.who.action == who.action && a.createdAt >= since
  }

  /** Exactly the attempts of the email and action from that time on are counted. */
  lemma {:induction false} RecentMeaning(attempts: seq<Attempt>, who: Who, since: int)
    ensures Recent(attempts, who, since) == Tally(attempts, Since(who, since))
  {
    if attempts != [] {
      var front, last := attempts[..|attempts| - 1], attempts[|attempts| - 1];
      RecentMeaning(front, who, since);
      assert attempts == front + [last];
      TallyAppend(front, [last], Since(who, since));
      TallyOne(last, Since(who, since));
    }
  }

  /** A request is admitted exactly when fewer attempts than the maximum are on record since one window before the time
      it read off the clock. */
  lemma CheckMeaning(s: State, who: Who, lag: nat, l: Limits, v: Who)
    ensures var t := Apply(s, Check(who, lag), l);
      && t.now == s.now && t.attempts == s.attempts
      && t.waiting[v] == s.waiting[v] +
          if v == who && Tally(s.attempts, Since(who, s.now - lag - l.window)) < l.max then 1 else 0
  {
    RecentMeaning(s.attempts, who, s.now - lag - l.window);
  }

  /** An admitted request leaves one attempt with the time of recording, unless it fails; both make room. */
  lemma RecordMeaning(s: State, who: Who, l: Limits, v: Who)
    ensures var n, t := if s.waiting[who] > 0 then 1 else 0, Apply(s, Record(who), l);
      && t.now == s.now && t.attempts == (if n == 1 then s.attempts + [Attempt(who, s.now)] else s.attempts)
      && t.waiting[v] == s.waiting[v] - if v == who then n else 0
    ensures var n, t := if s.waiting[who] > 0 then 1 else 0, Apply(s, Fail(who), l);
      && t.now == s.now && t.attempts == s.attempts && t.waiting[v] == s.waiting[v] - if v == who then n else 0
  {
  }

  /** The clock goes to any later time and never back. */
  lemma TickMeaning(s: State, to: int, l: Limits)
    ensures Apply(s, Tick(to), l) == s.(now := if to > s.now then to else s.now)
  {
  }

  // ---------- Any window ----------

  /** The attempts of `who` in the closed interval of length `window` that starts at `from`. */
  function InWindow(attempts: seq<Attempt>, who: Who, from: int, window: nat): nat {
    if attempts == [] then 0
    else
      var a := attempts[|attempts| - 1];
      InWindow(attempts[..|attempts| - 1], who, from, window) +
      if a.who == who && from <= a.createdAt <= from + window then 1 else 0
  }

  lemma {:induction false} RecentFalls(attempts: seq<Attempt>, who: Who, since: int, later: int)
    requires since <= later
    ensures Recent(attempts, who, later) <= Recent(attempts, who, since)
  {
    if attempts != [] { RecentFalls(attempts[..|attempts| - 1], who, since, later); }
  }

  lemma {:induction false} WindowIsRecent(attempts: seq<Attempt>, who: Who, from: int, window: nat)
    ensures InWindow(attempts, who, from, window) <= Recent(attempts, who, from)
  {
    if attempts != [] { WindowIsRecent(attempts[..|attempts| - 1], who, from, window); }
  }

  function LoadOf(s: State, who: Who, l: Limits): Load {
    Load(Recent(s.attempts, who, s.now - l.window), s.waiting[who], s.waiting[who])
  }

  lemma StepMoves(s: State, step: Step, who: Who, l: Limits, room: nat)
    requires Apply(s, step, l).waiting[who] <= room
    ensures Moves(LoadOf(s, who, l), LoadOf(Apply(s, step, l), who, l), l.max, room)
  {
    var t := Apply(s, step, l);
    match step {
      case Tick(to) =>
        if t != s { RecentFalls(s.attempts, who, s.now - l.window, to - l.window); }
      case Check(v, lag) =>
        if t != s && v == who {
          RecentFalls(s.attempts, who, s.now - lag - l.window, s.now - l.window);
          assert Admits(LoadOf(s, who, l), LoadOf(t, who, l), 1, l.max, room);
        }
      case Record(v) =>
        if t != s { assert t.attempts[..|t.attempts| - 1] == s.attempts; }
      case Fail(_) =>
    }
  }

  /** Every window of the limiter's length holds at most `most` attempts. */
  ghost predicate Sparse(attempts: seq<Attempt>, who: Who, window: nat, most: int) {
    forall from :: InWindow(attempts, who, from, window) <= most
  }

  lemma SparseStep(s: State, step: Step, who: Who, l: Limits, most: int)
    requires Sparse(s.attempts, who, l.window, most)
    requires var t := Apply(s, step, l); Recent(t.attempts, who, t.now - l.window) <= most
    ensures Sparse(Apply(s, step, l).attempts, who, l.window, most)
  {
    var t := Apply(s, step, l);
    if t.attempts != s.attempts {
      assert t.attempts[..|t.attempts| - 1] == s.attempts;
      forall from ensures InWindow(t.attempts, who, from, l.window) <= most {
        WindowIsRecent(t.attempts, who, from, l.window);
        if from <= t.now <= from + l.window {
          RecentFalls(t.attempts, who, t.now - l.window, from);
        } else {
          assert InWindow(t.attempts, who, from, l.window) == InWindow(s.attempts, who, from, l.window);
        }
      }
    }
  }

  /** At most `room` requests of `who` are between check and record at any time. */
  ghost predicate AtMost(s: State, steps: seq<Step>, who: Who, l: Limits, room: nat)
    decreases |steps|
  {
    && s.waiting[who] <= room
    && (steps != [] ==> AtMost(Apply(s, steps[0], l), steps[1..], who, l, room))
  }

  lemma LoadStep(s: State, step: Step, who: Who, l: Limits, room: nat)
    requires Within(LoadOf(s, who, l), l.max, room, 1) && Apply(s, step, l).waiting[who] <= room
    ensures Within(LoadOf(Apply(s, step, l), who, l), l.max, room, 1)
  {
    StepMoves(s, step, who, l, room);
    GateStep(LoadOf(s, who, l), LoadOf(Apply(s, step, l), who, l), l.max, room, 1);
  }

  /** In every interleaving, every closed interval of the window's length, not only the current one, holds at most
      `max + room - 1` recorded attempts of one email. */
  lemma {:induction false} WindowBound(s: State, steps: seq<Step>, who: Who, l: Limits, room: nat)
    requires AtMost(s, steps, who, l, room) && Sparse(s.attempts, who, l.window, l.max + room - 1)
    requires Recent(s.attempts, who, s.now - l.window) + s.waiting[who] <= l.max + room - 1
    ensures Sparse(Run(s, steps, l).attempts, who, l.window, l.max + room - 1)
    decreases |steps|
  {
    if steps != [] {
      LoadStep(s, steps[0], who, l, room);
      SparseStep(s, steps[0], who, l, l.max + room - 1);
      WindowBound(Apply(s, steps[0], l), steps[1..], who, l, room);
    }
  }

  /** Requests one after the other, from an empty table: never more than `max` in any window. */
  lemma SerialWindowBound(now: int, steps: seq<Step>, who: Who, l: Limits, from: int)
    requires l.max >= 0 && AtMost(State(now, [], multiset{}), steps, who, l, 1)
    ensures InWindow(Run(State(now, [], multiset{}), steps, l).attempts, who, from, l.window) <= l.max
  {
    WindowBound(State(now, [], multiset{}), steps, who, l, 1);
  }

  // ---------- The bound is reached ----------

  /** `n` requests more than in `s` are past the check, and nothing else has changed. */
  ghost function Admitted(s: State, who: Who): (State, nat) -> bool {
    (t: State, n: nat) => t.now == s.now && t.attempts == s.attempts && t.waiting[who] == s.waiting[who] + n
  }

  lemma ChecksAdmit(s: State, n: nat, who: Who, l: Limits)
    requires !IsRateLimited(s.attempts, who, s.now, l)
    ensures Admitted(s, who)(Run(s, Repeat(n, Check(who, 0)), l), n)
  {
    RepeatHolds(s, 0, n, Check(who, 0), Under(l), Admitted(s, who));
  }

  /** At the same time as `s`, `n` of its waiting requests have added an attempt to the current window. */
  ghost function Recorded(s: State, who: Who, l: Limits): (State, nat) -> bool {
    (t: State, n: nat) =>
      && t.now == s.now && t.waiting[who] == s.waiting[who] - n
      && InWindow(t.attempts, who, s.now - l.window, l.window) ==
          InWindow(s.attempts, who, s.now - l.window, l.window) + n
  }

  lemma RecordAdds(s: State, t: State, n: nat, who: Who, l: Limits)
    requires Recorded(s, who, l)(t, n) && t.waiting[who] > 0
    ensures Recorded(s, who, l)(Apply(t, Record(who), l), n + 1)
  {
    var u := Apply(t, Record(who), l);
    assert u.attempts[..|u.attempts| - 1] == t.attempts;
    assert u.attempts[|u.attempts| - 1] == Attempt(who, s.now);
    assert InWindow(u.attempts, who, s.now - l.window, l.window) ==
        InWindow(t.attempts, who, s.now - l.window, l.window) + 1;
  }

  lemma RecordsAdd(s: State, n: nat, who: Who, l: Limits)
    requires s.waiting[who] >= n
    ensures Recorded(s, who, l)(Run(s, Repeat(n, Record(who)), l), n)
  {
    forall t: State, i: nat | i < n && Recorded(s, who, l)(t, i)
      ensures Recorded(s, who, l)(Under(l)(t, Record(who)), i + 1)
    {
      RecordAdds(s, t, i, who, l);
    }
    RepeatHolds(s, 0, n, Record(who), Under(l), Recorded(s, who, l));
  }

  lemma {:induction false} RecentIsWindow(attempts: seq<Attempt>, who: Who, now: int, window: nat)
    requires forall i :: 0 <= i < |attempts| ==> attempts[i].createdAt <= now
    ensures InWindow(attempts, who, now - window, window) == Recent(attempts, who, now - window)
  {
    if attempts != [] { RecentIsWindow(attempts[..|attempts| - 1], who, now, window); }
  }

  /** The last window of `s` holds `n` attempts. */
  ghost predicate Holds(s: State, who: Who, l: Limits, n: int) {
    InWindow(s.attempts, who, s.now - l.window, l.window) == n
  }

  lemma Reaches(s: State, mid: State, t: State, who: Who, l: Limits, room: nat)
    requires Recent(s.attempts, who, s.now - l.window) == l.max - 1
    requires forall i :: 0 <= i < |s.attempts| ==> s.attempts[i].createdAt <= s.now
    requires Admitted(s, who)(mid, room) && Recorded(mid, who, l)(t, room)
    ensures Holds(t, who, l, l.max + room - 1)
  {
    RecentIsWindow(s.attempts, who, s.now, l.window);
  }

  lemma Overlapping(s: State, who: Who, l: Limits, room: nat, mid: State, t: State)
    requires !IsRateLimited(s.attempts, who, s.now, l)
    requires mid == Run(s, Repeat(room, Check(who, 0)), l) && t == Run(mid, Repeat(room, Record(who)), l)
    ensures Admitted(s, who)(mid, room) && Recorded(mid, who, l)(t, room)
  {
    ChecksAdmit(s, room, who, l);
    RecordsAdd(mid, room, who, l);
  }

  /** From any state one attempt short of the maximum, `room` overlapping requests end exactly on the bound. */
  lemma WindowReached(s: State, who: Who, l: Limits, room: nat)
    requires Recent(s.attempts, who, s.now - l.window) == l.max - 1
    requires forall i :: 0 <= i < |s.attempts| ==> s.attempts[i].createdAt <= s.now
    ensures Holds(Run(s, Repeat(room, Check(who, 0)) + Repeat(room, Record(who)), l), who, l, l.max + room - 1)
  {
    var mid := Run(s, Repeat(room, Check(who, 0)), l);
    var t := Run(mid, Repeat(room, Record(who)), l);
    Overlapping(s, who, l, room, mid, t);
    Reaches(s, mid, t, who, l, room);
    RunOfAppend(s, Repeat(room, Check(who, 0)), Repeat(room, Record(who)), Under(l));
  }

  // ---------- Lockout and readmission ----------

  /** The times of one email's attempts, oldest first. */
  function Times(attempts: seq<Attempt>, who: Who): seq<int> {
    if attempts == [] then []
    else
      var a := attempts[|attempts| - 1];
      Times(attempts[..|attempts| - 1], who) + if a.who == who then [a.createdAt] else []
  }

  ghost predicate InOrder(attempts: seq<Attempt>) {
    forall i, j :: 0 <= i < j < |attempts| ==> attempts[i].createdAt <= attempts[j].createdAt
  }

  /** Attempts are stored in the order of the clock. */
  ghost predicate Chronological(s: State) {
    InOrder(s.attempts) && forall i :: 0 <= i < |s.attempts| ==> s.attempts[i].createdAt <= s.now
  }

  lemma ChronologicalStep(s: State, step: Step, l: Limits)
    requires Chronological(s)
    ensures Chronological(Apply(s, step, l))
  {
  }

  lemma {:induction false} AllBefore(attempts: seq<Attempt>, who: Who, last: int)
    requires forall i :: 0 <= i < |attempts| ==> attempts[i].createdAt <= last
    ensures forall since :: last < since ==> Recent(attempts, who, since) == 0
    ensures forall k :: 0 <= k < |Times(attempts, who)| ==> Times(attempts, who)[k] <= last
  {
    if attempts != [] { AllBefore(attempts[..|attempts| - 1], who, last); }
  }

  /** Counting from a time on asks about one element: the one `n` from the end. */
  lemma {:induction false} RecentIsSuffix(attempts: seq<Attempt>, who: Who, since: int, n: nat)
    requires InOrder(attempts) && n >= 1
    ensures var ts := Times(attempts, who);
      Recent(attempts, who, since) >= n <==> |ts| >= n && ts[|ts| - n] >= since
  {
    if attempts != [] {
      var front, a := attempts[..|attempts| - 1], attempts[|attempts| - 1];
      AllBefore(attempts, who, a.createdAt);
      AllBefore(front, who, a.createdAt);
      RecentIsSuffix(front, who, since, if a.who == who && n > 1 then n - 1 else n);
    }
  }

  /** When the email is limited, the time its oldest counted attempt leaves the window. */
  function Deadline(s: State, who: Who, l: Limits): int
    requires 1 <= l.max <= |Times(s.attempts, who)|
  {
    var ts := Times(s.attempts, who);
    ts[|ts| - l.max] + l.window
  }

  /** A check now is refused exactly up to the deadline. */
  lemma LimitedUntilDeadline(s: State, who: Who, l: Limits)
    requires Chronological(s) && l.max >= 1
    ensures IsRateLimited(s.attempts, who, s.now, l) <==>
      l.max <= |Times(s.attempts, who)| && s.now <= Deadline(s, who, l)
  {
    RecentIsSuffix(s.attempts, who, s.now - l.window, l.max);
  }

  /** Nothing about the email has changed. */
  ghost predicate Unmoved(s: State, t: State, who: Who) {
    Times(t.attempts, who) == Times(s.attempts, who) && t.waiting[who] == 0
  }

  lemma LockedStep(s: State, step: Step, who: Who, l: Limits)
    requires Chronological(s) && 1 <= l.max <= |Times(s.attempts, who)| && s.waiting[who] == 0
    ensures var m := Apply(s, step, l); Unmoved(s, m, who) || m.now > Deadline(s, who, l)
  {
    var m := Apply(s, step, l);
    if step.Check? && step.who == who && m != s && s.now <= Deadline(s, who, l) {
      LimitedUntilDeadline(s, who, l);
      RecentFalls(s.attempts, who, s.now - step.lag - l.window, s.now - l.window);
    }
    if step.Record? && m != s { assert m.attempts[..|m.attempts| - 1] == s.attempts; }
  }

  /** The clock does not go back, and the table stays in its order. */
  lemma {:induction false} Later(s: State, steps: seq<Step>, l: Limits)
    requires Chronological(s)
    ensures Chronological(Run(s, steps, l)) && Run(s, steps, l).now >= s.now
    decreases |steps|
  {
    if steps != [] {
      ChronologicalStep(s, steps[0], l);
      Later(Apply(s, steps[0], l), steps[1..], l);
    }
  }

  /** Refused requests record nothing, so no number of them moves the deadline: until it passes, nothing about the email
      changes, whatever requests arrive. */
  lemma {:induction false} LockedOut(s: State, steps: seq<Step>, who: Who, l: Limits)
    requires Chronological(s) && 1 <= l.max <= |Times(s.attempts, who)| && s.waiting[who] == 0
    ensures var t := Run(s, steps, l); t.now <= Deadline(s, who, l) ==> Unmoved(s, t, who)
    decreases |steps|
  {
    if steps != [] {
      var m := Apply(s, steps[0], l);
      ChronologicalStep(s, steps[0], l);
      LockedStep(s, steps[0], who, l);
      Later(m, steps[1..], l);
      if Unmoved(s, m, who) { LockedOut(m, steps[1..], who, l); }
    }
  }

  /** After the deadline the email is admitted again, at any time before it records something new. */
  lemma Readmitted(s: State, steps: seq<Step>, who: Who, l: Limits)
    requires Chronological(s) && 1 <= l.max <= |Times(s.attempts, who)|
    requires var t := Run(s, steps, l); t.now > Deadline(s, who, l) && Times(t.attempts, who) == Times(s.attempts, who)
    ensures !IsRateLimited(Run(s, steps, l).attempts, who, Run(s, steps, l).now, l)
  {
    Later(s, steps, l);
    LimitedUntilDeadline(Run(s, steps, l), who, l);
  }
}
