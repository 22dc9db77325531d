/** The dashboard's write and usage routes: workspace check, budget check and usage record as separate steps of
    many requests, together with month changes, budget changes and workspace deletion. */
module UsageBudget {
  import opened Text
  import opened Lists
  import opened Gate
  import opened Runs

  // ---------- Budgets ----------

  /** A usage row; `writer` numbers the request that wrote it. */
  datatype Event = Event(workspace: string, month: nat, tokens: Option<int>, writer: nat)

  /** The token sum of a workspace from a month on; rows without tokens do not count. */
  function MonthTotal(events: seq<Event>, workspace: string, month: nat): int {
    if events == [] then 0
    else
      var e := events[|events| - 1];
      MonthTotal(events[..|events| - 1], workspace, month) +
      (if e.workspace == workspace && e.month >= month then Amount(e.tokens) else 0)
  }

  /** The budget check: no budget, or a limit that is missing or zero, admits everything. */
  predicate WithinLimit(limit: Option<int>, used: int, tokens: int) {
    !(limit.Some? && limit.value != 0 && used + tokens > limit.value)
  }

  /** A quarter of the trimmed length, rounded up. */
  function EstimateTokens(content: string, sp: char -> bool): nat {
    (|Strip(content, sp)| + 3) / 4
  }

  // ---------- Requests in flight ----------

  /** Past the workspace check; past reading the budget and the clock; past the budget check and on the way to the
      record. */
  datatype Phase = Entered | Budgeted(limit: Option<int>, since: nat) | Admitted(tokens: Option<int>)

  /** What an amount adds to a total. */
  function Amount(tokens: Option<int>): int {
    match tokens case None => 0 case Some(n) => n
  }

  datatype Request = Request(workspace: string, phase: Phase, id: nat)

  datatype State = State(
    month: nat,
    status: map<string, string>,
    limits: map<string, Option<int>>,   // the active budget of a workspace, if any
    events: seq<Event>,
    inFlight: seq<Request>,
    nextId: nat)

  datatype Step =
    | Enter(workspace: string)               // authenticated; the workspace must be active
    | FindBudget(at: nat)
    | Check(at: nat, tokens: Option<int>)
    | Record(at: nat)
    | Leave(at: nat)                         // refused on other grounds, or failed
    | Delete(workspace: string)              // marked pending_delete
    | DropBudgets(workspace: string)
    | SetBudget(workspace: string, limit: Option<int>)
    | Rollover(to: nat)

  function ActiveLimit(s: State, workspace: string): Option<int> {
    if workspace in s.limits then s.limits[workspace] else None
  }

  /** One step; a step that does not apply changes nothing. */
  function Apply(s: State, step: Step): State {
    match step
    case Enter(w) =>
      if w in s.status && s.status[w] == "active" then
        s.(inFlight := s.inFlight + [Request(w, Entered, s.nextId)], nextId := s.nextId + 1)
      else s
    case FindBudget(at) =>
      if at < |s.inFlight| && s.inFlight[at].phase.Entered? then
        s.(inFlight := s.inFlight[at :=
          s.inFlight[at].(phase := Budgeted(ActiveLimit(s, s.inFlight[at].workspace), s.month))])
      else s
    case Check(at, tokens) =>
      if at < |s.inFlight| && s.inFlight[at].phase.Budgeted? then
        var r := s.inFlight[at];
        if WithinLimit(r.phase.limit, MonthTotal(s.events, r.workspace, r.phase.since), Amount(tokens)) then
          s.(inFlight := s.inFlight[at := r.(phase := Admitted(tokens))])
        else s.(inFlight := Without(s.inFlight, at))
      else s
    case Record(at) =>
      if at < |s.inFlight| && s.inFlight[at].phase.Admitted? then
        var r := s.inFlight[at];
        s.(inFlight := Without(s.inFlight, at),
           events := s.events + [Event(r.workspace, s.month, r.phase.tokens, r.id)])
      else s
    case Leave(at) => if at < |s.inFlight| then s.(inFlight := Without(s.inFlight, at)) else s
    case Delete(w) => s.(status := s.status[w := "pending_delete"])
    case DropBudgets(w) => s.(limits := s.limits - {w})
    case SetBudget(w, limit) => s.(limits := s.limits[w := limit])
    case Rollover(to) => if to >= s.month then s.(month := to) else s
  }

  function Run(s: State, steps: seq<Step>): State { RunOf(s, steps, Apply) }

  // ---------- What is counted and what is admitted ----------

  /** The rows of a workspace from a month on. */
  function Rows(w: string, month: nat): Event -> bool { (e: Event) => e.workspace == w && e.month >= month }

  function Sum(events: seq<Event>): int {
    if events == [] then 0 else (match events[0].tokens case None => 0 case Some(n) => n) + Sum(events[1..])
  }

  lemma {:induction false} SumAppend(a: seq<Event>, b: seq<Event>)
    ensures Sum(a + b) == Sum(a) + Sum(b)
  {
    if a == [] {
      assert a + b == b;
    } else {
      assert (a + b)[1..] == a[1..] + b;
      SumAppend(a[1..], b);
    }
  }

  /** The total is the sum over exactly these rows. */
  lemma {:induction false} MonthTotalMeaning(events: seq<Event>, w: string, month: nat)
    ensures MonthTotal(events, w, month) == Sum(Filter(events, Rows(w, month)))
  {
    if events != [] {
      var front, last := events[..|events| - 1], [events[|events| - 1]];
      assert events == front + last;
      MonthTotalMeaning(front, w, month);
      FilterAppend(front, last, Rows(w, month));
      assert Filter(last, Rows(w, month)) == if Rows(w, month)(last[0]) then last else [] by { assert last[1..] == []; }
      SumAppend(Filter(front, Rows(w, month)), Filter(last, Rows(w, month)));
    }
  }

  /** A request that has read its budget is admitted exactly when there is no limit, the limit is zero, or what the rows
      since its month come to and what it asks for stay within it; otherwise it is gone. */
  lemma CheckMeaning(s: State, at: nat, tokens: Option<int>)
    requires at < |s.inFlight| && s.inFlight[at].phase.Budgeted?
    ensures var r, t := s.inFlight[at], Apply(s, Check(at, tokens));
      var used := Sum(Filter(s.events, Rows(r.workspace, r.phase.since)));
      && t.events == s.events
      && if r.phase.limit.None? || r.phase.limit == Some(0)
            || used + (match tokens case None => 0 case Some(n) => n) <= r.phase.limit.value
         then t.inFlight == s.inFlight[at := Request(r.workspace, Admitted(tokens), r.id)]
         else t.inFlight == Without(s.inFlight, at)
  {
    MonthTotalMeaning(s.events, s.inFlight[at].workspace, s.inFlight[at].phase.since);
  }

  /** A recorded request adds its own amount to its own workspace from the present month on, in one row that names
      it. */
  lemma RecordMeaning(s: State, at: nat, w: string, month: nat)
    requires at < |s.inFlight| && s.inFlight[at].phase.Admitted?
    ensures var r, t := s.inFlight[at], Apply(s, Record(at));
      && t.inFlight == Without(s.inFlight, at) && |t.events| == |s.events| + 1 && s.events <= t.events
      && t.events[|s.events|].writer == r.id
      && MonthTotal(t.events, w, month) == MonthTotal(s.events, w, month) +
          if r.workspace == w && s.month >= month && r.phase.tokens.Some? then r.phase.tokens.value else 0
  {
    var t := Apply(s, Record(at));
    assert t.events[..|t.events| - 1] == s.events;
  }

  /** A request that leaves takes with it what it held. */
  lemma LeaveMeaning(s: State, at: nat, w: string)
    requires at < |s.inFlight|
    ensures var r, t := s.inFlight[at], Apply(s, Leave(at));
      && t.events == s.events && |t.inFlight| == |s.inFlight| - 1
      && AdmittedCount(t.inFlight, w) ==
          AdmittedCount(s.inFlight, w) - if r.workspace == w && r.phase.Admitted? then 1 else 0
  {
    HeldAt(s.inFlight, at, w);
  }

  /** A workspace marked for deletion lets no request in, and no other workspace notices. */
  lemma DeleteMeaning(s: State, w: string, v: string)
    ensures var t := Apply(s, Delete(w));
      && w in t.status && t.status[w] == "pending_delete" && Apply(t, Enter(w)) == t
      && (v != w ==> (v in t.status <==> v in s.status) && (v in s.status ==> t.status[v] == s.status[v]))
      && t.limits == s.limits && t.events == s.events && t.inFlight == s.inFlight
  {
  }

  /** A request finds the budget set last for its workspace, and none once budgets are dropped, with the present
      month. */
  lemma BudgetMeaning(s: State, at: nat, limit: Option<int>, v: string)
    requires at < |s.inFlight| && s.inFlight[at].phase.Entered?
    ensures var w := s.inFlight[at].workspace;
      && Apply(Apply(s, SetBudget(w, limit)), FindBudget(at)).inFlight[at].phase == Budgeted(limit, s.month)
      && Apply(Apply(s, DropBudgets(w)), FindBudget(at)).inFlight[at].phase == Budgeted(None, s.month)
      && (v != w ==> ActiveLimit(Apply(s, SetBudget(w, limit)), v) == ActiveLimit(s, v)
                     && ActiveLimit(Apply(s, DropBudgets(w)), v) == ActiveLimit(s, v))
  {
  }

  // ---------- The load of one workspace ----------

  function Positive(n: int): nat { if n > 0 then n else 0 }

  /** What admitted requests can still add; a credit, which they may also give up, is not counted. */
  function Held(rs: seq<Request>, w: string): nat {
    if rs == [] then 0
    else
      var r := rs[0];
      Held(rs[1..], w) + if r.workspace == w && r.phase.Admitted? then Positive(Amount(r.phase.tokens)) else 0
  }

  function AdmittedCount(rs: seq<Request>, w: string): nat {
    if rs == [] then 0
    else AdmittedCount(rs[1..], w) + if rs[0].workspace == w && rs[0].phase.Admitted? then 1 else 0
  }

  function LoadOf(s: State, w: string): Load {
    Load(MonthTotal(s.events, w, s.month), Held(s.inFlight, w), AdmittedCount(s.inFlight, w))
  }

  lemma {:induction false} HeldAppend(a: seq<Request>, b: seq<Request>, w: string)
    ensures Held(a + b, w) == Held(a, w) + Held(b, w)
    ensures AdmittedCount(a + b, w) == AdmittedCount(a, w) + AdmittedCount(b, w)
  {
    if a == [] {
      assert a + b == b;
    } else {
      assert (a + b)[1..] == a[1..] + b;
      HeldAppend(a[1..], b, w);
    }
  }

  /** What changes when the request at one place is replaced or removed. */
  lemma HeldAt(rs: seq<Request>, at: nat, w: string)
    requires at < |rs|
    ensures Held(rs, w) == Held(Without(rs, at), w) + Held([rs[at]], w)
    ensures AdmittedCount(rs, w) == AdmittedCount(Without(rs, at), w) + AdmittedCount([rs[at]], w)
  {
    assert rs == rs[..at] + ([rs[at]] + rs[at + 1..]);
    HeldAppend(rs[..at], [rs[at]] + rs[at + 1..], w);
    HeldAppend([rs[at]], rs[at + 1..], w);
    HeldAppend(rs[..at], rs[at + 1..], w);
  }

  lemma HeldUpdate(rs: seq<Request>, at: nat, r: Request, w: string)
    requires at < |rs|
    ensures Held(rs[at := r], w) == Held(Without(rs, at), w) + Held([r], w)
    ensures AdmittedCount(rs[at := r], w) == AdmittedCount(Without(rs, at), w) + AdmittedCount([r], w)
  {
    HeldAt(rs[at := r], at, w);
    assert Without(rs[at := r], at) == Without(rs, at);
  }

  // ---------- The assumptions of the bound ----------

  /** The limit of the workspace is in force, and no request asks for more than `most`; it may ask for a credit. */
  ghost predicate Governed(s: State, w: string, limit: int, most: nat) {
    && ActiveLimit(s, w) == Some(limit)
    && forall i :: 0 <= i < |s.inFlight| && s.inFlight[i].workspace == w ==> Amounts(s.inFlight[i].phase, limit, most)
  }

  ghost predicate Amounts(p: Phase, limit: int, most: nat) {
    match p
    case Entered => true
    case Budgeted(l, _) => l == Some(limit)
    case Admitted(tokens) => Amount(tokens) <= most
  }

  /** Steps that leave the limit of `w` in force and ask for at most `most`. */
  predicate Allowed(step: Step, w: string, limit: int, most: nat) {
    match step
    case Check(_, tokens) => Amount(tokens) <= most
    case DropBudgets(v) => v != w
    case SetBudget(v, l) => v == w ==> l == Some(limit)
    case _ => true
  }

  ghost predicate AllAllowed(steps: seq<Step>, w: string, limit: int, most: nat) {
    forall i :: 0 <= i < |steps| ==> Allowed(steps[i], w, limit, most)
  }

  /** No time that a step leaves behind is a net credit: neither the months between reading the clock and the check, nor
      a month that ends. */
  predicate Paid(s: State, step: Step, w: string) {
    match step
    case Check(at, _) =>
      at < |s.inFlight| && s.inFlight[at].workspace == w && s.inFlight[at].phase.Budgeted? ==>
        MonthTotal(s.events, w, s.month) <= MonthTotal(s.events, w, s.inFlight[at].phase.since)
    case Rollover(to) => to >= s.month ==> MonthTotal(s.events, w, to) <= MonthTotal(s.events, w, s.month)
    case _ => true
  }

  ghost predicate PaidRun(s: State, steps: seq<Step>, w: string)
    decreases |steps|
  {
    steps != [] ==> Paid(s, steps[0], w) && PaidRun(Apply(s, steps[0]), steps[1..], w)
  }

  lemma GovernedStep(s: State, step: Step, w: string, limit: int, most: nat)
    requires Governed(s, w, limit, most) && Allowed(step, w, limit, most)
    ensures Governed(Apply(s, step), w, limit, most)
  {
  }

  lemma {:induction false} HeldBounds(rs: seq<Request>, w: string, limit: int, most: nat)
    requires forall i :: 0 <= i < |rs| && rs[i].workspace == w ==> Amounts(rs[i].phase, limit, most)
    ensures Held(rs, w) <= AdmittedCount(rs, w) * most
  {
    if rs != [] {
      HeldBounds(rs[1..], w, limit, most);
      assert (AdmittedCount(rs[1..], w) + 1) * most == AdmittedCount(rs[1..], w) * most + most;
    }
  }

  /** Every step of the routes is a step of the gate. */
  lemma StepMoves(s: State, step: Step, w: string, limit: int, room: nat, most: nat)
    requires Governed(s, w, limit, most) && limit != 0 && Paid(s, step, w)
    requires AdmittedCount(Apply(s, step).inFlight, w) <= room
    ensures Moves(LoadOf(s, w), LoadOf(Apply(s, step), w), limit, room)
  {
    var t := Apply(s, step);
    match step {
      case Enter(v) =>
        HeldAppend(s.inFlight, [Request(v, Entered, s.nextId)], w);
      case FindBudget(at) =>
        if t != s {
          HeldAt(s.inFlight, at, w);
          HeldUpdate(s.inFlight, at, t.inFlight[at], w);
        }
      case Check(at, tokens) =>
        if t != s { CheckMoves(s, at, tokens, w, limit, room, most); }
      case Record(at) =>
        if t != s { RecordMoves(s, at, w, limit, room); }
      case Leave(at) =>
        if t != s { HeldAt(s.inFlight, at, w); }
      case Rollover(_) =>
      case Delete(_) =>
      case DropBudgets(_) =>
      case SetBudget(_, _) =>
    }
  }

  lemma CheckMoves(s: State, at: nat, tokens: Option<int>, w: string, limit: int, room: nat, most: nat)
    requires Governed(s, w, limit, most) && limit != 0 && at < |s.inFlight| && s.inFlight[at].phase.Budgeted?
    requires Paid(s, Check(at, tokens), w) && AdmittedCount(Apply(s, Check(at, tokens)).inFlight, w) <= room
    ensures Moves(LoadOf(s, w), LoadOf(Apply(s, Check(at, tokens)), w), limit, room)
  {
    var t, r := Apply(s, Check(at, tokens)), s.inFlight[at];
    HeldAt(s.inFlight, at, w);
    HeldUpdate(s.inFlight, at, r.(phase := Admitted(tokens)), w);
    assert Amounts(r.phase, limit, most) || r.workspace != w;
    var within := WithinLimit(r.phase.limit, MonthTotal(s.events, r.workspace, r.phase.since), Amount(tokens));
    if within && r.workspace == w && Amount(tokens) > 0 {
      assert Admits(LoadOf(s, w), LoadOf(t, w), Amount(tokens), limit, room);
    }
  }

  lemma RecordMoves(s: State, at: nat, w: string, limit: int, room: nat)
    requires at < |s.inFlight| && s.inFlight[at].phase.Admitted?
    ensures Moves(LoadOf(s, w), LoadOf(Apply(s, Record(at)), w), limit, room)
  {
    var t := Apply(s, Record(at));
    HeldAt(s.inFlight, at, w);
    assert t.events[..|t.events| - 1] == s.events;
  }

  /** At most `room` requests of `w` are between check and record at any time of the run. */
  ghost predicate AtMost(s: State, steps: seq<Step>, w: string, room: nat)
    decreases |steps|
  {
    && AdmittedCount(s.inFlight, w) <= room
    && (steps != [] ==> AtMost(Apply(s, steps[0]), steps[1..], w, room))
  }

  /** In every interleaving of checks, records, failures, deletions and month changes that leaves the limit in force and
      no net credit behind, with at most `room` requests of the workspace past the check at a time and amounts of either
      sign, the month's tokens never exceed the limit by more than `room - 1` single amounts. */
  lemma {:induction false} BudgetBound(s: State, steps: seq<Step>, w: string, limit: int, room: nat, most: nat)
    requires Governed(s, w, limit, most) && limit != 0 && Within(LoadOf(s, w), limit, room, most)
    requires AtMost(s, steps, w, room) && AllAllowed(steps, w, limit, most) && PaidRun(s, steps, w)
    ensures var t := Run(s, steps); MonthTotal(t.events, w, t.month) <= limit + (room - 1) * most
    decreases |steps|
  {
    HeldBounds(s.inFlight, w, limit, most);
    if steps != [] {
      StepMoves(s, steps[0], w, limit, room, most);
      GateStep(LoadOf(s, w), LoadOf(Apply(s, steps[0]), w), limit, room, most);
      GovernedStep(s, steps[0], w, limit, most);
      BudgetBound(Apply(s, steps[0]), steps[1..], w, limit, room, most);
    }
  }

  /** With one request at a time the limit is never passed. */
  lemma SerialBound(s: State, steps: seq<Step>, w: string, limit: int, most: nat)
    requires Governed(s, w, limit, most) && limit != 0
    requires AdmittedCount(s.inFlight, w) == 0 && MonthTotal(s.events, w, s.month) <= limit
    requires AtMost(s, steps, w, 1) && AllAllowed(steps, w, limit, most) && PaidRun(s, steps, w)
    ensures var t := Run(s, steps); MonthTotal(t.events, w, t.month) <= limit
  {
    HeldBounds(s.inFlight, w, limit, most);
    BudgetBound(s, steps, w, limit, 1, most);
  }

  // ---------- When nothing is left unpaid ----------

  ghost predicate NoCredits(events: seq<Event>, w: string) {
    forall i :: 0 <= i < |events| && events[i].workspace == w ==> Amount(events[i].tokens) >= 0
  }

  lemma {:induction false} TotalFalls(events: seq<Event>, w: string, month: nat, to: nat)
    requires month <= to && NoCredits(events, w)
    ensures 0 <= MonthTotal(events, w, to) <= MonthTotal(events, w, month)
  {
    if events != [] { TotalFalls(events[..|events| - 1], w, month, to); }
  }

  /** Nothing recorded or about to be is a credit, and no clock reading is ahead. */
  ghost predicate Charged(s: State, w: string) {
    && NoCredits(s.events, w)
    && forall i :: 0 <= i < |s.inFlight| && s.inFlight[i].workspace == w ==> Charging(s.inFlight[i].phase, s.month)
  }

  ghost predicate Charging(p: Phase, month: nat) {
    match p
    case Entered => true
    case Budgeted(_, since) => since <= month
    case Admitted(tokens) => Amount(tokens) >= 0
  }

  predicate Charges(step: Step) { step.Check? ==> Amount(step.tokens) >= 0 }

  lemma ChargedStep(s: State, step: Step, w: string)
    requires Charged(s, w) && Charges(step)
    ensures Charged(Apply(s, step), w)
  {
  }

  /** Where no amount is negative, as with memory writes, no month is a net credit. */
  lemma {:induction false} ChargedIsPaid(s: State, steps: seq<Step>, w: string)
    requires Charged(s, w) && forall i :: 0 <= i < |steps| ==> Charges(steps[i])
    ensures PaidRun(s, steps, w)
    decreases |steps|
  {
    if steps != [] {
      var step := steps[0];
      if step.Check? && step.at < |s.inFlight| && s.inFlight[step.at].phase.Budgeted? {
        var r := s.inFlight[step.at];
        if r.workspace == w {
          assert Charging(r.phase, s.month);
          TotalFalls(s.events, w, r.phase.since, s.month);
        }
      }
      if step.Rollover? && step.to >= s.month { TotalFalls(s.events, w, s.month, step.to); }
      ChargedStep(s, step, w);
      ChargedIsPaid(Apply(s, steps[0]), steps[1..], w);
    }
  }

  /** The condition is needed in every state: a request that read the clock in a month since which the rows come to less
      than the rows of the present or a later month takes that later month past the limit, all on its own. */
  lemma CreditOvershoots(s: State, at: nat, limit: int, to: nat)
    requires at < |s.inFlight| && s.inFlight[at].phase.Budgeted? && s.inFlight[at].phase.limit == Some(limit)
      && limit != 0
    requires to >= s.month
    requires var r := s.inFlight[at];
      MonthTotal(s.events, r.workspace, r.phase.since) < MonthTotal(s.events, r.workspace, to)
    ensures var r := s.inFlight[at];
      var d := limit - MonthTotal(s.events, r.workspace, r.phase.since);
      var t := Run(s, [Check(at, Some(d)), Rollover(to), Record(at)]);
      t.month == to && MonthTotal(t.events, r.workspace, to) > limit
  {
    var r := s.inFlight[at];
    var d := limit - MonthTotal(s.events, r.workspace, r.phase.since);
    RunOfThree(s, Check(at, Some(d)), Rollover(to), Record(at), Apply);
    var a := Apply(s, Check(at, Some(d)));
    assert a.inFlight[at] == r.(phase := Admitted(Some(d)));
    var t := Apply(Apply(a, Rollover(to)), Record(at));
    assert t.events[..|t.events| - 1] == s.events;
  }

  // ---------- The bound is reached ----------

  /** `n` requests enter and are checked before any records. */
  function Burst(n: nat, amount: nat): seq<Step> {
    if n == 0 then [] else Burst(n - 1, amount) + [Enter("w"), FindBudget(n - 1), Check(n - 1, Some(amount))]
  }

  function Records(n: nat): seq<Step> {
    if n == 0 then [] else Records(n - 1) + [Record(0)]
  }

  function Start(used: nat, limit: nat): State {
    State(0, map["w" := "active"], map["w" := Some(limit)], [Event("w", 0, Some(used), 0)], [], 1)
  }

  function Waiting(n: nat, amount: nat): seq<Request> {
    seq(n, i requires 0 <= i < n => Request("w", Admitted(Some(amount)), i + 1))
  }

  lemma {:induction false} BurstAdmits(n: nat, amount: nat, used: nat, limit: nat)
    requires used + amount <= limit
    ensures Run(Start(used, limit), Burst(n, amount)) ==
      Start(used, limit).(inFlight := Waiting(n, amount), nextId := n + 1)
  {
    if n > 0 {
      BurstAdmits(n - 1, amount, used, limit);
      var more := [Enter("w"), FindBudget(n - 1), Check(n - 1, Some(amount))];
      RunOfAppend(Start(used, limit), Burst(n - 1, amount), more, Apply);
      OneAdmission(n - 1, amount, used, limit);
    }
  }

  lemma OneAdmission(n: nat, amount: nat, used: nat, limit: nat)
    requires used + amount <= limit
    ensures Run(Start(used, limit).(inFlight := Waiting(n, amount), nextId := n + 1),
                [Enter("w"), FindBudget(n), Check(n, Some(amount))])
      == Start(used, limit).(inFlight := Waiting(n + 1, amount), nextId := n + 2)
  {
    var s := Start(used, limit).(inFlight := Waiting(n, amount), nextId := n + 1);
    var s1 := Apply(s, Enter("w"));
    var s2 := Apply(s1, FindBudget(n));
    var s3 := Apply(s2, Check(n, Some(amount)));
    assert s2.inFlight[n] == Request("w", Budgeted(Some(limit), 0), n + 1);
    assert MonthTotal(s.events, "w", 0) == used by { assert s.events[..0] == []; }
    assert s3.inFlight == Waiting(n + 1, amount);
    RunOfThree(s, Enter("w"), FindBudget(n), Check(n, Some(amount)), Apply);
  }

  /** When `n` waiting requests record, all their amounts are added. */
  lemma {:induction false} RecordsAdd(s: State, n: nat, amount: nat)
    requires n <= |s.inFlight|
    requires forall i :: 0 <= i < |s.inFlight| ==>
      s.inFlight[i].workspace == "w" && s.inFlight[i].phase == Admitted(Some(amount))
    ensures var t := Run(s, Records(n));
      && t.month == s.month && t.inFlight == s.inFlight[n..]
      && MonthTotal(t.events, "w", t.month) == MonthTotal(s.events, "w", s.month) + n * amount
  {
    if n > 0 {
      RecordsAdd(s, n - 1, amount);
      RunOfAppend(s, Records(n - 1), [Record(0)], Apply);
      var m := Run(s, Records(n - 1));
      RunOfOne(m, Record(0), Apply);
      var t := Apply(m, Record(0));
      assert t.events[..|t.events| - 1] == m.events;
      assert Without(m.inFlight, 0) == m.inFlight[1..];
      assert n * amount == (n - 1) * amount + amount;
    }
  }

  lemma TimesOneMore(n: nat, amount: nat)
    requires n >= 1
    ensures n * amount == (n - 1) * amount + amount
  {
  }

  /** The bound is exact: for every limit, amount and number of requests there is a run that ends on it. */
  lemma BoundReached(limit: nat, amount: nat, room: nat)
    requires amount <= limit && room >= 1
    ensures var t := Run(Start(limit - amount, limit), Burst(room, amount) + Records(room));
      MonthTotal(t.events, "w", t.month) == limit + (room - 1) * amount
  {
    var s := Start(limit - amount, limit);
    BurstAdmits(room, amount, limit - amount, limit);
    RunOfAppend(s, Burst(room, amount), Records(room), Apply);
    var m := Run(s, Burst(room, amount));
    StartTotal(limit - amount, limit);
    assert forall i :: 0 <= i < room ==> m.inFlight[i] == Waiting(room, amount)[i];
    RecordsAdd(m, room, amount);
    TimesOneMore(room, amount);
  }

  lemma StartTotal(used: nat, limit: nat)
    ensures MonthTotal(Start(used, limit).events, "w", 0) == used
  {
    assert Start(used, limit).events[..0] == [];
  }

  // ---------- Plans ----------

  datatype Entitlements = Entitlements(planId: string, maxApiKeys: Option<nat>, maxProjects: Option<nat>,
                                       maxWriteBytes: Option<nat>)

  const PLAN_LIMITS: map<string, Entitlements> := map[
    "starter" := Entitlements("starter", Some(3), Some(5), Some(50_000)),
    "team" := Entitlements("team", Some(10), Some(25), Some(200_000)),
    "enterprise" := Entitlements("enterprise", None, None, None)]

  /** The plan's own entitlements, or the default plan's for a missing, empty or unknown plan. */
  function GetEntitlements(planId: Option<string>, defaultId: string): Option<Entitlements> {
    var id := if planId.None? || planId.value == "" then defaultId else planId.value;
    if id in PLAN_LIMITS then Some(PLAN_LIMITS[id])
    else if defaultId in PLAN_LIMITS then Some(PLAN_LIMITS[defaultId])
    else None
  }

  /** A known plan has its own limits, anything else the default plan's; with a known default there are always some. */
  lemma PlanFallback(planId: Option<string>, defaultId: string)
    requires defaultId in PLAN_LIMITS
    ensures var r := GetEntitlements(planId, defaultId);
      r.Some? && r.value.planId == if planId.Some? && planId.value in PLAN_LIMITS then planId.value else defaultId
  {
    assert "" !in PLAN_LIMITS;
  }

  /** The plans' limits. */
  lemma PlanTable(defaultId: string)
    ensures GetEntitlements(Some("starter"), defaultId) == Some(Entitlements("starter", Some(3), Some(5), Some(50000)))
    ensures GetEntitlements(Some("team"), defaultId) == Some(Entitlements("team", Some(10), Some(25), Some(200000)))
    ensures GetEntitlements(Some("enterprise"), defaultId) == Some(Entitlements("enterprise", None, None, None))
  {
  }

  /** The largest amount a write of a bounded size can be charged. */
  function LargestWrite(maxWriteBytes: nat): nat { (maxWriteBytes + 3) / 4 }

  lemma WriteChargeBounded(content: string, maxWriteBytes: nat, sp: char -> bool)
    requires |content| <= maxWriteBytes
    ensures EstimateTokens(content, sp) <= LargestWrite(maxWriteBytes)
  {
    var a, b := StripPieces(content, sp);
  }

  /** Checks made by memory writes that passed the size check. */
  ghost predicate IsWrite(step: Step, maxWriteBytes: nat, sp: char -> bool) {
    step.Check? ==> exists content :: |content| <= maxWriteBytes && step.tokens == Some(EstimateTokens(content, sp))
  }

  /** For memory writes the amount in the bound is a quarter of the plan's write size, rounded up. */
  lemma MemoryWriteBound(s: State, steps: seq<Step>, w: string, limit: int, room: nat, plan: Entitlements,
                         sp: char -> bool)
    requires plan.maxWriteBytes.Some?
    requires Governed(s, w, limit, LargestWrite(plan.maxWriteBytes.value)) && limit != 0 && Charged(s, w)
    requires AdmittedCount(s.inFlight, w) == 0 && MonthTotal(s.events, w, s.month) <= limit
    requires AtMost(s, steps, w, room) && room >= 1
    requires forall i :: 0 <= i < |steps| ==>
      && IsWrite(steps[i], plan.maxWriteBytes.value, sp)
      && (steps[i].DropBudgets? ==> steps[i].workspace != w)
      && (steps[i].SetBudget? && steps[i].workspace == w ==> steps[i].limit == Some(limit))
    ensures var t := Run(s, steps);
      MonthTotal(t.events, w, t.month) <= limit + (room - 1) * LargestWrite(plan.maxWriteBytes.value)
  {
    var most := LargestWrite(plan.maxWriteBytes.value);
    forall i | 0 <= i < |steps| ensures Allowed(steps[i], w, limit, most) && Charges(steps[i]) {
      assert IsWrite(steps[i], plan.maxWriteBytes.value, sp);
      if steps[i].Check? {
        var content :| |content| <= plan.maxWriteBytes.value && steps[i].tokens == Some(EstimateTokens(content, sp));
        WriteChargeBounded(content, plan.maxWriteBytes.value, sp);
      }
    }
    HeldBounds(s.inFlight, w, limit, most);
    ChargedIsPaid(s, steps, w);
    BudgetBound(s, steps, w, limit, room, most);
  }

  /** Blanks around a write are free; inside them every four characters started cost a token. */
  lemma WriteCharge(a: string, core: string, b: string, sp: char -> bool)
    requires All(a, sp) && All(b, sp) && Tight(core, sp)
    ensures 4 * EstimateTokens(a + core + b, sp) - 4 < |core| <= 4 * EstimateTokens(a + core + b, sp)
  {
    StripUnique(a, core, b, sp);
  }

  // ---------- Deletion ----------

  ghost predicate Numbered(s: State) {
    && (forall i :: 0 <= i < |s.inFlight| ==> s.inFlight[i].id < s.nextId)
    && (forall i :: 0 <= i < |s.events| ==> s.events[i].writer < s.nextId)
  }

  ghost predicate Closed(s: State, w: string) {
    w !in s.status || s.status[w] != "active"
  }

  /** Since request `first`, nothing about `w` is in flight or recorded. */
  ghost predicate NothingSince(s: State, w: string, first: nat) {
    && (forall i :: 0 <= i < |s.inFlight| && s.inFlight[i].workspace == w ==> s.inFlight[i].id < first)
    && (forall i :: 0 <= i < |s.events| && s.events[i].workspace == w ==> s.events[i].writer < first)
  }

  lemma ClosedStep(s: State, step: Step, w: string, first: nat)
    requires Closed(s, w) && NothingSince(s, w, first)
    ensures Closed(Apply(s, step), w) && NothingSince(Apply(s, step), w, first)
  {
  }

  lemma {:induction false} ClosedRun(s: State, steps: seq<Step>, w: string, first: nat)
    requires Closed(s, w) && NothingSince(s, w, first)
    ensures Closed(Run(s, steps), w) && NothingSince(Run(s, steps), w, first)
    decreases |steps|
  {
    if steps != [] {
      ClosedStep(s, steps[0], w, first);
      ClosedRun(Apply(s, steps[0]), steps[1..], w, first);
    }
  }

  /** Once a workspace is marked for deletion, whatever happens afterwards, every usage row it ever gets comes from a
      request that had passed its workspace check before. */
  lemma NoUsageAfterDeletion(s: State, steps: seq<Step>, w: string)
    requires Numbered(s)
    ensures var d := Apply(s, Delete(w)); var t := Run(d, steps);
      && Closed(t, w)
      && forall i :: 0 <= i < |t.events| && t.events[i].workspace == w ==> t.events[i].writer < s.nextId
  {
    ClosedRun(Apply(s, Delete(w)), steps, w, s.nextId);
  }

  /** Deleting a workspace also drops its budget, so whatever a request that entered before asks for is then
      admitted and recorded, in every state and under every limit. */
  lemma DeletionLiftsTheLimit(s: State, w: string, tokens: Option<int>)
    requires w in s.status && s.status[w] == "active"
    ensures var n := |s.inFlight|;
      var t := Run(s, [Enter(w), Delete(w), DropBudgets(w)] + [FindBudget(n), Check(n, tokens), Record(n)]);
      t.month == s.month && MonthTotal(t.events, w, t.month) == MonthTotal(s.events, w, s.month) + Amount(tokens)
  {
    var n := |s.inFlight|;
    RunOfAppend(s, [Enter(w), Delete(w), DropBudgets(w)], [FindBudget(n), Check(n, tokens), Record(n)], Apply);
    RunOfThree(s, Enter(w), Delete(w), DropBudgets(w), Apply);
    var m := Run(s, [Enter(w), Delete(w), DropBudgets(w)]);
    assert m.inFlight[n] == Request(w, Entered, s.nextId) && w !in m.limits;
    Ungoverned(m, n, tokens);
  }

  /** A request that finds no budget records whatever it asked for. */
  lemma Ungoverned(m: State, n: nat, tokens: Option<int>)
    requires n < |m.inFlight| && m.inFlight[n].phase.Entered? && m.inFlight[n].workspace !in m.limits
    ensures var w, t := m.inFlight[n].workspace, Run(m, [FindBudget(n), Check(n, tokens), Record(n)]);
      t.month == m.month && MonthTotal(t.events, w, t.month) == MonthTotal(m.events, w, m.month) + Amount(tokens)
  {
    RunOfThree(m, FindBudget(n), Check(n, tokens), Record(n), Apply);
    var r := m.inFlight[n];
    var m1 := Apply(m, FindBudget(n));
    assert m1.inFlight[n] == r.(phase := Budgeted(None, m.month));
    var m2 := Apply(m1, Check(n, tokens));
    assert m2.inFlight[n] == r.(phase := Admitted(tokens));
    var t := Apply(m2, Record(n));
    assert t.events[..|t.events| - 1] == m.events;
  }
}
