/** Bringing payment intents and subscriptions in line with the payment providers, applied or only counted. */
module Reconcile {
  import opened Text

  // ---------- What the providers say ----------

  /** The answer for one intent: its status, no answer (skip it), or an error that ends the run. */
  datatype Answer = Status(status: string) | Skip | Abort

  /** A provider, as a function of an intent's reference and present status. */
  type Provider = (string, string) -> Answer

  datatype Session = Session(paymentStatus: string, status: string)   // an empty string stands for a missing field

  function StripeNext(session: Session, present: string): string {
    if session.paymentStatus == "paid" then "paid"
    else if session.status == "complete" then "complete"
    else if session.paymentStatus != "" then session.paymentStatus
    else if session.status != "" then session.status
    else present
  }

  function Stripe(sessions: map<string, Session>): Provider {
    (reference, present) => if reference in sessions then Status(StripeNext(sessions[reference], present)) else Abort
  }

  function Or(a: string, b: string): string { if a != "" then a else b }

  function PayPalNext(status: string, present: string, lower: string -> string): string {
    var s := lower(Or(status, present));
    if s == "completed" then "captured" else s
  }

  function PayPal(orders: map<string, string>, lower: string -> string): Provider {
    (reference, present) => if reference in orders then Status(PayPalNext(orders[reference], present, lower)) else Skip
  }

  /** The status on the last entry of a charge's timeline. */
  function LastStatus(timeline: seq<string>): string {
    if timeline == [] then "" else timeline[|timeline| - 1]
  }

  function Coinbase(charges: map<string, seq<string>>, lower: string -> string): Provider {
    (reference, present) =>
      if reference in charges then Status(lower(Or(LastStatus(charges[reference]), present))) else Skip
  }

  /** Asked again with its own answer as the present status, the provider answers the same. */
  ghost predicate Steady(p: Provider) {
    forall r, s :: p(r, s).Status? ==> p(r, p(r, s).status) == p(r, s)
  }

  /** What the status mappings need of lower-casing. */
  ghost predicate Lowers(lower: string -> string) {
    (forall s :: lower(lower(s)) == lower(s)) && lower("captured") == "captured" && lower("") == ""
  }

  lemma StripeSteady(sessions: map<string, Session>)
    ensures Steady(Stripe(sessions))
  {
  }

  lemma PayPalSteady(orders: map<string, string>, lower: string -> string)
    requires Lowers(lower)
    ensures Steady(PayPal(orders, lower))
  {
    forall r, s | PayPal(orders, lower)(r, s).Status?
      ensures PayPal(orders, lower)(r, PayPal(orders, lower)(r, s).status) == PayPal(orders, lower)(r, s)
    {
      PayPalTwice(orders[r], s, lower);
    }
  }

  lemma PayPalTwice(status: string, present: string, lower: string -> string)
    requires Lowers(lower)
    ensures PayPalNext(status, PayPalNext(status, present, lower), lower) == PayPalNext(status, present, lower)
  {
    assert lower(lower(Or(status, present))) == lower(Or(status, present));
  }

  lemma CoinbaseSteady(charges: map<string, seq<string>>, lower: string -> string)
    requires Lowers(lower)
    ensures Steady(Coinbase(charges, lower))
  {
    forall r, s | Coinbase(charges, lower)(r, s).Status?
      ensures Coinbase(charges, lower)(r, Coinbase(charges, lower)(r, s).status) == Coinbase(charges, lower)(r, s)
    {
      LowerTwice(LastStatus(charges[r]), s, lower);
    }
  }

  lemma LowerTwice(status: string, present: string, lower: string -> string)
    requires Lowers(lower)
    ensures lower(Or(status, lower(Or(status, present)))) == lower(Or(status, present))
  {
    assert lower(lower(Or(status, present))) == lower(Or(status, present));
  }

  // ---------- Intents ----------

  datatype Intent = Intent(id: nat, reference: string, status: string)

  /** The intent as the provider has it. */
  function Settle(intent: Intent, p: Provider): Intent {
    if intent.reference == "" then intent
    else match p(intent.reference, intent.status)
      case Status(s) => intent.(status := s)
      case _ => intent
  }

  predicate Ends(intent: Intent, p: Provider) {
    intent.reference != "" && p(intent.reference, intent.status).Abort?
  }

  /** What a Stripe session is stored as: paid, else complete, else whichever status it gives first, else what there
      was. A session that cannot be found ends the run. */
  lemma StripeStored(intent: Intent, sessions: map<string, Session>)
    requires intent.reference != ""
    ensures var next := Settle(intent, Stripe(sessions));
      && next.id == intent.id && next.reference == intent.reference
      && (Ends(intent, Stripe(sessions)) <==> intent.reference !in sessions)
      && (intent.reference in sessions ==>
            var s := sessions[intent.reference];
            && (s.paymentStatus == "paid" ==> next.status == "paid")
            && (s.paymentStatus != "paid" && s.status == "complete" ==> next.status == "complete")
            && (s.paymentStatus != "paid" && s.status != "complete" ==>
                  && (s.paymentStatus != "" ==> next.status == s.paymentStatus)
                  && (s.paymentStatus == "" && s.status != "" ==> next.status == s.status)
                  && (s.paymentStatus == "" && s.status == "" ==> next.status == intent.status)))
  {
  }

  /** What a PayPal order is stored as: its status in lower case, completed ones as captured, and where it has none or
      there is no order, what there was. */
  lemma PayPalStored(intent: Intent, orders: map<string, string>, lower: string -> string)
    requires intent.reference != ""
    ensures var next := Settle(intent, PayPal(orders, lower));
      && next.id == intent.id && next.reference == intent.reference && !Ends(intent, PayPal(orders, lower))
      && (intent.reference !in orders ==> next == intent)
      && (intent.reference in orders ==>
            var given := if orders[intent.reference] != "" then orders[intent.reference] else intent.status;
            next.status == if lower(given) == "completed" then "captured" else lower(given))
  {
  }

  /** What a Coinbase charge is stored as: the last status of its timeline in lower case. */
  lemma CoinbaseStored(intent: Intent, charges: map<string, seq<string>>, lower: string -> string)
    requires intent.reference != ""
    ensures var next := Settle(intent, Coinbase(charges, lower));
      && next.id == intent.id && next.reference == intent.reference && !Ends(intent, Coinbase(charges, lower))
      && (intent.reference !in charges ==> next == intent)
      && (intent.reference in charges ==>
            var timeline := charges[intent.reference];
            next.status == lower(if timeline == [] || timeline[|timeline| - 1] == "" then intent.status
                                 else timeline[|timeline| - 1]))
  {
    var next := Settle(intent, Coinbase(charges, lower));
    if intent.reference in charges {
      assert Coinbase(charges, lower)(intent.reference, intent.status) ==
        Status(lower(Or(LastStatus(charges[intent.reference]), intent.status)));
    }
  }

  /** An intent without a reference is not looked up. */
  lemma UnreferencedStays(intent: Intent, p: Provider)
    requires intent.reference == ""
    ensures Settle(intent, p) == intent && !Ends(intent, p)
  {
  }

  /** The first rows settled, the others as they were. */
  function SettleFirst(rows: seq<Intent>, n: nat, p: Provider): seq<Intent> {
    seq(|rows|, i requires 0 <= i < |rows| => if i < n then Settle(rows[i], p) else rows[i])
  }

  function Due(rows: seq<Intent>, n: nat, p: Provider): nat
    requires n <= |rows|
  {
    if n == 0 then 0 else Due(rows, n - 1, p) + if Settle(rows[n - 1], p) != rows[n - 1] then 1 else 0
  }

  /** How far a run gets: to its limit, or to the first intent whose lookup ends it. */
  function Reach(rows: seq<Intent>, take: nat, p: Provider): (n: nat)
    ensures n <= |rows|
  {
    if rows == [] || take == 0 || Ends(rows[0], p) then 0 else 1 + Reach(rows[1..], take - 1, p)
  }

  lemma {:induction false} ReachIs(rows: seq<Intent>, take: nat, p: Provider, n: nat)
    requires n <= |rows| && n <= take && forall i :: 0 <= i < n ==> !Ends(rows[i], p)
    requires n == |rows| || n == take || Ends(rows[n], p)
    ensures Reach(rows, take, p) == n
  {
    if n > 0 { ReachIs(rows[1..], take - 1, p, n - 1); }
  }

  class Intents {
    var rows: seq<Intent>   // newest first

    constructor (rows: seq<Intent>)
      ensures this.rows == rows
    {
      this.rows := rows;
    }

    /** Looks up the newest `take` intents; a changed status is counted and, if changes are to be applied, stored. */
    method Run(p: Provider, take: nat, apply: bool) returns (updated: nat, complete: bool)
      modifies this
      ensures var n := Reach(old(rows), take, p);
        && updated == Due(old(rows), n, p)
        && rows == (if apply then SettleFirst(old(rows), n, p) else old(rows))
        && (complete <==> n == |old(rows)| || n == take)
    {
      var intents := rows;
      updated := 0;
      var i := 0;
      while i < |intents| && i < take
        invariant i <= |intents| && i <= take
        invariant updated == Due(intents, i, p)
        invariant rows == if apply then SettleFirst(intents, i, p) else intents
        invariant forall k :: 0 <= k < i ==> !Ends(intents[k], p)
      {
        var intent := intents[i];
        if intent.reference != "" {
          var answer := p(intent.reference, intent.status);
          if answer.Abort? {
            ReachIs(intents, take, p, i);
            return updated, false;
          }
          if answer.Status? && answer.status != intent.status {
            if apply {
              rows := rows[i := intent.(status := answer.status)];
            }
            updated := updated + 1;
          }
        }
        i := i + 1;
      }
      ReachIs(intents, take, p, i);
      return updated, true;
    }
  }

  lemma SettledIsNotDue(intent: Intent, p: Provider)
    requires Steady(p)
    ensures Settle(Settle(intent, p), p) == Settle(intent, p)
  {
  }

  /** After an applied run over the first rows, none of them is due. */
  lemma {:induction false} NoneDue(rows: seq<Intent>, n: nat, k: nat, p: Provider)
    requires Steady(p) && k <= n <= |rows|
    ensures Due(SettleFirst(rows, n, p), k, p) == 0
  {
    if k > 0 {
      NoneDue(rows, n, k - 1, p);
      SettledIsNotDue(rows[k - 1], p);
    }
  }

  /** A provider ends a run because of the reference, whatever the status. */
  ghost predicate EndsByReference(p: Provider) {
    forall r, s, t :: p(r, s).Abort? ==> p(r, t).Abort?
  }

  /** The next run gets exactly as far, finds nothing to update and leaves the rows as they are, even when lookups ended
      the first run early. */
  lemma IntentFixpoint(rows: seq<Intent>, take: nat, p: Provider)
    requires Steady(p) && EndsByReference(p)
    ensures var n := Reach(rows, take, p); var t := SettleFirst(rows, n, p);
      Reach(t, take, p) == n && Due(t, n, p) == 0 && SettleFirst(t, n, p) == t
  {
    var n := Reach(rows, take, p);
    var t := SettleFirst(rows, n, p);
    ReachMeaning(rows, take, p);
    forall i | 0 <= i < n ensures !Ends(t[i], p) && Settle(t[i], p) == t[i] {
      SettledIsNotDue(rows[i], p);
    }
    ReachIs(t, take, p, n);
    NoneDue(rows, n, n, p);
  }

  lemma {:induction false} ReachMeaning(rows: seq<Intent>, take: nat, p: Provider)
    ensures var n := Reach(rows, take, p);
      && n <= take
      && (forall i :: 0 <= i < n ==> !Ends(rows[i], p))
      && (n == |rows| || n == take || Ends(rows[n], p))
  {
    if rows != [] && take > 0 && !Ends(rows[0], p) { ReachMeaning(rows[1..], take - 1, p); }
  }

  const STRIPE_TAKE := 500
  const PAYPAL_TAKE := 300
  const COINBASE_TAKE := 300

  /** What an applied run leaves needs no further update. */
  ghost predicate AtRest(rows: seq<Intent>, take: nat, p: Provider) {
    var t := SettleFirst(rows, Reach(rows, take, p), p);
    var n := Reach(t, take, p);
    Due(t, n, p) == 0 && SettleFirst(t, n, p) == t
  }

  lemma StripeFixpoint(rows: seq<Intent>, sessions: map<string, Session>)
    ensures AtRest(rows, 500, Stripe(sessions))
  {
    StripeSteady(sessions);
    IntentFixpoint(rows, STRIPE_TAKE, Stripe(sessions));
  }

  lemma PayPalFixpoint(rows: seq<Intent>, orders: map<string, string>, lower: string -> string)
    requires Lowers(lower)
    ensures AtRest(rows, 300, PayPal(orders, lower))
  {
    PayPalSteady(orders, lower);
    IntentFixpoint(rows, PAYPAL_TAKE, PayPal(orders, lower));
  }

  lemma CoinbaseFixpoint(rows: seq<Intent>, charges: map<string, seq<string>>, lower: string -> string)
    requires Lowers(lower)
    ensures AtRest(rows, 300, Coinbase(charges, lower))
  {
    CoinbaseSteady(charges, lower);
    IntentFixpoint(rows, COINBASE_TAKE, Coinbase(charges, lower));
  }

  lemma AsciiLowers()
    ensures Lowers(Lower)
  {
    forall s ensures Lower(Lower(s)) == Lower(s) { }
    assert Lower("captured") == "captured";
  }

  // ---------- Subscriptions ----------

  /** A subscription in a customer's list, with the user the customer belongs to. */
  datatype Listed = Listed(id: string, status: string, periodEnd: Option<int>, userId: string)

  datatype Row = Row(userId: string, status: string, periodEnd: Option<int>)

  predicate Needs(table: map<string, Row>, l: Listed) {
    l.id !in table || table[l.id].status != l.status || table[l.id].periodEnd != l.periodEnd
  }

  /** A missing row is created; an existing one keeps its user. */
  function Store(table: map<string, Row>, l: Listed): map<string, Row> {
    if l.id !in table then table[l.id := Row(l.userId, l.status, l.periodEnd)]
    else table[l.id := table[l.id].(status := l.status, periodEnd := l.periodEnd)]
  }

  function StoreAll(table: map<string, Row>, ls: seq<Listed>): map<string, Row>
    decreases |ls|
  {
    if ls == [] then table else StoreAll(if Needs(table, ls[0]) then Store(table, ls[0]) else table, ls[1..])
  }

  /** Updates counted while they are applied. */
  function Applied(table: map<string, Row>, ls: seq<Listed>): nat
    decreases |ls|
  {
    if ls == [] then 0
    else if Needs(table, ls[0]) then 1 + Applied(Store(table, ls[0]), ls[1..])
    else Applied(table, ls[1..])
  }

  /** Updates counted while nothing is applied. */
  function Counted(table: map<string, Row>, ls: seq<Listed>): nat {
    if ls == [] then 0 else Counted(table, ls[1..]) + if Needs(table, ls[0]) then 1 else 0
  }

  class Subscriptions {
    var table: map<string, Row>

    constructor (table: map<string, Row>)
      ensures this.table == table
    {
      this.table := table;
    }

    method Run(ls: seq<Listed>, apply: bool) returns (updated: nat)
      modifies this
      ensures table == if apply then StoreAll(old(table), ls) else old(table)
      ensures updated == if apply then Applied(old(table), ls) else Counted(old(table), ls)
    {
      updated := 0;
      var i := 0;
      while i < |ls|
        invariant i <= |ls|
        invariant apply ==> StoreAll(table, ls[i..]) == StoreAll(old(table), ls)
        invariant apply ==> updated + Applied(table, ls[i..]) == Applied(old(table), ls)
        invariant !apply ==> table == old(table) && updated + Counted(table, ls[i..]) == Counted(table, ls)
      {
        assert ls[i..][1..] == ls[i + 1..];
        if Needs(table, ls[i]) {
          if apply { table := Store(table, ls[i]); }
          updated := updated + 1;
        }
        i := i + 1;
      }
    }
  }

  /** The provider gives a subscription one state, wherever it lists it. */
  ghost predicate Consistent(ls: seq<Listed>) {
    forall i, j :: 0 <= i < |ls| && 0 <= j < |ls| && ls[i].id == ls[j].id ==>
      ls[i].status == ls[j].status && ls[i].periodEnd == ls[j].periodEnd
  }

  function Next(table: map<string, Row>, l: Listed): map<string, Row> {
    if Needs(table, l) then Store(table, l) else table
  }

  /** What is up to date stays so while a consistent list is stored. */
  lemma {:induction false} StaysSettled(table: map<string, Row>, ls: seq<Listed>, l: Listed)
    requires Consistent([l] + ls) && !Needs(table, l)
    ensures !Needs(StoreAll(table, ls), l)
    decreases |ls|
  {
    if ls != [] {
      assert ([l] + ls)[0] == l && ([l] + ls)[1] == ls[0];
      assert Consistent([l] + ls[1..]) by { DropSecond(l, ls); }
      StaysSettled(Next(table, ls[0]), ls[1..], l);
    }
  }

  lemma DropSecond(l: Listed, ls: seq<Listed>)
    requires ls != [] && Consistent([l] + ls)
    ensures Consistent([l] + ls[1..])
  {
    var a, b := [l] + ls, [l] + ls[1..];
    forall i, j | 0 <= i < |b| && 0 <= j < |b| && b[i].id == b[j].id
      ensures b[i].status == b[j].status && b[i].periodEnd == b[j].periodEnd
    {
      assert b[i] == a[if i == 0 then 0 else i + 1] && b[j] == a[if j == 0 then 0 else j + 1];
    }
  }

  /** Every listed subscription is up to date after an applied run. */
  lemma {:induction false} StoredIsSettled(table: map<string, Row>, ls: seq<Listed>, i: nat)
    requires Consistent(ls) && i < |ls|
    ensures !Needs(StoreAll(table, ls), ls[i])
    decreases |ls|
  {
    assert ls == [ls[0]] + ls[1..];
    if i == 0 {
      StaysSettled(Next(table, ls[0]), ls[1..], ls[0]);
    } else {
      StoredIsSettled(Next(table, ls[0]), ls[1..], i - 1);
    }
  }

  /** After an applied run every listed subscription has the state it is listed with... */
  lemma ListedIsStored(table: map<string, Row>, ls: seq<Listed>, i: nat)
    requires Consistent(ls) && i < |ls|
    ensures var t := StoreAll(table, ls);
      ls[i].id in t && t[ls[i].id].status == ls[i].status && t[ls[i].id].periodEnd == ls[i].periodEnd
  {
    StoredIsSettled(table, ls, i);
  }

  /** ...rows that were there keep their users... */
  lemma {:induction false} UsersKept(table: map<string, Row>, ls: seq<Listed>, id: string)
    requires id in table
    ensures id in StoreAll(table, ls) && StoreAll(table, ls)[id].userId == table[id].userId
    decreases |ls|
  {
    if ls != [] { UsersKept(Next(table, ls[0]), ls[1..], id); }
  }

  /** ...those not listed stay as they were... */
  lemma {:induction false} UnlistedKept(table: map<string, Row>, ls: seq<Listed>, id: string)
    requires forall i :: 0 <= i < |ls| ==> ls[i].id != id
    ensures var t := StoreAll(table, ls); (id in t <==> id in table) && (id in table ==> t[id] == table[id])
    decreases |ls|
  {
    if ls != [] { UnlistedKept(Next(table, ls[0]), ls[1..], id); }
  }

  /** ...and a new row belongs to the user it is first listed for. */
  lemma {:induction false} FirstListedUser(table: map<string, Row>, ls: seq<Listed>, i: nat)
    requires i < |ls| && ls[i].id !in table && forall j :: 0 <= j < i ==> ls[j].id != ls[i].id
    ensures ls[i].id in StoreAll(table, ls) && StoreAll(table, ls)[ls[i].id].userId == ls[i].userId
    decreases |ls|
  {
    if i == 0 {
      UsersKept(Next(table, ls[0]), ls[1..], ls[0].id);
    } else {
      assert ls[0].id != ls[i].id;
      FirstListedUser(Next(table, ls[0]), ls[1..], i - 1);
    }
  }

  lemma {:induction false} NoneNeeded(table: map<string, Row>, ls: seq<Listed>)
    requires forall i :: 0 <= i < |ls| ==> !Needs(table, ls[i])
    ensures Applied(table, ls) == Counted(table, ls) == 0 && StoreAll(table, ls) == table
    decreases |ls|
  {
    if ls != [] { NoneNeeded(table, ls[1..]); }
  }

  /** With the provider unchanged, the run after an applied run reports nothing and changes nothing. */
  lemma SubscriptionFixpoint(table: map<string, Row>, ls: seq<Listed>)
    requires Consistent(ls)
    ensures var t := StoreAll(table, ls); Applied(t, ls) == Counted(t, ls) == 0 && StoreAll(t, ls) == t
  {
    var t := StoreAll(table, ls);
    forall i | 0 <= i < |ls| ensures !Needs(t, ls[i]) { StoredIsSettled(table, ls, i); }
    NoneNeeded(t, ls);
  }

  // ---------- Counting without applying ----------

  function Occurrences(ls: seq<Listed>, id: string): nat {
    if ls == [] then 0 else Occurrences(ls[1..], id) + if ls[0].id == id then 1 else 0
  }

  /** No subscription that needs an update is listed twice. */
  ghost predicate Unrepeated(table: map<string, Row>, ls: seq<Listed>) {
    forall i, j :: 0 <= i < j < |ls| && Needs(table, ls[i]) ==> ls[i].id != ls[j].id
  }

  lemma {:induction false} StoredOnce(table: map<string, Row>, l: Listed, ls: seq<Listed>)
    requires Consistent([l] + ls) && Needs(table, l)
    ensures Counted(table, ls) == Counted(Store(table, l), ls) + Occurrences(ls, l.id)
  {
    if ls != [] {
      assert ([l] + ls)[0] == l && ([l] + ls)[1] == ls[0];
      DropSecond(l, ls);
      StoredOnce(table, l, ls[1..]);
    }
  }

  lemma {:induction false} OccursMeaning(ls: seq<Listed>, id: string)
    ensures Occurrences(ls, id) == 0 <==> forall j :: 0 <= j < |ls| ==> ls[j].id != id
  {
    if ls != [] {
      OccursMeaning(ls[1..], id);
      assert forall j :: 0 < j < |ls| ==> ls[j] == ls[1..][j - 1];
    }
  }

  /** Storing one entry settles it and leaves entries about other subscriptions as they were. */
  lemma NeedsNext(table: map<string, Row>, l: Listed, ls: seq<Listed>, k: nat)
    requires Consistent([l] + ls) && k < |ls|
    ensures Needs(Next(table, l), ls[k]) <==> Needs(table, ls[k]) && ls[k].id != l.id
  {
    assert ([l] + ls)[0] == l && ([l] + ls)[k + 1] == ls[k];
  }

  lemma UnrepeatedTail(table: map<string, Row>, l: Listed, ls: seq<Listed>)
    requires Consistent([l] + ls) && Unrepeated(table, [l] + ls)
    ensures (Needs(table, l) ==> Occurrences(ls, l.id) == 0) && Unrepeated(Next(table, l), ls)
  {
    var all := [l] + ls;
    OccursMeaning(ls, l.id);
    forall j | 0 <= j < |ls| && Needs(table, l) ensures ls[j].id != l.id { assert all[0] == l && all[j + 1] == ls[j]; }
    forall i, j | 0 <= i < j < |ls| && Needs(Next(table, l), ls[i]) ensures ls[i].id != ls[j].id {
      NeedsNext(table, l, ls, i);
      assert all[i + 1] == ls[i] && all[j + 1] == ls[j];
    }
  }

  lemma UnrepeatedCons(table: map<string, Row>, l: Listed, ls: seq<Listed>)
    requires Consistent([l] + ls) && (Needs(table, l) ==> Occurrences(ls, l.id) == 0) && Unrepeated(Next(table, l), ls)
    ensures Unrepeated(table, [l] + ls)
  {
    var all := [l] + ls;
    OccursMeaning(ls, l.id);
    forall i, j | 0 <= i < j < |all| && Needs(table, all[i]) ensures all[i].id != all[j].id {
      assert all[j] == ls[j - 1];
      if i > 0 {
        assert all[i] == ls[i - 1];
        NeedsNext(table, l, ls, i - 1);
        NeedsNext(table, l, ls, j - 1);
        assert ([l] + ls)[0] == l;
      }
    }
  }

  /** Counting reports at least as many updates as applying makes, and exactly as many when and only when no
      subscription that needs one is listed twice. */
  lemma {:induction false} CountedAgainstApplied(table: map<string, Row>, ls: seq<Listed>)
    requires Consistent(ls)
    ensures Applied(table, ls) <= Counted(table, ls)
    ensures Applied(table, ls) == Counted(table, ls) <==> Unrepeated(table, ls)
    decreases |ls|
  {
    if ls != [] {
      assert ls == [ls[0]] + ls[1..];
      CountedAgainstApplied(Next(table, ls[0]), ls[1..]);
      if Needs(table, ls[0]) { StoredOnce(table, ls[0], ls[1..]); }
      if Unrepeated(table, ls) { UnrepeatedTail(table, ls[0], ls[1..]); }
      if Applied(table, ls) == Counted(table, ls) { UnrepeatedCons(table, ls[0], ls[1..]); }
    }
  }
}
