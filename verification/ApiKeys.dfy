/** API keys of a workspace: a create counts the unrevoked keys first and inserts its row later, while other creates,
    revocations and workspace deletions run in between. */
module ApiKeys {
  import opened Text
  import opened Lists
  import opened Gate
  import opened Runs

  datatype Key = Key(workspace: string, revokedAt: Option<nat>)

  /** The key rows, and for each workspace how many creates have passed the count and not yet inserted. */
  datatype State = State(keys: seq<Key>, creating: multiset<string>)

  datatype Step =
    | Count(workspace: string, max: Option<nat>)       // max: the plan's key limit at this time
    | Create(workspace: string)
    | Fail(workspace: string)
    | Revoke(workspace: string, at: nat, time: nat)
    | RevokeAll(workspace: string, time: nat)          // part of deleting the workspace

  function Unrevoked(keys: seq<Key>, w: string): nat {
    if keys == [] then 0
    else Unrevoked(keys[..|keys| - 1], w) + if Live(keys[|keys| - 1], w) then 1 else 0
  }

  predicate Live(k: Key, w: string) { k.workspace == w && k.revokedAt.None? }

  /** Revoking all touches only rows not yet revoked. */
  function Revoked(keys: seq<Key>, w: string, time: nat): seq<Key> {
    seq(|keys|, i requires 0 <= i < |keys| => if Live(keys[i], w) then keys[i].(revokedAt := Some(time)) else keys[i])
  }

  /** One step; a step that does not apply changes nothing. */
  function Apply(s: State, step: Step): State {
    match step
    case Count(w, max) =>
      if max.Some? && Unrevoked(s.keys, w) >= max.value then s else s.(creating := s.creating + multiset{w})
    case Create(w) =>
      if w in s.creating then State(s.keys + [Key(w, None)], s.creating - multiset{w}) else s
    case Fail(w) => s.(creating := s.creating - multiset{w})
    case Revoke(w, at, time) =>
      if at < |s.keys| && s.keys[at].workspace == w then
        s.(keys := s.keys[at := s.keys[at].(revokedAt := Some(time))])
      else s
    case RevokeAll(w, time) => s.(keys := Revoked(s.keys, w, time))
  }

  function Run(s: State, steps: seq<Step>): State { RunOf(s, steps, Apply) }

  function LoadOf(s: State, w: string): Load {
    Load(Unrevoked(s.keys, w), s.creating[w], s.creating[w])
  }

  // ---------- The bound ----------

  /** Rows that die or change owner do not raise the count. */
  lemma {:induction false} FewerLive(a: seq<Key>, b: seq<Key>, w: string)
    requires |a| == |b| && forall i :: 0 <= i < |a| && Live(b[i], w) ==> Live(a[i], w)
    ensures Unrevoked(b, w) <= Unrevoked(a, w)
  {
    if a != [] { FewerLive(a[..|a| - 1], b[..|b| - 1], w); }
  }

  lemma StepMoves(s: State, step: Step, w: string, max: nat, room: nat)
    requires step.Count? && step.workspace == w ==> step.max == Some(max)
    requires Apply(s, step).creating[w] <= room
    ensures Moves(LoadOf(s, w), LoadOf(Apply(s, step), w), max, room)
  {
    var t := Apply(s, step);
    match step {
      case Count(v, _) =>
        if t != s && v == w { assert Admits(LoadOf(s, w), LoadOf(t, w), 1, max, room); }
      case Create(v) =>
        if t != s { assert t.keys[..|t.keys| - 1] == s.keys; }
      case Fail(_) =>
      case Revoke(_, _, _) => FewerLive(s.keys, t.keys, w);
      case RevokeAll(_, _) => FewerLive(s.keys, t.keys, w);
    }
  }

  /** The plan of `w` is fixed, and at most `room` of its creates are between count and insert at any time. */
  ghost predicate Orderly(s: State, steps: seq<Step>, w: string, max: nat, room: nat)
    decreases |steps|
  {
    && s.creating[w] <= room
    && (steps != [] ==>
      && (steps[0].Count? && steps[0].workspace == w ==> steps[0].max == Some(max))
      && Orderly(Apply(s, steps[0]), steps[1..], w, max, room))
  }

  lemma {:induction false} KeysBound(s: State, steps: seq<Step>, w: string, max: nat, room: nat)
    requires Orderly(s, steps, w, max, room) && Unrevoked(s.keys, w) + s.creating[w] <= max + room - 1
    ensures Unrevoked(Run(s, steps).keys, w) <= max + room - 1
    decreases |steps|
  {
    if steps != [] {
      StepMoves(s, steps[0], w, max, room);
      GateStep(LoadOf(s, w), LoadOf(Apply(s, steps[0]), w), max, room, 1);
      KeysBound(Apply(s, steps[0]), steps[1..], w, max, room);
    }
  }

  /** One create at a time: the plan's limit itself. */
  lemma SerialKeysBound(s: State, steps: seq<Step>, w: string, max: nat)
    requires Orderly(s, steps, w, max, 1) && s.creating[w] == 0 && Unrevoked(s.keys, w) <= max
    ensures Unrevoked(Run(s, steps).keys, w) <= max
  {
    KeysBound(s, steps, w, max, 1);
  }

  // ---------- The bound is reached ----------

  lemma {:induction false} CountsAdmit(s: State, n: nat, w: string, max: nat)
    requires Unrevoked(s.keys, w) < max
    ensures Run(s, Repeat(n, Count(w, Some(max)))) == s.(creating := s.creating[w := s.creating[w] + n])
    decreases n
  {
    if n > 0 {
      var c := Count(w, Some(max));
      RepeatFirst(s, n, c, Apply);
      CountsAdmit(Apply(s, c), n - 1, w, max);
    }
  }

  lemma {:induction false} CreatesAdd(s: State, n: nat, w: string)
    requires s.creating[w] >= n
    ensures Unrevoked(Run(s, Repeat(n, Create(w))).keys, w) == Unrevoked(s.keys, w) + n
    decreases n
  {
    if n > 0 {
      RepeatFirst(s, n, Create(w), Apply);
      var t := Apply(s, Create(w));
      assert t.keys[..|t.keys| - 1] == s.keys;
      CreatesAdd(t, n - 1, w);
    }
  }

  /** From any state one key short of the limit, `room` overlapping creates end exactly on the bound. */
  lemma KeysReached(s: State, w: string, max: nat, room: nat)
    requires Unrevoked(s.keys, w) + 1 == max && s.creating[w] == 0
    ensures Unrevoked(Run(s, Repeat(room, Count(w, Some(max))) + Repeat(room, Create(w))).keys, w) == max + room - 1
  {
    RunOfAppend(s, Repeat(room, Count(w, Some(max))), Repeat(room, Create(w)), Apply);
    CountsAdmit(s, room, w, max);
    CreatesAdd(Run(s, Repeat(room, Count(w, Some(max)))), room, w);
  }

  // ---------- Revocation ----------

  /** No step brings a revoked key back, moves it to another workspace or removes its row. */
  lemma {:induction false} RevokedForGood(s: State, steps: seq<Step>, k: nat)
    requires k < |s.keys|
    ensures var t := Run(s, steps);
      && k < |t.keys| && t.keys[k].workspace == s.keys[k].workspace
      && (s.keys[k].revokedAt.Some? ==> t.keys[k].revokedAt.Some?)
    decreases |steps|
  {
    if steps != [] { RevokedForGood(Apply(s, steps[0]), steps[1..], k); }
  }

  lemma {:induction false} LiveWithout(keys: seq<Key>, at: nat, k: Key, w: string)
    requires at < |keys|
    ensures Unrevoked(keys[at := k], w) ==
      Unrevoked(keys, w) - (if Live(keys[at], w) then 1 else 0) + if Live(k, w) then 1 else 0
    decreases |keys|
  {
    var front := keys[..|keys| - 1];
    if at < |keys| - 1 {
      assert keys[at := k][..|keys| - 1] == front[at := k];
      LiveWithout(front, at, k, w);
    } else {
      assert keys[at := k][..|keys| - 1] == front;
    }
  }

  /** Revoking a key of the workspace revokes that key at that time and touches no other row, and one key fewer counts
      exactly when it had not been revoked before. A key of another workspace, or none, is left alone. */
  lemma RevokeMeaning(s: State, w: string, at: nat, time: nat)
    ensures var t := Apply(s, Revoke(w, at, time));
      && t.creating == s.creating && |t.keys| == |s.keys|
      && (forall i :: 0 <= i < |s.keys| && i != at ==> t.keys[i] == s.keys[i])
      && if at < |s.keys| && s.keys[at].workspace == w then
           && t.keys[at] == Key(w, Some(time))
           && Unrevoked(t.keys, w) == Unrevoked(s.keys, w) - if s.keys[at].revokedAt.None? then 1 else 0
         else t.keys == s.keys
  {
    if at < |s.keys| && s.keys[at].workspace == w { LiveWithout(s.keys, at, Key(w, Some(time)), w); }
  }

  /** A create passes the count exactly when the plan has no limit or fewer keys than it allows are live. */
  lemma CountMeaning(s: State, w: string, max: Option<nat>, v: string)
    ensures var t := Apply(s, Count(w, max));
      && t.keys == s.keys
      && t.creating[v] == s.creating[v] + if v == w && (max.None? || Unrevoked(s.keys, w) < max.value) then 1 else 0
  {
  }

  /** Every create that passed adds one live key to its own workspace, unless it fails; no other workspace notices. */
  lemma CreateMeaning(s: State, w: string, v: string)
    ensures var n, t := if v == w && s.creating[w] > 0 then 1 else 0, Apply(s, Create(w));
      Unrevoked(t.keys, v) == Unrevoked(s.keys, v) + n && t.creating[v] == s.creating[v] - n && s.keys <= t.keys
    ensures var n, t := if v == w && s.creating[w] > 0 then 1 else 0, Apply(s, Fail(w));
      t.keys == s.keys && t.creating[v] == s.creating[v] - n
  {
    assert (s.keys + [Key(w, None)])[..|s.keys|] == s.keys;
  }

  /** The keys that count are exactly the unrevoked ones of the workspace. */
  lemma {:induction false} UnrevokedMeaning(keys: seq<Key>, w: string)
    ensures Unrevoked(keys, w) == Tally(keys, (k: Key) => k.workspace == w && k.revokedAt.None?)
  {
    var p := (k: Key) => k.workspace == w && k.revokedAt.None?;
    if keys != [] {
      var front, last := keys[..|keys| - 1], keys[|keys| - 1];
      UnrevokedMeaning(front, w);
      assert keys == front + [last];
      TallyAppend(front, [last], p);
      TallyOne(last, p);
    }
  }

  /** Deleting a workspace revokes its live keys at that time; keys revoked before keep their time. */
  lemma RevokeAllMeaning(s: State, w: string, time: nat, i: nat)
    requires i < |s.keys|
    ensures var t := Apply(s, RevokeAll(w, time));
      && |t.keys| == |s.keys| && t.creating == s.creating
      && t.keys[i] == if s.keys[i].workspace == w && s.keys[i].revokedAt.None? then Key(w, Some(time)) else s.keys[i]
  {
  }

  /** Deleting a workspace leaves it with no unrevoked key at that moment. */
  lemma NoneLeft(s: State, w: string, time: nat)
    ensures Unrevoked(Apply(s, RevokeAll(w, time)).keys, w) == 0
    ensures forall v :: v != w ==> Unrevoked(Apply(s, RevokeAll(w, time)).keys, v) == Unrevoked(s.keys, v)
  {
    var t := Revoked(s.keys, w, time);
    NoLive(t, w);
    forall v | v != w ensures Unrevoked(t, v) == Unrevoked(s.keys, v) {
      FewerLive(s.keys, t, v);
      FewerLive(t, s.keys, v);
    }
  }

  lemma {:induction false} NoLive(keys: seq<Key>, w: string)
    requires forall i :: 0 <= i < |keys| ==> !Live(keys[i], w)
    ensures Unrevoked(keys, w) == 0
  {
    if keys != [] { NoLive(keys[..|keys| - 1], w); }
  }
}
