/** Any number of callers, one lock, two pipes and a child, in every interleaving of their steps. */
module BridgeProtocol {
  import opened Text
  import opened Framing
  import opened Bridge

  /** How far the caller that holds the lock has come. */
  datatype Stage = Locked | HeaderWritten | RequestWritten

  datatype Holder = Holder(caller: nat, request: Bytes, stage: Stage)

  /** What the child answered, in order, and what callers got, in order. */
  datatype Exchange = Exchange(caller: Option<nat>, request: Bytes, reply: Bytes)
  datatype Completed = Completed(caller: nat, request: Bytes, outcome: Outcome)

  datatype State = State(
    lock: Option<Holder>,
    stdin: Bytes,       // written by callers, not yet taken by the child
    leaving: Bytes,     // produced by the child, not yet in its output pipe
    stdout: Bytes,      // in the child's output pipe
    writers: seq<nat>,  // whose requests are complete in stdin, in order
    log: seq<Exchange>,
    completed: seq<Completed>)

  const INITIAL := State(None, [], [], [], [], [], [])

  datatype Step =
    | Acquire(caller: nat, request: Bytes)   // a waiting caller takes the free lock
    | WriteHeader
    | WriteBody
    | Answer(wire: Wire)                     // the child takes one whole request and frames its reply
    | Flush(count: nat)                      // some of the child's bytes reach the pipe
    | Finish                                 // the holder reads one message and releases the lock

  ghost predicate Enabled(s: State, step: Step) {
    match step
    case Acquire(_, _) => s.lock.None?
    case WriteHeader => s.lock.Some? && s.lock.value.stage == Locked
    case WriteBody => s.lock.Some? && s.lock.value.stage == HeaderWritten
    case Answer(wire) => wire.Valid() && Available(s.stdin).Some?
    case Flush(count) => count <= |s.leaving|
    case Finish => s.lock.Some? && s.lock.value.stage == RequestWritten && Available(s.stdout).Some?
  }

  ghost function Next(s: State, step: Step): State
    requires Enabled(s, step)
  {
    match step
    case Acquire(caller, request) => s.(lock := Some(Holder(caller, request, Locked)))
    case WriteHeader =>
      var h := s.lock.value;
      s.(lock := Some(h.(stage := HeaderWritten)), stdin := s.stdin + Header(h.request))
    case WriteBody =>
      var h := s.lock.value;
      s.(lock := Some(h.(stage := RequestWritten)), stdin := s.stdin + h.request, writers := s.writers + [h.caller])
    case Answer(wire) =>
      var a := Available(s.stdin).value;
      var writer := if s.writers == [] then None else Some(s.writers[0]);
      s.(stdin := a.1, leaving := s.leaving + wire.Bytes(), log := s.log + [Exchange(writer, a.0, wire.body)],
         writers := if s.writers == [] then [] else s.writers[1..])
    case Flush(count) =>
      s.(leaving := s.leaving[count..], stdout := s.stdout + s.leaving[..count])
    case Finish =>
      var a, h := Available(s.stdout).value, s.lock.value;
      s.(lock := None, stdout := a.1,
         completed := s.completed + [Completed(h.caller, h.request, OutcomeOf(Message(a.0, a.1)))])
  }

  /** A run is any sequence of steps that are enabled when taken. */
  ghost predicate IsRun(states: seq<State>, steps: seq<Step>) {
    && |states| == |steps| + 1 && states[0] == INITIAL
    && forall i :: 0 <= i < |steps| ==> Enabled(states[i], steps[i]) && states[i + 1] == Next(states[i], steps[i])
  }

  /** The i-th completed call got the reply to the i-th request the child took, which is its own. */
  ghost predicate Answered(c: Completed, e: Exchange) {
    && e.caller == Some(c.caller) && c.request == e.request
    && c.outcome == if e.reply == [] then NoResponse else Reply(e.reply)
  }

  ghost predicate Paired(completed: seq<Completed>, log: seq<Exchange>) {
    |completed| == |log| && forall i :: 0 <= i < |log| ==> Answered(completed[i], log[i])
  }

  ghost predicate Quiet(s: State) {
    s.stdin == [] && s.leaving == [] && s.stdout == [] && s.writers == []
  }

  /** The reply to the holder's request is on its way, and nothing else is. */
  ghost predicate ReplyOnItsWay(s: State, wire: Wire) {
    && wire.Valid() && s.lock.Some? && s.stdin == [] && s.writers == [] && s.stdout + s.leaving == wire.Bytes()
    && |s.log| > 0 && Paired(s.completed, s.log[..|s.log| - 1])
    && s.log[|s.log| - 1] == Exchange(Some(s.lock.value.caller), s.lock.value.request, wire.body)
  }

  ghost predicate Inv(s: State) {
    if s.lock.None? then Quiet(s) && Paired(s.completed, s.log)
    else
      var h := s.lock.value;
      match h.stage
      case Locked => Quiet(s) && Paired(s.completed, s.log)
      case HeaderWritten => Waiting(s, Header(h.request), [])
      case RequestWritten => Waiting(s, Frame(h.request), [h.caller]) || exists wire :: ReplyOnItsWay(s, wire)
  }

  /** The child has this much in front of it and has answered everything before. */
  ghost predicate Waiting(s: State, stdin: Bytes, writers: seq<nat>) {
    s.stdin == stdin && s.writers == writers && s.leaving == [] && s.stdout == [] && Paired(s.completed, s.log)
  }

  // ---------- Every step keeps the invariant ----------

  lemma FrameAvailable(body: Bytes)
    ensures Available(Frame(body)) == Some((body, []))
  {
    var w := FrameIsWire(body);
    ReadWire(w, []);
    assert w.Bytes() + [] == Frame(body);
  }

  lemma NothingAvailable()
    ensures Available([]).None?
  {
  }

  /** Half a request is not taken by the child. */
  lemma HeaderWaits(body: Bytes)
    requires body != []
    ensures Available(Header(body)).None?
  {
    FrameAvailable(body);
    PrefixWaits(Frame(body), Header(body));
  }

  lemma AnswerKeeps(s: State, wire: Wire)
    requires Inv(s) && Enabled(s, Answer(wire))
    requires s.lock.Some? ==> s.lock.value.request != []
    ensures Inv(Next(s, Answer(wire)))
  {
    NothingAvailable();
    assert s.lock.Some?;
    var h := s.lock.value;
    HeaderWaits(h.request);
    assert h.stage == RequestWritten && s.stdin == Frame(h.request);
    FrameAvailable(h.request);
    var t := Next(s, Answer(wire));
    assert t.stdout + t.leaving == wire.Bytes();
    assert t.log[..|t.log| - 1] == s.log;
    assert ReplyOnItsWay(t, wire);
  }

  lemma FlushKeeps(s: State, count: nat)
    requires Inv(s) && Enabled(s, Flush(count))
    ensures Inv(Next(s, Flush(count)))
  {
    var t := Next(s, Flush(count));
    assert t.stdout + t.leaving == s.stdout + s.leaving;
    if && s.lock.Some? && s.lock.value.stage == RequestWritten
       && !Waiting(s, Frame(s.lock.value.request), [s.lock.value.caller]) {
      var wire :| ReplyOnItsWay(s, wire);
      assert ReplyOnItsWay(t, wire);
    }
  }

  /** When a message can be read, the whole reply has arrived. */
  lemma WholeReply(s: State, wire: Wire)
    requires ReplyOnItsWay(s, wire) && Available(s.stdout).Some?
    ensures s.stdout == wire.Bytes() && s.leaving == [] && Available(s.stdout) == Some((wire.body, []))
  {
    ReadWire(wire, []);
    assert wire.Bytes() + [] == wire.Bytes();
    assert s.stdout <= wire.Bytes();
    if s.stdout != wire.Bytes() { PrefixWaits(wire.Bytes(), s.stdout); }
  }

  lemma PairedMore(completed: seq<Completed>, log: seq<Exchange>, c: Completed)
    requires |log| > 0 && Paired(completed, log[..|log| - 1]) && Answered(c, log[|log| - 1])
    ensures Paired(completed + [c], log)
  {
    forall i | 0 <= i < |log| ensures Answered((completed + [c])[i], log[i]) {
      if i < |log| - 1 { assert log[..|log| - 1][i] == log[i]; }
    }
  }

  lemma FinishKeeps(s: State, wire: Wire)
    requires ReplyOnItsWay(s, wire) && Enabled(s, Finish)
    ensures Inv(Next(s, Finish))
  {
    WholeReply(s, wire);
    var h := s.lock.value;
    PairedMore(s.completed, s.log, Completed(h.caller, h.request, OutcomeOf(Message(wire.body, []))));
  }

  /** Requests are JSON texts, which are never empty. */
  ghost predicate Speaks(step: Step) {
    step.Acquire? ==> step.request != []
  }

  ghost predicate Safe(s: State) {
    Inv(s) && (s.lock.Some? ==> s.lock.value.request != [])
  }

  lemma StepKeeps(s: State, step: Step)
    requires Safe(s) && Enabled(s, step) && Speaks(step)
    ensures Safe(Next(s, step))
  {
    match step
    case Acquire(_, _) =>
    case WriteHeader =>
    case WriteBody =>
    case Answer(wire) => AnswerKeeps(s, wire);
    case Flush(count) => FlushKeeps(s, count);
    case Finish =>
      NothingAvailable();
      var wire :| ReplyOnItsWay(s, wire);
      FinishKeeps(s, wire);
  }

  lemma {:induction false} RunSafe(states: seq<State>, steps: seq<Step>, i: nat)
    requires IsRun(states, steps) && i < |states| && forall k :: 0 <= k < |steps| ==> Speaks(steps[k])
    ensures Safe(states[i])
  {
    if i > 0 {
      RunSafe(states, steps, i - 1);
      StepKeeps(states[i - 1], steps[i - 1]);
    }
  }

  /** In every run, at every moment: each completed call got the reply to its own request, completions come in the
      order the child answered, at most one answer is outstanding, and a free lock means empty pipes. */
  lemma CallersGetTheirOwnReplies(states: seq<State>, steps: seq<Step>, i: nat)
    requires IsRun(states, steps) && i < |states| && forall k :: 0 <= k < |steps| ==> Speaks(steps[k])
    ensures var s := states[i];
      && |s.completed| <= |s.log| <= |s.completed| + 1
      && (forall k :: 0 <= k < |s.completed| ==> Answered(s.completed[k], s.log[k]))
      && (s.lock.None? ==> Quiet(s) && |s.log| == |s.completed|)
  {
    RunSafe(states, steps, i);
    var s := states[i];
    if s.lock.Some? && s.lock.value.stage == RequestWritten && !Paired(s.completed, s.log) {
      var wire :| ReplyOnItsWay(s, wire);
      forall k | 0 <= k < |s.completed| ensures Answered(s.completed[k], s.log[k]) {
        assert s.log[..|s.log| - 1][k] == s.log[k];
      }
    }
  }

  /** The holder never waits in vain: once the child has answered and its bytes are flushed, the call can finish. */
  lemma AnsweredCallsFinish(states: seq<State>, steps: seq<Step>, i: nat)
    requires IsRun(states, steps) && i < |states| && forall k :: 0 <= k < |steps| ==> Speaks(steps[k])
    ensures var s := states[i];
      s.lock.Some? && s.lock.value.stage == RequestWritten ==>
        (if s.stdin != [] then Available(s.stdin) == Some((s.lock.value.request, []))
         else Enabled(s, Flush(|s.leaving|)) && Enabled(Next(s, Flush(|s.leaving|)), Finish))
  {
    RunSafe(states, steps, i);
    var s := states[i];
    if s.lock.Some? && s.lock.value.stage == RequestWritten {
      FrameAvailable(s.lock.value.request);
      if s.stdin == [] {
        var wire :| ReplyOnItsWay(s, wire);
        ReadWire(wire, []);
        assert wire.Bytes() + [] == wire.Bytes();
        assert s.stdout + s.leaving[..|s.leaving|] == wire.Bytes();
      }
    }
  }

  /** Once the lock is free a call writes its request without waiting for anyone... */
  lemma RequestIsWritten(s: State, caller: nat, request: Bytes)
    requires Inv(s) && s.lock.None?
    ensures Enabled(s, Acquire(caller, request))
    ensures var a := Next(s, Acquire(caller, request));
      Enabled(a, WriteHeader) &&
      var b := Next(a, WriteHeader);
      Enabled(b, WriteBody) &&
      Next(b, WriteBody) == s.(lock := Some(Holder(caller, request, RequestWritten)), stdin := Frame(request),
                               writers := [caller])
  {
    assert [] + Header(request) + request == Frame(request);
  }

  /** ...and the child can answer it with any frame. */
  lemma RequestIsAnswered(s: State, caller: nat, request: Bytes, wire: Wire)
    requires s.stdin == Frame(request) && s.writers == [caller] && s.leaving == [] && wire.Valid()
    ensures Enabled(s, Answer(wire))
    ensures Next(s, Answer(wire)) == s.(stdin := [], writers := [], leaving := wire.Bytes(),
                                        log := s.log + [Exchange(Some(caller), request, wire.body)])
  {
    FrameAvailable(request);
    assert [] + wire.Bytes() == wire.Bytes();
  }

  /** The answer may reach the pipe in any two pieces... */
  lemma AnswerIsFlushed(s: State, bytes: Bytes, k: nat)
    requires k <= |bytes| && s.stdout == [] && s.leaving == bytes
    ensures Enabled(s, Flush(k))
    ensures var a := Next(s, Flush(k));
      Enabled(a, Flush(|bytes| - k)) && Next(a, Flush(|bytes| - k)) == s.(leaving := [], stdout := bytes)
  {
    assert bytes[..k] + bytes[k..] == bytes && bytes[k..][..|bytes| - k] == bytes[k..];
  }

  /** ...and once it is there the call finishes with it, and leaves the pipe empty. */
  lemma AnswerIsRead(s: State, caller: nat, request: Bytes, wire: Wire)
    requires wire.Valid() && s.stdout == wire.Bytes() && s.lock == Some(Holder(caller, request, RequestWritten))
    ensures Enabled(s, Finish)
    ensures Next(s, Finish) == s.(lock := None, stdout := [],
      completed := s.completed + [Completed(caller, request, if wire.body == [] then NoResponse else Reply(wire.body))])
  {
    ReadWire(wire, []);
    assert wire.Bytes() + [] == wire.Bytes();
  }
}
