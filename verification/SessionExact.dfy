/** What a session call does, exactly: what it writes when it returns, when an attempt is retried, and each step
    of an attempt case by case. */
module SessionExact {
  import opened Bytes
  import opened Session
  import opened SessionSafety

  // ---------------------------------------------------------------- the log after the point of no return

  function FollowUps(n: nat): seq<Io> {
    seq(n, _ => FollowUp)
  }

  /** The operation's control write, or the hook in its place. */
  function Own(call: Call): Io {
    if call.hook then HookStart else ControlWrite
  }

  /** A whole handshake, this one actuation, and `n` further control writes. */
  ghost predicate Acted(log: seq<Io>, io: Io, n: nat) {
    n < |log| && log[|log| - n..] == FollowUps(n) && log[|log| - n - 1] == io && Authenticated(log[..|log| - n - 1])
  }

  /** ... and then the first `m` unsubscriptions. */
  ghost predicate GaveUp(log: seq<Io>, m: nat, io: Io, n: nat) {
    EndsWithUnsubscriptions(log, m) && Acted(log[..|log| - m], io, n)
  }

  /** ... of which at least as many as there were requests, if the call is to return. */
  ghost predicate GaveUpAfter(t: Task, m: nat, outcome: Outcome) {
    exists n: nat :: GaveUp(t.log, m, Own(t.call), n) && (outcome == Returned && !t.call.hook ==> n >= t.call.requests)
  }

  ghost predicate ActedOk(t: Task) {
    && (t.actuated ==>
          match t.pc
          case InHook => t.call.hook && exists n: nat :: Acted(t.log, HookStart, n)
          case Actuating => !t.call.hook && Acted(t.log, ControlWrite, 0)
          case AwaitingReply => !t.call.hook && Acted(t.log, ControlWrite, 0)
          case Reading(k) => !t.call.hook && Acted(t.log, ControlWrite, k + 1)
          case Listening => !t.call.hook && exists n: nat :: n >= t.call.requests && Acted(t.log, ControlWrite, n)
          case Cleaning(k, outcome) => GaveUpAfter(t, k + 1, outcome)
          case Finished(outcome) =>
            exists m: nat :: GaveUpAfter(t, m, outcome) && (outcome == Returned ==> m == CHANNELS)
          case _ => false)
    && (t.pc.Cleaning? && t.pc.outcome == Returned ==> t.actuated)
    && (t.pc == Finished(Returned) ==> t.actuated)
  }

  /** A failure with code 108 before the actuation is only final the second time. */
  predicate RetryOk(t: Task) {
    t.pc == Finished(Raised(Code108)) && t.call.manager.Some? && t.tried && !t.actuated ==> t.attempt == 1
  }

  lemma ActedStarts(log: seq<Io>, io: Io)
    requires Authenticated(log)
    ensures Acted(log + [io], io, 0)
  {
    hide Authenticated;
    assert (log + [io])[..|log|] == log && (log + [io])[|log| + 1..] == FollowUps(0);
  }

  lemma ActedMore(log: seq<Io>, io: Io, n: nat)
    requires Acted(log, io, n)
    ensures Acted(log + [FollowUp], io, n + 1)
  {
    hide Authenticated;
    var more := log + [FollowUp];
    assert more[..|more| - (n + 1) - 1] == log[..|log| - n - 1];
    assert more[|more| - (n + 1)..] == log[|log| - n..] + [FollowUp];
  }

  lemma GaveUpFirst(log: seq<Io>, io: Io, n: nat)
    requires Acted(log, io, n)
    ensures GaveUp(log + [Unsubscribe(0)], 1, io, n)
  {
    hide Acted;
    assert log[|log| - 0..] == Unsubscriptions(0);
    UnsubscribedMore(log, 0);
    assert (log + [Unsubscribe(0)])[..|log|] == log;
  }

  lemma GaveUpMore(log: seq<Io>, m: nat, io: Io, n: nat)
    requires GaveUp(log, m, io, n)
    ensures GaveUp(log + [Unsubscribe(m)], m + 1, io, n)
  {
    hide Acted;
    UnsubscribedMore(log, m);
    var more := log + [Unsubscribe(m)];
    assert more[..|more| - (m + 1)] == log[..|log| - m];
  }

  lemma ExitActed(t: Task, outcome: Outcome, n: nat)
    requires t.actuated && Acted(t.log, Own(t.call), n)
    requires outcome == Returned && !t.call.hook ==> n >= t.call.requests
    ensures ActedOk(Exit(t, outcome))
  {
    hide Acted, GaveUp;
    GaveUpFirst(t.log, Own(t.call), n);
  }

  lemma NextReadActed(t: Task, request: nat)
    requires t.actuated && !t.call.hook && Acted(t.log, ControlWrite, request)
    ensures ActedOk(NextRead(t, request))
  {
    hide Acted;
    ActedMore(t.log, ControlWrite, request);
  }

  /** Where an attempt is past the point of no return, the log shows it. */
  lemma LateLog(t: Task) returns (n: nat)
    requires Late(t.pc) && t.actuated && ActedOk(t)
    ensures Acted(t.log, Own(t.call), n) && (t.pc.Listening? ==> n >= t.call.requests)
  {
    hide Acted;
    n := 0;
    if t.pc.InHook? {
      n :| Acted(t.log, HookStart, n);
    } else if t.pc.Listening? {
      n :| n >= t.call.requests && Acted(t.log, ControlWrite, n);
    } else if t.pc.Reading? {
      n := t.pc.request + 1;
    }
  }

  lemma LateSteps(t: Task, r: Reply)
    requires Late(t.pc) && t.actuated && ActedOk(t) && Fits(t.pc, r)
    ensures ActedOk(Proceed(t, r))
  {
    hide Acted, Exit, NextRead;
    var n := LateLog(t);
    match r
    case Fails(e) => ExitActed(t, Raised(e), n);
    case More => ActedMore(t.log, Own(t.call), n);
    case Done(_) =>
      match t.pc {
        case AwaitingReply => NextReadActed(t, 0);
        case Reading(k) => NextReadActed(t.(out := t.out + [k]), k + 1);
        case Actuating =>
        case _ => ExitActed(t, Returned, n);
      }
  }

  lemma AckActs(t: Task, kind: nat, bodyLength: nat, ready: bool)
    requires t.pc == ReadingAck && At(t.pc, t.log) && !t.actuated
    ensures ActedOk(Ack(t, kind, bodyLength, ready))
  {
    hide Authenticated, Acted, Proving;
    if kind == 7 && ready {
      var c: nat :| c >= 1 && Proving(t.log, c, c);
      HandshakeDone(t.log, c, Got(kind, bodyLength));
      ActedStarts(t.log + [Got(kind, bodyLength)], Own(t.call));
    }
  }

  /** Before the point of no return nothing of this can hold, or need to. */
  lemma EarlySteps(t: Task, r: Reply)
    requires Early(t.pc) && !t.actuated && !t.pc.ReadingAck? && Fits(t.pc, r) && Leaves(t, r) == None
    ensures ActedOk(Proceed(t, r))
  {}

  lemma ProceedActed(t: Task, r: Reply)
    requires TaskInv(t) && Inside(t.pc) && ActedOk(t) && Fits(t.pc, r) && Leaves(t, r) == None
    ensures ActedOk(Proceed(t, r))
  {
    hide Sound, SubscribedFirst, AttemptsOk, LoginsOk, OutOk, Tidied, Acted, GaveUp, At, Ack, Authenticated;
    match t.pc
    case Cleaning(k, outcome) =>
      if t.actuated {
        var n: nat :| GaveUp(t.log, k + 1, Own(t.call), n)
                      && (outcome == Returned && !t.call.hook ==> n >= t.call.requests);
        GaveUpMore(t.log, k + 1, Own(t.call), n);
      }
    case ReadingAck =>
      if r.Message? {
        AckActs(t, r.kind, r.bodyLength, r.ready);
      }
    case _ =>
      if Late(t.pc) {
        LateSteps(t, r);
      } else {
        EarlySteps(t, r);
      }
  }

  // ---------------------------------------------------------------- in every reachable state

  ghost predicate Exact(t: Task) {
    ActedOk(t) && RetryOk(t)
  }

  lemma EnterExact(w: World, i: nat, t: Task)
    requires i < |w.tasks| && TaskInv(t) && (t.pc.New? || t.pc.LoggingIn?)
    ensures Exact(Enter(w, i, t).tasks[i])
  {
    hide Sound, SubscribedFirst, AttemptsOk, LoginsOk, Tidied, At, Acted, GaveUp;
  }

  /** Leaving the body: with `m` channels tried, the log is what it was. */
  lemma LeaveActed(t: Task, r: Reply)
    requires TaskInv(t) && ActedOk(t) && Leaves(t, r).Some? && Fits(t.pc, r)
    ensures ActedOk(t.(pc := Finished(Leaves(t, r).value)))
  {
    hide Sound, SubscribedFirst, AttemptsOk, LoginsOk, OutOk, Tidied, Waiting, HasKey, Proving, Acted, GaveUp;
    if t.pc.Cleaning? && t.actuated {
      var n: nat :| GaveUp(t.log, t.pc.which + 1, Own(t.call), n)
                    && (t.pc.outcome == Returned && !t.call.hook ==> n >= t.call.requests);
      var u := t.(pc := Finished(Leaves(t, r).value));
      assert GaveUpAfter(u, t.pc.which + 1, u.pc.outcome);
    }
  }

  lemma LeaveExact(w: World, i: nat, t: Task, r: Reply)
    requires i < |w.tasks| && TaskInv(t) && ActedOk(t) && Leaves(t, r).Some? && Fits(t.pc, r)
    ensures Exact(Leave(w, i, t, Leaves(t, r).value).tasks[i])
  {
    hide ActedOk, Leaves, Sound, SubscribedFirst, OutOk, Tidied, InsideOk;
    LeaveActed(t, r);
    var outcome := Leaves(t, r).value;
    if CanRetry(t, outcome) {
      RetryExact(w.(busy := w.busy[t.call.device := false]), t, outcome);
    }
  }

  lemma RetryExact(w: World, t: Task, outcome: Outcome)
    requires CanRetry(t, outcome)
    ensures Exact(Login(w, Second(t, outcome), true))
  {}

  lemma StepExact(w: World, i: nat, r: Reply)
    requires TasksOk(w) && Can(w, Resume(i, r)) && Exact(w.tasks[i])
    ensures |Act(w, Resume(i, r)).tasks| == |w.tasks| && Exact(Act(w, Resume(i, r)).tasks[i])
  {
    hide TaskInv, ActedOk, Enter, Leave, Proceed, Leaves;
    var t := w.tasks[i];
    OthersSame(w, i, r, i);
    if t.pc.New? {
      if t.call.manager.Some? {
        OutsideExact(w, t);
      } else {
        EnterExact(w, i, t);
      }
    } else if t.pc.LoggingIn? {
      if r.Fails? {
        LoginFailed(t, r.error);
      } else {
        EnterExact(w.(cached := w.cached + if t.call.manager.Some? then {t.call.manager.value} else {}), i, t);
      }
    } else if Leaves(t, r).Some? {
      LeaveExact(w, i, t, r);
    } else {
      StaysInside(t, r);
      ProceedActed(t, r);
    }
  }

  lemma OutsideExact(w: World, t: Task)
    requires TaskInv(t) && t.pc.New?
    ensures Exact(Login(w, t, false))
  {
    hide Sound, SubscribedFirst, AttemptsOk, LoginsOk, Tidied, At;
  }

  lemma LoginFailed(t: Task, e: Error)
    requires TaskInv(t) && t.pc.LoggingIn?
    ensures Exact(t.(pc := Finished(Raised(e))))
  {
    hide Sound, SubscribedFirst, AttemptsOk, Tidied, At;
  }

  ghost predicate AllExact(w: World) {
    forall i | 0 <= i < |w.tasks| :: Exact(w.tasks[i])
  }

  lemma ActExact(w: World, a: Action)
    requires TasksOk(w) && AllExact(w) && Can(w, a)
    ensures AllExact(Act(w, a))
  {
    hide TasksOk, Exact, Enter, Leave, Login, Proceed, Leaves;
    match a
    case Spawn(call) =>
      NewExact(call);
    case Cache(manager) =>
    case Resume(i, r) =>
      StepExact(w, i, r);
      forall j | 0 <= j < |Act(w, a).tasks| ensures Exact(Act(w, a).tasks[j]) {
        OthersSame(w, i, r, j);
      }
  }

  lemma NewExact(call: Call)
    ensures Exact(NewTask(call))
  {}

  lemma {:induction false} AlwaysExact(actions: seq<Action>)
    requires CanAll(actions)
    ensures AllExact(After(actions))
  {
    hide Act, Can, AllExact, TasksOk;
    if actions == [] {
      NoneExact();
    } else {
      var front := actions[..|actions| - 1];
      AlwaysExact(front);
      Reachable(front);
      ActExact(After(front), actions[|actions| - 1]);
    }
  }

  lemma NoneExact()
    ensures AllExact(EMPTY)
  {}

  // ---------------------------------------------------------------- what one call does

  /** Where in the log the actuation is. */
  lemma FindAct(t: Task) returns (q: nat)
    requires TaskInv(t) && Exact(t) && t.actuated
    ensures q < |t.log| && t.log[q] == Own(t.call)
  {
    hide Sound, SubscribedFirst, AttemptsOk, LoginsOk, OutOk, Tidied, At, Acted, GaveUp;
    hide GaveUpAfter;
    if t.pc.Cleaning? {
      q := PlaceOf(t, t.pc.which + 1, t.pc.outcome);
    } else if t.pc.Finished? {
      var m: nat :| GaveUpAfter(t, m, t.pc.outcome);
      q := PlaceOf(t, m, t.pc.outcome);
    } else {
      var n := LateLog(t);
      q := PlaceIn(t.log, Own(t.call), n);
    }
  }

  lemma PlaceIn(log: seq<Io>, io: Io, n: nat) returns (q: nat)
    requires Acted(log, io, n)
    ensures q < |log| && log[q] == io
  {
    hide Authenticated;
    q := |log| - n - 1;
  }

  lemma PlaceOf(t: Task, m: nat, outcome: Outcome) returns (q: nat)
    requires GaveUpAfter(t, m, outcome)
    ensures q < |t.log| && t.log[q] == Own(t.call)
  {
    hide Acted;
    var n: nat :| GaveUp(t.log, m, Own(t.call), n) && (outcome == Returned && !t.call.hook ==> n >= t.call.requests);
    q := PlaceIn(t.log[..|t.log| - m], Own(t.call), n);
  }

  lemma OnlyOwn(t: Task)
    requires TaskInv(t) && Exact(t)
    ensures forall p | 0 <= p < |t.log| ::
              (t.log[p].ControlWrite? ==> !t.call.hook) && (t.log[p].HookStart? ==> t.call.hook)
    ensures !t.actuated <==> forall p | 0 <= p < |t.log| :: !t.log[p].ControlWrite? && !t.log[p].HookStart?
  {
    hide Exact, Authenticated, SubscribedFirst, AttemptsOk, LoginsOk, OutOk, Tidied, At;
    if t.actuated {
      var q := FindAct(t);
      assert IsActuation(t.log[q]);
      forall p | 0 <= p < |t.log| && p != q ensures !IsActuation(t.log[p]) {}
    }
  }

  /** A call never does to the lock what is not its own: with a hook it writes no operation, and without one it
      starts no hook, over both attempts. */
  lemma ActuatesItsOwn(actions: seq<Action>, i: nat)
    requires CanAll(actions) && i < |After(actions).tasks|
    ensures var t := After(actions).tasks[i];
            var all := t.past + t.log;
            forall p | 0 <= p < |all| :: (all[p].ControlWrite? ==> !t.call.hook) && (all[p].HookStart? ==> t.call.hook)
  {
    hide CanAll, After, Exact;
    Reachable(actions);
    AlwaysExact(actions);
    var t := After(actions).tasks[i];
    OnlyOwn(t);
    hide Sound, SubscribedFirst, LoginsOk, OutOk, Tidied, InsideOk;
    forall p | 0 <= p < |t.past| ensures !IsActuation(t.past[p]) {}
  }

  /** All that a call that returns did in its last attempt, in order: a whole handshake, its own actuation and no
      other, its follow-ups and whatever the listen window or the hook wrote, and the four unsubscriptions. */
  lemma ReturnedLog(actions: seq<Action>, i: nat) returns (handshake: seq<Io>, n: nat)
    requires CanAll(actions) && i < |After(actions).tasks| && After(actions).tasks[i].pc == Finished(Returned)
    ensures var t := After(actions).tasks[i];
            && Authenticated(handshake)
            && t.log == handshake + [if t.call.hook then HookStart else ControlWrite] + FollowUps(n)
                        + [Unsubscribe(0), Unsubscribe(1), Unsubscribe(2), Unsubscribe(3)]
            && (!t.call.hook ==> n >= t.call.requests)
  {
    hide CanAll, After, TaskInv, GaveUp, Authenticated;
    AlwaysExact(actions);
    var t := After(actions).tasks[i];
    n :| GaveUp(t.log, CHANNELS, Own(t.call), n) && (!t.call.hook ==> n >= t.call.requests);
    handshake := WholeLog(t.log, Own(t.call), n);
  }

  lemma WholeLog(log: seq<Io>, io: Io, n: nat) returns (handshake: seq<Io>)
    requires GaveUp(log, CHANNELS, io, n)
    ensures Authenticated(handshake)
    ensures log == handshake + [io] + FollowUps(n) + [Unsubscribe(0), Unsubscribe(1), Unsubscribe(2), Unsubscribe(3)]
  {
    hide Authenticated, FollowUps, Unsubscriptions;
    var body := log[..|log| - CHANNELS];
    handshake := body[..|body| - n - 1];
    assert log == body + Unsubscriptions(CHANNELS);
    assert body == handshake + [io] + FollowUps(n);
    FourChannels();
  }

  lemma FourChannels()
    ensures Unsubscriptions(CHANNELS) == [Unsubscribe(0), Unsubscribe(1), Unsubscribe(2), Unsubscribe(3)]
  {}

  /** A call with a manager that got as far as the inner `try` ends with code 108 and nothing done to the lock only
      after a second attempt, behind a forced login. */
  lemma TriedTwice(actions: seq<Action>, i: nat)
    requires CanAll(actions) && i < |After(actions).tasks|
    requires var t := After(actions).tasks[i];
             && t.pc == Finished(Raised(Code108)) && t.call.manager.Some? && t.tried
             && forall p | 0 <= p < |t.log| :: !t.log[p].ControlWrite? && !t.log[p].HookStart?
    ensures After(actions).tasks[i].attempt == 1 && true in After(actions).tasks[i].logins
  {
    hide CanAll, After, ActedOk, Sound, SubscribedFirst, OutOk, Tidied, InsideOk;
    Reachable(actions);
    AlwaysExact(actions);
    var t := After(actions).tasks[i];
    OnlyOwn(t);
    assert t.logins[|t.logins| - 1] == true;
  }

  // ---------------------------------------------------------------- step by step

  /** An attempt is over when it is cancelled outside the inner `try`, or when the fourth unsubscription is. It is then
      retried, with a forced login and a new log, exactly when the call has a manager, this was its first attempt,
      the outcome is code 108, and nothing was done to the lock; otherwise the outcome is final. */
  lemma AttemptEnds(actions: seq<Action>, i: nat, r: Reply)
    requires CanAll(actions) && Can(After(actions), Resume(i, r)) && Inside(After(actions).tasks[i].pc)
    ensures var t, u := After(actions).tasks[i], Act(After(actions), Resume(i, r)).tasks[i];
            var cancelled := r == Fails(Cancelled) && (t.pc.Prelude? || t.pc.Subscribing? || t.pc.Cleaning?);
            var over := cancelled || (t.pc.Cleaning? && t.pc.which == 3);
            var outcome := if cancelled then Raised(Cancelled) else if over then t.pc.outcome else Returned;
            var again := t.call.manager.Some? && t.attempt == 0 && outcome == Raised(Code108)
                         && forall p | 0 <= p < |t.log| :: !t.log[p].ControlWrite? && !t.log[p].HookStart?;
            && (over <==> !Inside(u.pc)) && u.call == t.call
            && (over && again ==> u == t.(pc := LoggingIn(true), attempt := 1, first := Some(Raised(Code108)),
                                          logins := t.logins + [true], past := t.log, log := [], tried := false))
            && (over && !again ==> u == t.(pc := Finished(outcome)))
  {
    hide CanAll, After, Act;
    Reachable(actions);
    AlwaysExact(actions);
    var w := After(actions);
    OnlyOwn(w.tasks[i]);
    AttemptEndsAt(w, i, r);
  }

  lemma AttemptEndsAt(w: World, i: nat, r: Reply)
    requires TasksOk(w) && Can(w, Resume(i, r)) && Inside(w.tasks[i].pc)
    ensures var t, u := w.tasks[i], Act(w, Resume(i, r)).tasks[i];
            var cancelled := r == Fails(Cancelled) && (t.pc.Prelude? || t.pc.Subscribing? || t.pc.Cleaning?);
            var over := cancelled || (t.pc.Cleaning? && t.pc.which == 3);
            var outcome := if cancelled then Raised(Cancelled) else if over then t.pc.outcome else Returned;
            var again := t.call.manager.Some? && t.attempt == 0 && outcome == Raised(Code108) && !t.actuated;
            && (over <==> !Inside(u.pc)) && u.call == t.call
            && (over && again ==> u == t.(pc := LoggingIn(true), attempt := 1, first := Some(Raised(Code108)),
                                          logins := t.logins + [true], past := t.log, log := [], tried := false))
            && (over && !again ==> u == t.(pc := Finished(outcome)))
  {
    hide Proceed, Sound, SubscribedFirst, AttemptsOk, LoginsOk, OutOk, Tidied, Waiting, HasKey, Proving;
    var t := w.tasks[i];
    assert TaskInv(t);
    OthersSame(w, i, r, i);
    if Leaves(t, r) == None {
      hide TaskInv;
      StaysInside(t, r);
    }
  }

  /** The course of an attempt while it is not over: what follows each await. */
  function Next(t: Task, r: Reply): Pc {
    if r.Fails? && !t.pc.Prelude? && !t.pc.Subscribing? && !t.pc.Cleaning? then Cleaning(0, Raised(r.error))
    else if r.More? then t.pc
    else
      match t.pc
      case Prelude(k) => if k < 4 then Prelude(k + 1) else Subscribing(0)
      case Subscribing(k) =>
        if k < 3 then Subscribing(k + 1)
        else if t.call.key.Fetched? then FetchingKey
        else if t.call.key.fragments == 0 then Cleaning(0, Raised(Failure))
        else WritingKey(0, t.call.key.fragments)
      case FetchingKey => if r == Done(0) then Cleaning(0, Raised(Failure)) else WritingKey(0, Sized(r))
      case WritingKey(k, c) => if k + 1 < c then WritingKey(k + 1, c) else ReadingKey(0)
      case ReadingKey(seen) =>
        if r.Message? && r.kind == 6 && r.bodyLength >= 33 then FetchingMaterial
        else if seen == 5 then Cleaning(0, Raised(Failure))
        else ReadingKey(seen + 1)
      case FetchingMaterial => if r == Done(0) then Cleaning(0, Raised(Failure)) else WritingProof(0, Sized(r))
      case WritingProof(k, c) => if k + 1 < c then WritingProof(k + 1, c) else ReadingAck
      case ReadingAck =>
        if !r.Message? || r.kind != 7 || !r.ready then Cleaning(0, Raised(Failure))
        else if t.call.hook then InHook
        else Actuating
      case InHook => Cleaning(0, Returned)
      case Actuating => AwaitingReply
      case AwaitingReply => if t.call.requests > 0 then Reading(0) else Listening
      case Reading(k) => if k + 1 < t.call.requests then Reading(k + 1) else Listening
      case Listening => Cleaning(0, Returned)
      case Cleaning(k, outcome) => Cleaning(k + 1, outcome)
      case pc => pc
  }

  function Sized(r: Reply): nat {
    if r.Done? then r.fragments else 0
  }

  /** Every step inside the session body that does not end the attempt goes where this course says, so an attempt
      fails of itself only on a message that cannot be built, on six messages without the lock's key, or on a wrong
      answer to the proof. Only the reply to a follow-up operation adds an entry. */
  lemma FollowsTheCourse(actions: seq<Action>, i: nat, r: Reply)
    requires CanAll(actions) && Can(After(actions), Resume(i, r))
    requires Inside(After(actions).tasks[i].pc) && Inside(Act(After(actions), Resume(i, r)).tasks[i].pc)
    ensures var t, u := After(actions).tasks[i], Act(After(actions), Resume(i, r)).tasks[i];
            && u.pc == Next(t, r)
            && u.out == t.out + (if t.pc.Reading? && r.Done? then [t.pc.request] else [])
            && (r.More? ==> u.log == t.log + [FollowUp])
  {
    hide CanAll, After, Act, Next;
    Reachable(actions);
    CourseStep(After(actions), i, r);
  }

  lemma CourseStep(w: World, i: nat, r: Reply)
    requires TasksOk(w) && Can(w, Resume(i, r))
    requires Inside(w.tasks[i].pc) && Inside(Act(w, Resume(i, r)).tasks[i].pc)
    ensures var t, u := w.tasks[i], Act(w, Resume(i, r)).tasks[i];
            && u.pc == Next(t, r)
            && u.out == t.out + (if t.pc.Reading? && r.Done? then [t.pc.request] else [])
            && (r.More? ==> u.log == t.log + [FollowUp])
  {
    hide Proceed, TaskInv, Next, Leave, Fits;
    var t := w.tasks[i];
    assert TaskInv(t);
    OthersSame(w, i, r, i);
    if Leaves(t, r).Some? {
      LeaveFrame(w, i, t, Leaves(t, r).value);
    } else {
      hide Leaves;
      ProceedCourse(t, r);
    }
  }

  lemma ProceedCourse(t: Task, r: Reply)
    requires TaskInv(t) && Inside(t.pc) && Fits(t.pc, r) && Leaves(t, r) == None
    ensures var u := Proceed(t, r);
            && u.pc == Next(t, r)
            && u.out == t.out + (if t.pc.Reading? && r.Done? then [t.pc.request] else [])
            && (r.More? ==> u.log == t.log + [FollowUp])
  {
    hide Sound, SubscribedFirst, AttemptsOk, LoginsOk, OutOk, Tidied, Waiting, HasKey, Proving;
    if t.pc.Prelude? || t.pc.Subscribing? || t.pc.Cleaning? {
      hide InTry;
    } else {
      TryCourse(t, r);
    }
  }

  lemma TryCourse(t: Task, r: Reply)
    requires Inside(t.pc) && !t.pc.Prelude? && !t.pc.Subscribing? && !t.pc.Cleaning? && Fits(t.pc, r)
    requires t.pc.ReadingKey? ==> t.pc.seen < 6
    ensures var u := InTry(t, r);
            && u.pc == Next(t, r)
            && u.out == t.out + (if t.pc.Reading? && r.Done? then [t.pc.request] else [])
            && (r.More? ==> u.log == t.log + [FollowUp])
  {
    hide Completed, Heard, Next;
    match r
    case Done(n) => CompletedCourse(t, n);
    case Message(kind, n, ready) => HeardCourse(t, kind, n, ready);
    case Fails(e) => FailsCourse(t, e);
    case More => MoreCourse(t);
  }

  lemma CompletedCourse(t: Task, n: nat)
    requires Inside(t.pc) && !t.pc.Prelude? && !t.pc.Subscribing? && !t.pc.Cleaning? && Fits(t.pc, Done(n))
    ensures Completed(t, n).pc == Next(t, Done(n))
    ensures Completed(t, n).out == t.out + if t.pc.Reading? then [t.pc.request] else []
  {
    match t.pc
    case Reading(k) =>
    case AwaitingReply =>
    case _ => hide NextRead;
  }

  lemma HeardCourse(t: Task, kind: nat, bodyLength: nat, ready: bool)
    requires t.pc.ReadingAck? || (t.pc.ReadingKey? && t.pc.seen < 6)
    ensures var u := Heard(t, kind, bodyLength, ready);
            u.pc == Next(t, Message(kind, bodyLength, ready)) && u.out == t.out
  {}

  lemma FailsCourse(t: Task, e: Error)
    requires !t.pc.Prelude? && !t.pc.Subscribing? && !t.pc.Cleaning?
    ensures Exit(t, Raised(e)).pc == Next(t, Fails(e)) && Exit(t, Raised(e)).out == t.out
  {}

  lemma MoreCourse(t: Task)
    ensures Next(t, More) == t.pc
  {}

  // ---------------------------------------------------------------- before the session body

  /** `_login` runs before the first attempt exactly when the manager has no token; a login that succeeds leaves one. */
  lemma LoginExactly(actions: seq<Action>, i: nat, r: Reply)
    requires CanAll(actions) && Can(After(actions), Resume(i, r)) && After(actions).tasks[i].call.manager.Some?
    ensures var w, w2 := After(actions), Act(After(actions), Resume(i, r));
            var t, u, m := w.tasks[i], w2.tasks[i], w.tasks[i].call.manager.value;
            && (t.pc.New? ==> u.pc == LoggingIn(false) && u.logins == (if m in w.cached then [] else [false]))
            && (t.pc.LoggingIn? && !r.Fails? ==> w2.cached == w.cached + {m} && u.logins == t.logins)
            && (t.pc.LoggingIn? && r.Fails? ==> w2.cached == w.cached && u.pc == Finished(Raised(r.error)))
  {
    hide CanAll, After, Proceed, Leaves;
    Reachable(actions);
    NothingLoggedIn(After(actions).tasks[i]);
  }

  lemma NothingLoggedIn(t: Task)
    requires TaskInv(t)
    ensures t.pc.New? ==> t.logins == []
  {
    hide Sound, SubscribedFirst, AttemptsOk, OutOk, Tidied, InsideOk;
  }

  /** A caller that is ready for the session body is turned away exactly when another one is in it for the same
      device; otherwise it enters in the same step. */
  lemma EntersUnlessBusy(actions: seq<Action>, i: nat, r: Reply)
    requires CanAll(actions) && Can(After(actions), Resume(i, r))
    requires var t := After(actions).tasks[i]; (t.pc.New? && t.call.manager.None?) || (t.pc.LoggingIn? && !r.Fails?)
    ensures var w, u := After(actions), Act(After(actions), Resume(i, r)).tasks[i];
            var other := exists j :: InBody(w, j) && w.tasks[j].call.device == u.call.device;
            && u.call == w.tasks[i].call
            && u.pc == if other then Finished(Raised(InProgress)) else Prelude(0)
  {
    hide CanAll, After, Act, Inside, TaskInv;
    Reachable(actions);
    MutualExclusion(actions);
    EnterStep(After(actions), i, r);
    var w := After(actions);
    if j :| InBody(w, j) && w.tasks[j].call.device == w.tasks[i].call.device {
      assert Busy(w, w.tasks[j].call.device);
    }
  }

  lemma EnterStep(w: World, i: nat, r: Reply)
    requires Can(w, Resume(i, r))
    requires var t := w.tasks[i]; (t.pc.New? && t.call.manager.None?) || (t.pc.LoggingIn? && !r.Fails?)
    ensures var u := Act(w, Resume(i, r)).tasks[i];
            u.call == w.tasks[i].call
            && u.pc == if Busy(w, w.tasks[i].call.device) then Finished(Raised(InProgress)) else Prelude(0)
  {}
}
