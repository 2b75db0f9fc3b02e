/** What every interleaving of every run of the session machine keeps. */
module SessionSafety {
  import opened Bytes
  import opened Session

  // ---------------------------------------------------------------- the handshake, as a grammar of logs

  function Subscriptions(n: nat): seq<Io> {
    seq(n, k requires 0 <= k < n => Subscribe(k))
  }

  function Unsubscriptions(n: nat): seq<Io> {
    seq(n, k requires 0 <= k < n => Unsubscribe(k))
  }

  /** The first `n` fragments of an auth message of `count`. */
  function Frames(frameType: nat, n: nat, count: nat): seq<Io> {
    seq(n, k requires 0 <= k < n => AuthWrite(frameType, k, count))
  }

  function Front(log: seq<Io>): seq<Io>
    requires log != []
  {
    log[..|log| - 1]
  }

  predicate IsLockKey(io: Io) {
    io.Got? && io.kind == 6 && io.bodyLength >= KEY_BODY
  }

  /** All channels subscribed, the 0x06 message written, and `seen` messages read, none with the key. */
  ghost predicate Waiting(log: seq<Io>, seen: nat) {
    exists c: nat {:trigger Frames(6, c, c)} ::
      c >= 1 && seen <= |log| && log[..|log| - seen] == Subscriptions(CHANNELS) + Frames(6, c, c)
      && forall p | |log| - seen <= p < |log| :: log[p].Got? && !IsLockKey(log[p])
  }

  /** ... and then the lock's key, within six messages. */
  ghost predicate HasKey(log: seq<Io>) {
    log != [] && IsLockKey(log[|log| - 1]) && exists seen: nat :: seen < KEY_TRIES && Waiting(Front(log), seen)
  }

  /** ... and then the first `n` fragments of a 0x07 message of `c`. */
  ghost predicate Proving(log: seq<Io>, n: nat, c: nat) {
    n <= |log| && HasKey(log[..|log| - n]) && log[|log| - n..] == Frames(7, n, c)
  }

  /** The whole handshake and nothing else. */
  ghost predicate Authenticated(log: seq<Io>) {
    log != [] && log[|log| - 1].Got? && log[|log| - 1].kind == 7
    && exists c: nat :: c >= 1 && Proving(Front(log), c, c)
  }

  /** The point of no return. */
  predicate IsActuation(io: Io) {
    io.ControlWrite? || io.HookStart?
  }

  /** Every actuation comes right after a whole handshake, and there is at most one. */
  ghost predicate Sound(log: seq<Io>) {
    forall p | 0 <= p < |log| && IsActuation(log[p]) ::
      Authenticated(log[..p]) && forall q | 0 <= q < |log| && q != p :: !IsActuation(log[q])
  }

  /** Neither an actuation nor a follow-up. */
  predicate Inert(log: seq<Io>) {
    forall p | 0 <= p < |log| :: !IsActuation(log[p]) && !log[p].FollowUp?
  }

  /** The subscription attempts come first, in order, and nothing else comes before they are over. */
  predicate SubscribedFirst(log: seq<Io>) {
    forall p | 0 <= p < |log| :: if p < CHANNELS then log[p] == Subscribe(p) else !log[p].Subscribe?
  }

  /** The log ends with the first `n` unsubscriptions. */
  predicate EndsWithUnsubscriptions(log: seq<Io>, n: nat) {
    n <= |log| && log[|log| - n..] == Unsubscriptions(n)
  }

  /** Where a task inside the session body can be. */
  ghost predicate At(pc: Pc, log: seq<Io>) {
    match pc
    case Prelude(_) => log == []
    case Subscribing(k) => k < CHANNELS && |log| == k + 1
    case FetchingKey => log == Subscriptions(CHANNELS)
    case WritingKey(i, c) => i < c && log == Subscriptions(CHANNELS) + Frames(6, i + 1, c)
    case ReadingKey(seen) => seen < KEY_TRIES && Waiting(log, seen)
    case FetchingMaterial => HasKey(log)
    case WritingProof(i, c) => i < c && Proving(log, i + 1, c)
    case ReadingAck => exists c: nat :: c >= 1 && Proving(log, c, c)
    case Cleaning(k, outcome) => k < CHANNELS && EndsWithUnsubscriptions(log, k + 1) && outcome != Raised(InProgress)
    case _ => |log| >= CHANNELS
  }

  /** Before the point of no return the flag `actuated` is down. */
  predicate Early(pc: Pc) {
    pc.Prelude? || pc.Subscribing? || pc.FetchingKey? || pc.WritingKey? || pc.ReadingKey? || pc.FetchingMaterial?
    || pc.WritingProof? || pc.ReadingAck?
  }

  predicate Late(pc: Pc) {
    pc.InHook? || pc.Actuating? || pc.AwaitingReply? || pc.Reading? || pc.Listening?
  }

  function Indices(n: nat): seq<nat> {
    seq(n, k requires 0 <= k < n => k)
  }

  /** Entries are collected in request order, none before the actuation, and all by the time of a return. */
  predicate OutOk(t: Task) {
    && |t.out| <= t.call.requests && t.out == Indices(|t.out|) && (!t.actuated ==> t.out == [])
    && match t.pc
       case New => !t.actuated
       case LoggingIn(_) => !t.actuated
       case Reading(k) => k < t.call.requests && |t.out| == k && !t.call.hook
       case Listening => |t.out| == t.call.requests && !t.call.hook
       case InHook => t.out == [] && t.call.hook
       case Actuating => t.out == [] && !t.call.hook
       case AwaitingReply => t.out == [] && !t.call.hook
       case Cleaning(_, outcome) => outcome == Returned ==> |t.out| == if t.call.hook then 0 else t.call.requests
       case Finished(outcome) => outcome == Returned ==> |t.out| == if t.call.hook then 0 else t.call.requests
       case _ => true
  }

  ghost predicate InsideOk(t: Task) {
    && At(t.pc, t.log)
    && (t.pc.Prelude? || t.pc.Subscribing? <==> !t.tried)
    && (Early(t.pc) ==> !t.actuated) && (Late(t.pc) ==> t.actuated)
    && (t.tried ==> |t.log| >= CHANNELS)
  }

  /** Every channel was given up on, unless cleaning up was itself cancelled. */
  predicate Tidied(log: seq<Io>, tried: bool, outcome: Outcome) {
    tried ==> EndsWithUnsubscriptions(log, CHANNELS)
              || (outcome == Raised(Cancelled) && exists n | 1 <= n <= CHANNELS :: EndsWithUnsubscriptions(log, n))
  }

  predicate AttemptsOk(t: Task) {
    && Inert(t.past)
    && (if t.attempt == 0 then t.first == None && t.past == []
        else t.attempt == 1 && t.first == Some(Raised(Code108)) && t.call.manager.Some?
             && EndsWithUnsubscriptions(t.past, CHANNELS))
  }

  /** At most two logins, the second only for the second attempt. */
  predicate LoginsOk(t: Task) {
    var unforced := if t.attempt == 0 then t.logins else if t.logins == [] then [] else t.logins[..|t.logins| - 1];
    && (unforced == [] || unforced == [false])
    && (t.attempt == 1 ==> t.logins == unforced + [true])
    && (t.pc.New? ==> t.attempt == 0 && t.logins == [])
    && (t.pc.LoggingIn? ==> t.log == [] && !t.tried && (t.pc.force <==> t.attempt == 1))
  }

  ghost predicate TaskInv(t: Task) {
    && Sound(t.log) && SubscribedFirst(t.log) && (!t.actuated ==> Inert(t.log))
    && AttemptsOk(t) && LoginsOk(t) && OutOk(t)
    && (Inside(t.pc) ==> InsideOk(t))
    && (t.pc.Finished? ==> Tidied(t.log, t.tried, t.pc.outcome))
    && (t.pc.New? ==> t.log == [] && !t.tried)
  }

  // ---------------------------------------------------------------- logs that grow

  lemma SoundGrows(log: seq<Io>, io: Io)
    requires Sound(log) && !IsActuation(io)
    ensures Sound(log + [io]) && (Inert(log) && !io.FollowUp? ==> Inert(log + [io]))
  {
    hide Authenticated;
    var log2 := log + [io];
    forall p | 0 <= p < |log2| && IsActuation(log2[p]) ensures Authenticated(log2[..p]) {
      assert log2[..p] == log[..p];
      assert IsActuation(log[p]);
    }
    assert forall q | 0 <= q < |log2| && IsActuation(log2[q]) :: q < |log| && IsActuation(log[q]);
  }

  lemma SoundActs(log: seq<Io>, io: Io)
    requires Inert(log) && IsActuation(io) && Authenticated(log)
    ensures Sound(log + [io])
  {
    hide Authenticated;
    assert (log + [io])[..|log|] == log;
  }

  lemma WaitingMore(log: seq<Io>, seen: nat, io: Io)
    requires Waiting(log, seen) && io.Got? && !IsLockKey(io)
    ensures Waiting(log + [io], seen + 1)
  {
    var c: nat :| c >= 1 && seen <= |log| && log[..|log| - seen] == Subscriptions(CHANNELS) + Frames(6, c, c);
    assert (log + [io])[..|log| - seen] == log[..|log| - seen];
    assert (log + [io])[..|log| - seen] == Subscriptions(CHANNELS) + Frames(6, c, c);
  }

  lemma KeyFound(log: seq<Io>, seen: nat, io: Io)
    requires Waiting(log, seen) && seen < KEY_TRIES && IsLockKey(io)
    ensures HasKey(log + [io])
  {
    hide Waiting;
    assert Front(log + [io]) == log;
  }

  lemma FramesGrow(frameType: nat, n: nat, c: nat)
    ensures Frames(frameType, n + 1, c) == Frames(frameType, n, c) + [AuthWrite(frameType, n, c)]
  {}

  lemma ProvingMore(log: seq<Io>, n: nat, c: nat)
    requires Proving(log, n, c)
    ensures Proving(log + [AuthWrite(7, n, c)], n + 1, c)
  {
    hide HasKey, Frames;
    FramesGrow(7, n, c);
    var log2 := log + [AuthWrite(7, n, c)];
    assert log2[..|log2| - (n + 1)] == log[..|log| - n];
    assert log2[|log2| - (n + 1)..] == log[|log| - n..] + [AuthWrite(7, n, c)];
  }

  lemma ProvingStarts(log: seq<Io>)
    requires HasKey(log)
    ensures forall c: nat :: Proving(log, 0, c)
  {
    hide HasKey;
    assert log[..|log| - 0] == log;
  }

  lemma WaitingStarts(c: nat)
    requires c >= 1
    ensures Waiting(Subscriptions(CHANNELS) + Frames(6, c, c), 0)
  {
    var log := Subscriptions(CHANNELS) + Frames(6, c, c);
    assert log[..|log| - 0] == Subscriptions(CHANNELS) + Frames(6, c, c);
  }

  lemma HandshakeDone(log: seq<Io>, c: nat, io: Io)
    requires c >= 1 && Proving(log, c, c) && io.Got? && io.kind == 7
    ensures Authenticated(log + [io])
  {
    hide Proving;
    assert Front(log + [io]) == log;
  }

  lemma UnsubscribedMore(log: seq<Io>, n: nat)
    requires EndsWithUnsubscriptions(log, n)
    ensures EndsWithUnsubscriptions(log + [Unsubscribe(n)], n + 1)
  {
    var log2 := log + [Unsubscribe(n)];
    assert log2[|log2| - (n + 1)..] == log[|log| - n..] + [Unsubscribe(n)];
    assert Unsubscriptions(n + 1) == Unsubscriptions(n) + [Unsubscribe(n)];
  }

  // ---------------------------------------------------------------- steps of one task

  /** The part of the invariant that a step inside the body has to keep. */
  ghost predicate BodyOk(t: Task) {
    && Sound(t.log) && SubscribedFirst(t.log) && (!t.actuated ==> Inert(t.log))
    && Inside(t.pc) && InsideOk(t)
  }

  /** A step that logs anything but an actuation or a subscription. */
  lemma DoKeeps(t: Task, io: Io, pc: Pc)
    requires Sound(t.log) && SubscribedFirst(t.log) && (!t.actuated ==> Inert(t.log)) && t.tried && |t.log| >= CHANNELS
    requires !IsActuation(io) && !io.Subscribe? && Inside(pc) && !pc.Prelude? && !pc.Subscribing?
    requires At(pc, t.log + [io]) && (Early(pc) ==> !t.actuated)
    requires (Late(pc) || io.FollowUp? ==> t.actuated)
    ensures BodyOk(Do(t, io, pc))
  {
    hide At, Sound;
    SoundGrows(t.log, io);
  }

  lemma ExitKeeps(t: Task, outcome: Outcome)
    requires Sound(t.log) && SubscribedFirst(t.log) && (!t.actuated ==> Inert(t.log)) && t.tried && |t.log| >= CHANNELS
    requires outcome != Raised(InProgress)
    ensures BodyOk(Exit(t, outcome))
  {
    hide Sound;
    assert t.log[|t.log| - 0..] == Unsubscriptions(0);
    UnsubscribedMore(t.log, 0);
    DoKeeps(t, Unsubscribe(0), Cleaning(0, outcome));
  }

  lemma WriteKeyKeeps(t: Task, fragments: nat)
    requires Sound(t.log) && SubscribedFirst(t.log) && Inert(t.log) && !t.actuated && t.tried
    requires t.log == Subscriptions(CHANNELS)
    ensures BodyOk(WriteKey(t, fragments))
  {
    hide Sound;
    if fragments == 0 {
      ExitKeeps(t, Raised(Failure));
    } else {
      assert Frames(6, 1, fragments) == [AuthWrite(6, 0, fragments)];
      DoKeeps(t, AuthWrite(6, 0, fragments), WritingKey(0, fragments));
    }
  }

  lemma PreludeKeeps(t: Task, r: Reply)
    requires BodyOk(t) && (t.pc.Prelude? || t.pc.Subscribing?)
    ensures BodyOk(Proceed(t, r))
  {
    hide Sound;
    match t.pc
    case Prelude(k) =>
      SoundGrows(t.log, Subscribe(0));
    case Subscribing(k) =>
      if k + 1 < CHANNELS {
        SoundGrows(t.log, Subscribe(k + 1));
      } else {
        assert t.log == Subscriptions(CHANNELS);
        if t.call.key.Given? {
          WriteKeyKeeps(t.(tried := true), t.call.key.fragments);
        }
      }
  }

  lemma KeyMessageKeeps(t: Task, seen: nat, kind: nat, bodyLength: nat)
    requires BodyOk(t) && t.pc == ReadingKey(seen)
    ensures BodyOk(KeyMessage(t, seen, kind, bodyLength))
  {
    hide Sound, Waiting;
    var io := Got(kind, bodyLength);
    if IsLockKey(io) {
      KeyFound(t.log, seen, io);
      DoKeeps(t, io, FetchingMaterial);
    } else {
      WaitingMore(t.log, seen, io);
      if seen + 1 >= KEY_TRIES {
        SoundGrows(t.log, io);
        ExitKeeps(Do(t, io, t.pc), Raised(Failure));
      } else {
        DoKeeps(t, io, ReadingKey(seen + 1));
      }
    }
  }

  lemma AckKeeps(t: Task, kind: nat, bodyLength: nat, ready: bool)
    requires BodyOk(t) && t.pc == ReadingAck
    ensures BodyOk(Ack(t, kind, bodyLength, ready))
  {
    hide Sound, Proving, Authenticated;
    var io := Got(kind, bodyLength);
    var u := Do(t, io, t.pc);
    SoundGrows(t.log, io);
    if kind != 7 || !ready {
      ExitKeeps(u, Raised(Failure));
    } else {
      var c: nat :| c >= 1 && Proving(t.log, c, c);
      HandshakeDone(t.log, c, io);
      SoundActs(u.log, if t.call.hook then HookStart else ControlWrite);
    }
  }

  lemma CompletedKeeps(t: Task, n: nat)
    requires BodyOk(t) && t.tried && !t.pc.Cleaning? && Fits(t.pc, Done(n))
    ensures BodyOk(Completed(t, n))
  {
    hide Sound, Proving, HasKey, Waiting, Frames;
    match t.pc
    case FetchingKey => WriteKeyKeeps(t, n);
    case WritingKey(i, c) =>
      if i + 1 < c {
        FramesGrow(6, i + 1, c);
        DoKeeps(t, AuthWrite(6, i + 1, c), WritingKey(i + 1, c));
      } else {
        WaitingStarts(c);
      }
    case FetchingMaterial =>
      if n == 0 {
        ExitKeeps(t, Raised(Failure));
      } else {
        ProvingStarts(t.log);
        ProvingMore(t.log, 0, n);
        DoKeeps(t, AuthWrite(7, 0, n), WritingProof(0, n));
      }
    case WritingProof(i, c) =>
      if i + 1 < c {
        ProvingMore(t.log, i + 1, c);
        DoKeeps(t, AuthWrite(7, i + 1, c), WritingProof(i + 1, c));
      }
    case InHook => ExitKeeps(t, Returned);
    case AwaitingReply => NextReadKeeps(t, 0);
    case Reading(k) => NextReadKeeps(t.(out := t.out + [k]), k + 1);
    case Listening => ExitKeeps(t, Returned);
    case _ =>
  }

  lemma NextReadKeeps(t: Task, request: nat)
    requires Sound(t.log) && SubscribedFirst(t.log) && t.tried && t.actuated && |t.log| >= CHANNELS
    ensures BodyOk(NextRead(t, request))
  {
    hide Sound;
    if request < t.call.requests {
      DoKeeps(t, FollowUp, Reading(request));
    }
  }

  lemma ProceedKeeps(t: Task, r: Reply)
    requires BodyOk(t) && Fits(t.pc, r) && Leaves(t, r) == None
    ensures BodyOk(Proceed(t, r))
  {
    hide Sound, BodyOk;
    if t.pc.Prelude? || t.pc.Subscribing? {
      PreludeKeeps(t, r);
    } else if t.pc.Cleaning? {
      CleaningKeeps(t, r);
    } else {
      match r
      case Fails(e) => FailKeeps(t, e);
      case Message(kind, n, ready) =>
        if t.pc.ReadingKey? {
          KeyMessageKeeps(t, t.pc.seen, kind, n);
        } else {
          AckKeeps(t, kind, n, ready);
        }
      case More => FollowUpKeeps(t);
      case Done(n) => DoneKeeps(t, n);
    }
  }

  lemma CleaningKeeps(t: Task, r: Reply)
    requires BodyOk(t) && t.pc.Cleaning? && Leaves(t, r) == None
    ensures BodyOk(Proceed(t, r))
  {
    hide Sound;
    UnsubscribedMore(t.log, t.pc.which + 1);
    DoKeeps(t, Unsubscribe(t.pc.which + 1), Cleaning(t.pc.which + 1, t.pc.outcome));
  }

  lemma FailKeeps(t: Task, e: Error)
    requires BodyOk(t) && !t.pc.Prelude? && !t.pc.Subscribing? && e != InProgress
    ensures BodyOk(Exit(t, Raised(e)))
  {
    hide Sound;
    ExitKeeps(t, Raised(e));
  }

  lemma FollowUpKeeps(t: Task)
    requires BodyOk(t) && (t.pc.Listening? || t.pc.InHook?)
    ensures BodyOk(Do(t, FollowUp, t.pc))
  {
    hide Sound;
    DoKeeps(t, FollowUp, t.pc);
  }

  lemma DoneKeeps(t: Task, n: nat)
    requires BodyOk(t) && Fits(t.pc, Done(n)) && !t.pc.Prelude? && !t.pc.Subscribing? && !t.pc.Cleaning?
    ensures BodyOk(Completed(t, n))
  {
    hide Sound;
    CompletedKeeps(t, n);
  }

  // ---------------------------------------------------------------- steps of the world

  ghost predicate TasksOk(w: World) {
    forall i | 0 <= i < |w.tasks| :: TaskInv(w.tasks[i])
  }

  lemma StaysInside(t: Task, r: Reply)
    requires TaskInv(t) && Inside(t.pc) && Fits(t.pc, r) && Leaves(t, r) == None
    ensures TaskInv(Proceed(t, r)) && Inside(Proceed(t, r).pc) && Proceed(t, r).call == t.call
  {
    hide Sound, BodyOk, TaskInv, Proceed, Leaves, Fits, OutOk;
    BodyOfInv(t);
    ProceedKeeps(t, r);
    ProceedFrame(t, r);
    ProceedOut(t, r);
    InvOfBody(t, Proceed(t, r));
  }

  lemma BodyOfInv(t: Task)
    requires TaskInv(t) && Inside(t.pc)
    ensures BodyOk(t)
  {
    hide Sound, InsideOk;
  }

  lemma InvOfBody(t: Task, u: Task)
    requires TaskInv(t) && BodyOk(u) && Inside(t.pc) && OutOk(u)
    requires u.call == t.call && u.attempt == t.attempt && u.first == t.first && u.logins == t.logins
    requires u.past == t.past
    ensures TaskInv(u) && Inside(u.pc)
  {
    hide Sound, InsideOk;
  }

  lemma ProceedFrame(t: Task, r: Reply)
    ensures var u := Proceed(t, r);
            u.call == t.call && u.attempt == t.attempt && u.first == t.first && u.logins == t.logins && u.past == t.past
  {
    hide InTry, EnterTry;
    InTryFrame(t, r);
    EnterTryFrame(t);
  }

  lemma ProceedOut(t: Task, r: Reply)
    requires TaskInv(t) && Inside(t.pc) && Fits(t.pc, r) && Leaves(t, r) == None
    ensures OutOk(Proceed(t, r))
  {
    hide Sound, AttemptsOk, LoginsOk, SubscribedFirst, Tidied, At;
    if t.pc.Reading? {
      assert Indices(t.pc.request + 1) == Indices(t.pc.request) + [t.pc.request];
    }
  }

  lemma EnterTryFrame(t: Task)
    ensures var u := EnterTry(t);
            u.call == t.call && u.attempt == t.attempt && u.first == t.first && u.logins == t.logins && u.past == t.past
  {}

  lemma InTryFrame(t: Task, r: Reply)
    ensures var u := InTry(t, r);
            u.call == t.call && u.attempt == t.attempt && u.first == t.first && u.logins == t.logins && u.past == t.past
  {}

  lemma EnterKeeps(w: World, i: nat, t: Task)
    requires i < |w.tasks| && TaskInv(t) && (t.pc.New? || t.pc.LoggingIn?) && t.log == [] && !t.tried
    ensures TaskInv(Enter(w, i, t).tasks[i])
  {
    hide Sound, EndsWithUnsubscriptions, Waiting, HasKey, Proving;
    SoundNothing();
  }

  lemma LeaveKeeps(w: World, i: nat, t: Task, r: Reply)
    requires i < |w.tasks| && TaskInv(t) && Leaves(t, r).Some? && Fits(t.pc, r)
    ensures TaskInv(Leave(w, i, t, Leaves(t, r).value).tasks[i])
  {
    hide TaskInv, Leaves, Login, CanRetry, Fits, OutOk;
    var outcome := Leaves(t, r).value;
    LeavesTidied(t, r);
    if CanRetry(t, outcome) {
      RetryKeeps(w.(busy := w.busy[t.call.device := false]), t, outcome);
    } else {
      FinishKeeps(t, outcome);
    }
  }

  lemma FinishKeeps(t: Task, outcome: Outcome)
    requires TaskInv(t) && Inside(t.pc) && Tidied(t.log, t.tried, outcome) && OutOk(t.(pc := Finished(outcome)))
    ensures TaskInv(t.(pc := Finished(outcome)))
  {
    hide Sound, InsideOk, EndsWithUnsubscriptions, Tidied;
  }

  lemma RetryKeeps(w: World, t: Task, outcome: Outcome)
    requires TaskInv(t) && Inside(t.pc) && CanRetry(t, outcome) && EndsWithUnsubscriptions(t.log, CHANNELS)
    ensures TaskInv(Login(w, Second(t, outcome), true))
  {
    hide Sound, InsideOk, EndsWithUnsubscriptions, Tidied;
    SoundNothing();
  }

  lemma SoundNothing()
    ensures Sound([])
  {}

  lemma LeavesTidied(t: Task, r: Reply)
    requires TaskInv(t) && Leaves(t, r).Some?
    ensures Tidied(t.log, t.tried, Leaves(t, r).value) && Inside(t.pc) && OutOk(t.(pc := Finished(Leaves(t, r).value)))
    ensures CanRetry(t, Leaves(t, r).value) ==> EndsWithUnsubscriptions(t.log, CHANNELS)
  {
    hide Sound;
  }

  lemma ActKeeps(w: World, a: Action)
    requires TasksOk(w) && Can(w, a)
    ensures TasksOk(Act(w, a))
  {
    hide TaskInv, Enter, Leave, Login, Proceed, Leaves;
    match a
    case Spawn(call) =>
      NewTaskOk(call);
    case Cache(manager) =>
    case Resume(i, r) =>
      StepKeeps(w, i, r);
      forall j | 0 <= j < |Act(w, a).tasks| ensures TaskInv(Act(w, a).tasks[j]) {
        OthersSame(w, i, r, j);
      }
  }

  lemma NewTaskOk(call: Call)
    ensures TaskInv(NewTask(call))
  {}

  lemma OthersSame(w: World, i: nat, r: Reply, j: nat)
    requires Can(w, Resume(i, r)) && j < |w.tasks|
    ensures |Act(w, Resume(i, r)).tasks| == |w.tasks|
    ensures j != i ==> Act(w, Resume(i, r)).tasks[j] == w.tasks[j]
  {
    hide Proceed, Leaves, Login, CanRetry;
  }

  lemma StepKeeps(w: World, i: nat, r: Reply)
    requires TasksOk(w) && Can(w, Resume(i, r))
    ensures |Act(w, Resume(i, r)).tasks| == |w.tasks| && TaskInv(Act(w, Resume(i, r)).tasks[i])
  {
    hide TaskInv, Enter, Leave, Login, Proceed, Leaves;
    var t := w.tasks[i];
    OthersSame(w, i, r, i);
    if t.pc.New? {
      if t.call.manager.Some? {
        FirstLogin(w, t);
      } else {
        NewLog(t);
        EnterKeeps(w, i, t);
      }
    } else if t.pc.LoggingIn? {
      if r.Fails? {
        LoginFails(t, r.error);
      } else {
        NewLog(t);
        EnterKeeps(w.(cached := w.cached + if t.call.manager.Some? then {t.call.manager.value} else {}), i, t);
      }
    } else if Leaves(t, r).Some? {
      LeaveKeeps(w, i, t, r);
    } else {
      StaysInside(t, r);
    }
  }

  lemma NewLog(t: Task)
    requires TaskInv(t) && (t.pc.New? || t.pc.LoggingIn?)
    ensures t.log == [] && !t.tried
  {}

  lemma FirstLogin(w: World, t: Task)
    requires TaskInv(t) && t.pc.New?
    ensures TaskInv(Login(w, t, false))
  {}

  lemma LoginFails(t: Task, e: Error)
    requires TaskInv(t) && t.pc.LoggingIn?
    ensures TaskInv(t.(pc := Finished(Raised(e))))
  {
    hide Sound, InsideOk, SubscribedFirst, EndsWithUnsubscriptions;
  }

  lemma {:induction false} Reachable(actions: seq<Action>)
    requires CanAll(actions)
    ensures TasksOk(After(actions))
  {
    hide Act, Can, TasksOk;
    if actions == [] {
      NoTasks();
    } else {
      Reachable(actions[..|actions| - 1]);
      ActKeeps(After(actions[..|actions| - 1]), actions[|actions| - 1]);
    }
  }

  lemma NoTasks()
    ensures TasksOk(EMPTY)
  {}

  // ---------------------------------------------------------------- the busy flag

  predicate InBody(w: World, i: int) {
    0 <= i < |w.tasks| && Inside(w.tasks[i].pc)
  }

  /** The flag of a device is up exactly while some task is inside the session body for it, and there is
      never a second one. */
  ghost predicate Exclusive(w: World) {
    && (forall i, j | InBody(w, i) && InBody(w, j) && w.tasks[i].call.device == w.tasks[j].call.device :: i == j)
    && (forall i | InBody(w, i) :: Busy(w, w.tasks[i].call.device))
    && (forall d | Busy(w, d) :: exists i :: InBody(w, i) && w.tasks[i].call.device == d)
  }

  /** How one step of task `i` affects the flags: it enters a free device, leaves its own, or neither. */
  predicate FlagStep(w: World, w2: World, i: nat)
    requires i < |w.tasks| == |w2.tasks|
  {
    var d := w.tasks[i].call.device;
    if InBody(w, i) == InBody(w2, i) then w2.busy == w.busy
    else if InBody(w2, i) then !Busy(w, d) && w2.busy == w.busy[d := true]
    else w2.busy == w.busy[d := false]
  }

  lemma StepsFlag(w: World, i: nat, r: Reply)
    requires TasksOk(w) && Can(w, Resume(i, r))
    ensures var w2 := Act(w, Resume(i, r));
            |w2.tasks| == |w.tasks| && w2.tasks[i].call == w.tasks[i].call && FlagStep(w, w2, i)
  {
    hide TaskInv, Proceed;
    OthersSame(w, i, r, i);
    var t := w.tasks[i];
    if Inside(t.pc) {
      hide Login, CanRetry;
      if Leaves(t, r).Some? {
        LeaveFrame(w, i, t, Leaves(t, r).value);
      } else {
        StaysInside(t, r);
      }
    }
  }

  lemma LeaveFrame(w: World, i: nat, t: Task, outcome: Outcome)
    requires i < |w.tasks|
    ensures var w2 := Leave(w, i, t, outcome);
            !Inside(w2.tasks[i].pc) && w2.tasks[i].call == t.call && w2.busy == w.busy[t.call.device := false]
  {}

  lemma FlagKeeps(w: World, w2: World, i: nat)
    requires Exclusive(w) && i < |w.tasks| == |w2.tasks| && FlagStep(w, w2, i)
    requires w2.tasks[i].call == w.tasks[i].call
    requires forall j | 0 <= j < |w.tasks| && j != i :: w2.tasks[j] == w.tasks[j]
    ensures Exclusive(w2)
  {
    hide Inside;
    forall d | Busy(w2, d) ensures exists k :: InBody(w2, k) && w2.tasks[k].call.device == d {
      if Busy(w, d) {
        var k :| InBody(w, k) && w.tasks[k].call.device == d;
        assert k != i ==> InBody(w2, k);
      }
      assert Busy(w, d) || (InBody(w2, i) && w2.tasks[i].call.device == d);
    }
  }

  lemma ActExclusive(w: World, a: Action)
    requires TasksOk(w) && Can(w, a) && Exclusive(w)
    ensures Exclusive(Act(w, a))
  {
    hide TaskInv, FlagStep, Enter, Leave, Login, Proceed, Leaves;
    match a
    case Spawn(call) =>
      MoreTasksExclusive(w, Act(w, a));
    case Cache(manager) =>
      MoreTasksExclusive(w, Act(w, a));
    case Resume(i, r) =>
      StepsFlag(w, i, r);
      forall j | 0 <= j < |w.tasks| ensures j != i ==> Act(w, a).tasks[j] == w.tasks[j] {
        OthersSame(w, i, r, j);
      }
      FlagKeeps(w, Act(w, a), i);
  }

  /** New tasks start outside. */
  lemma MoreTasksExclusive(w: World, w2: World)
    requires Exclusive(w) && w2.busy == w.busy && w.tasks <= w2.tasks
    requires forall i | |w.tasks| <= i < |w2.tasks| :: !Inside(w2.tasks[i].pc)
    ensures Exclusive(w2)
  {
    hide Inside;
    forall d | Busy(w2, d) ensures exists k :: InBody(w2, k) && w2.tasks[k].call.device == d {
      assert Busy(w, d);
      var k :| InBody(w, k) && w.tasks[k].call.device == d;
      assert InBody(w2, k);
    }
    assert forall i | InBody(w2, i) :: InBody(w, i);
  }

  /** Mutual exclusion, in every reachable state of every interleaving. */
  lemma {:induction false} MutualExclusion(actions: seq<Action>)
    requires CanAll(actions)
    ensures Exclusive(After(actions))
  {
    hide Act, Can, Exclusive;
    if actions == [] {
      EmptyExclusive();
    } else {
      var before := actions[..|actions| - 1];
      MutualExclusion(before);
      Reachable(before);
      ActExclusive(After(before), actions[|actions| - 1]);
    }
  }

  lemma EmptyExclusive()
    ensures Exclusive(EMPTY)
  {}

  /** Every way out of the session body lowers the flag in the same step, whether the call is over or is
      between its two attempts; only a step of the task that raised a flag lowers it. */
  lemma ExitReleases(actions: seq<Action>, i: nat, r: Reply)
    requires CanAll(actions) && Can(After(actions), Resume(i, r)) && InBody(After(actions), i)
    ensures var w, w2 := After(actions), Act(After(actions), Resume(i, r));
            var d := w.tasks[i].call.device;
            (Busy(w2, d) <==> InBody(w2, i)) && forall e | e != d :: Busy(w2, e) == Busy(w, e)
  {
    hide After, CanAll, Act, Can, TaskInv;
    var w := After(actions);
    Reachable(actions);
    MutualExclusion(actions);
    StepsFlag(w, i, r);
  }

  lemma NeverInProgress(t: Task, r: Reply)
    requires TaskInv(t) && Inside(t.pc) && Leaves(t, r).Some?
    ensures Leaves(t, r).value != Raised(InProgress)
  {
    hide Sound, LoginsOk, AttemptsOk;
  }

  /** A caller that is turned away changes no flag and no other task. */
  lemma RejectedChangesNothing(actions: seq<Action>, i: nat, r: Reply)
    requires CanAll(actions) && Can(After(actions), Resume(i, r))
    requires Act(After(actions), Resume(i, r)).tasks[i].pc == Finished(Raised(InProgress))
    ensures var w, w2 := After(actions), Act(After(actions), Resume(i, r));
            && Busy(w, w.tasks[i].call.device) && w2.busy == w.busy
            && forall j | 0 <= j < |w.tasks| && j != i :: w2.tasks[j] == w.tasks[j]
  {
    hide After, CanAll;
    var w := After(actions);
    Reachable(actions);
    RejectedStep(w, i, r);
    forall j | 0 <= j < |w.tasks| && j != i ensures Act(w, Resume(i, r)).tasks[j] == w.tasks[j] {
      OthersSame(w, i, r, j);
    }
  }

  lemma RejectedStep(w: World, i: nat, r: Reply)
    requires TasksOk(w) && Can(w, Resume(i, r)) && Act(w, Resume(i, r)).tasks[i].pc == Finished(Raised(InProgress))
    ensures Busy(w, w.tasks[i].call.device) && Act(w, Resume(i, r)).busy == w.busy
  {
    hide TaskInv, Proceed, Leaves;
    var t := w.tasks[i];
    if Inside(t.pc) {
      if Leaves(t, r).Some? {
        NeverInProgress(t, r);
      } else {
        StaysInside(t, r);
      }
    }
  }

  // ---------------------------------------------------------------- what one call may do

  /** Over all of a call's attempts the operation's control write happens at most once or the hook starts
      at most once, never both, and each comes right after a whole handshake of its own attempt. */
  lemma ActuatesOnce(actions: seq<Action>, i: nat)
    requires CanAll(actions) && i < |After(actions).tasks|
    ensures var t := After(actions).tasks[i];
            var all := t.past + t.log;
            && (forall p, q | 0 <= p < |all| && 0 <= q < |all| && IsActuation(all[p]) && IsActuation(all[q]) :: p == q)
            && (forall p | 0 <= p < |t.log| && IsActuation(t.log[p]) :: Authenticated(t.log[..p]))
  {
    hide After, CanAll;
    Reachable(actions);
    OneActuation(After(actions).tasks[i]);
  }

  lemma OneActuation(t: Task)
    requires TaskInv(t)
    ensures var all := t.past + t.log;
            forall p, q | 0 <= p < |all| && 0 <= q < |all| && IsActuation(all[p]) && IsActuation(all[q]) :: p == q
    ensures forall p | 0 <= p < |t.log| && IsActuation(t.log[p]) :: Authenticated(t.log[..p])
  {
    hide Authenticated, InsideOk, LoginsOk, Tidied, SubscribedFirst;
    var all := t.past + t.log;
    forall p, q | 0 <= p < |all| && 0 <= q < |all| && IsActuation(all[p]) && IsActuation(all[q]) ensures p == q {
      assert p >= |t.past| && q >= |t.past|;
      assert IsActuation(t.log[p - |t.past|]) && IsActuation(t.log[q - |t.past|]);
    }
  }

  /** A second attempt starts only when the first failed with code 108 before actuating; there is no
      third; `_login` runs at most twice for a call, and at most once forced. */
  lemma RetryOnlyBeforeActuation(actions: seq<Action>, i: nat)
    requires CanAll(actions) && i < |After(actions).tasks|
    ensures var t := After(actions).tasks[i];
            && t.attempt <= 1 && (t.attempt == 1 ==> t.first == Some(Raised(Code108)) && Inert(t.past))
            && |t.logins| <= 2 && (|t.logins| == 2 ==> !t.logins[0])
            && (true in t.logins ==> t.attempt == 1)
  {
    hide After, CanAll;
    Reachable(actions);
    AtMostTwoLogins(After(actions).tasks[i]);
  }

  lemma AtMostTwoLogins(t: Task)
    requires TaskInv(t)
    ensures t.attempt <= 1 && (t.attempt == 1 ==> t.first == Some(Raised(Code108)) && Inert(t.past))
    ensures |t.logins| <= 2 && (|t.logins| == 2 ==> !t.logins[0]) && (true in t.logins ==> t.attempt == 1)
  {
    hide Sound, InsideOk, Tidied, SubscribedFirst;
  }

  /** The notify-enable attempts come before everything else an attempt does; and an attempt that got past
      them ends with an unsubscription of every channel, unless it was cancelled while cleaning up. */
  lemma SubscriptionsBracket(actions: seq<Action>, i: nat)
    requires CanAll(actions) && i < |After(actions).tasks|
    ensures var t := After(actions).tasks[i];
            && SubscribedFirst(t.log)
            && (t.attempt == 1 ==> EndsWithUnsubscriptions(t.past, CHANNELS))
            && (t.pc.Finished? && t.tried ==>
                  EndsWithUnsubscriptions(t.log, CHANNELS)
                  || (t.pc.outcome == Raised(Cancelled)
                      && exists n | 1 <= n <= CHANNELS :: EndsWithUnsubscriptions(t.log, n)))
  {
    hide After, CanAll;
    Reachable(actions);
    Bracketed(After(actions).tasks[i]);
  }

  lemma Bracketed(t: Task)
    requires TaskInv(t)
    ensures SubscribedFirst(t.log) && (t.attempt == 1 ==> EndsWithUnsubscriptions(t.past, CHANNELS))
    ensures t.pc.Finished? ==> Tidied(t.log, t.tried, t.pc.outcome)
  {
    hide Sound, InsideOk, LoginsOk, SubscribedFirst, EndsWithUnsubscriptions, Tidied;
  }

  /** Over both attempts, the output list has at most one entry for each follow-up operation, in order; none
      comes from an attempt that is retried, and a call that returns has them all. */
  lemma OneEntryEach(actions: seq<Action>, i: nat)
    requires CanAll(actions) && i < |After(actions).tasks|
    ensures var t := After(actions).tasks[i];
            && t.out == Indices(|t.out|) && |t.out| <= t.call.requests
            && (t.pc.LoggingIn? || t.pc.Prelude? ==> t.out == [])
            && (t.pc == Finished(Returned) ==> t.out == Indices(if t.call.hook then 0 else t.call.requests))
  {
    hide After, CanAll;
    Reachable(actions);
    OutOfInv(After(actions).tasks[i]);
  }

  lemma OutOfInv(t: Task)
    requires TaskInv(t)
    ensures OutOk(t) && (t.pc.LoggingIn? || t.pc.Prelude? ==> t.out == [])
  {
    hide Sound, AttemptsOk, LoginsOk, SubscribedFirst, Tidied, At;
  }

  // ---------------------------------------------------------------- exactly when cleaning up is cut short

  /** A step by which an attempt leaves the session body: if it had reached the inner `try`, every channel was
      unsubscribed, unless the step is a cancellation that hits one of the first three unsubscriptions. */
  lemma UnsubscribesUnlessCut(actions: seq<Action>, i: nat, r: Reply)
    requires CanAll(actions) && Can(After(actions), Resume(i, r))
    requires var t := After(actions).tasks[i]; Inside(t.pc) && t.tried && Leaves(t, r).Some?
    ensures var t := After(actions).tasks[i];
            EndsWithUnsubscriptions(t.log, CHANNELS) <==>
              !(t.pc.Cleaning? && t.pc.which < CHANNELS - 1 && r == Fails(Cancelled))
  {
    hide After, CanAll, Act;
    Reachable(actions);
    CutExactly(After(actions).tasks[i], r);
  }

  lemma CutExactly(t: Task, r: Reply)
    requires TaskInv(t) && Inside(t.pc) && t.tried && Leaves(t, r).Some?
    ensures EndsWithUnsubscriptions(t.log, CHANNELS) <==>
              !(t.pc.Cleaning? && t.pc.which < CHANNELS - 1 && r == Fails(Cancelled))
  {
    hide Sound, AttemptsOk, LoginsOk, SubscribedFirst, Tidied;
    var k := t.pc.which;
    var n := |t.log|;
    assert t.log[n - 1] == t.log[n - (k + 1)..][k] == Unsubscribe(k);
    if EndsWithUnsubscriptions(t.log, CHANNELS) {
      assert t.log[n - 1] == t.log[n - CHANNELS..][CHANNELS - 1] == Unsubscribe(CHANNELS - 1);
    }
  }

  /** The caller of the run below: a public key that cannot be made into a message. */
  const DOOMED := Call("lock", None, Given(0), false, 0)

  /** `n` awaits that end normally. */
  function Undisturbed(n: nat): seq<Action> {
    [Spawn(DOOMED)] + seq(n, _ => Resume(0, Done(0)))
  }

  /** Where such a caller is then. */
  function Stage(n: nat): Task {
    var t := NewTask(DOOMED);
    if n == 0 then t
    else if n <= PRELUDE then t.(pc := Prelude(n - 1))
    else if n <= PRELUDE + CHANNELS then
      t.(pc := Subscribing(n - PRELUDE - 1), log := Subscriptions(n - PRELUDE))
    else
      t.(pc := Cleaning(0, Raised(Failure)), tried := true, log := Subscriptions(CHANNELS) + [Unsubscribe(0)])
  }

  function StageWorld(n: nat): World {
    World(if n == 0 then map[] else map[DOOMED.device := true], {}, [Stage(n)])
  }

  lemma StageStep(n: nat)
    requires n < 10
    ensures Can(StageWorld(n), Resume(0, Done(0))) && Act(StageWorld(n), Resume(0, Done(0))) == StageWorld(n + 1)
  {
    assert n >= PRELUDE ==> Subscriptions(n - PRELUDE + 1) == Subscriptions(n - PRELUDE) + [Subscribe(n - PRELUDE)];
  }

  lemma {:induction false} UntilCleaning(n: nat)
    requires n <= 10
    ensures CanAll(Undisturbed(n)) && After(Undisturbed(n)) == StageWorld(n)
  {
    hide Can, Act;
    if n == 0 {
      FirstSpawn();
    } else {
      UntilCleaning(n - 1);
      StageStep(n - 1);
      assert Undisturbed(n)[..|Undisturbed(n)| - 1] == Undisturbed(n - 1);
    }
  }

  lemma FirstSpawn()
    ensures CanAll(Undisturbed(0)) && After(Undisturbed(0)) == StageWorld(0)
  {
    var one := [Spawn(DOOMED)];
    assert Undisturbed(0) == one && one[..0] == [];
    assert CanAll([]) && After([]) == EMPTY;
  }

  /** A run in which the first unsubscription is cancelled, and the other three are never tried. */
  lemma CleanUpCutShort()
    ensures var actions := Undisturbed(10) + [Resume(0, Fails(Cancelled))];
            CanAll(actions) && |After(actions).tasks| == 1 &&
            var t := After(actions).tasks[0];
            && t.pc == Finished(Raised(Cancelled)) && t.tried
            && t.log == Subscriptions(CHANNELS) + [Unsubscribe(0)]
            && !EndsWithUnsubscriptions(t.log, CHANNELS)
  {
    hide CanAll, After, Act, Can;
    UntilCleaning(10);
    var before, last := Undisturbed(10), Resume(0, Fails(Cancelled));
    StageCut();
    OneMore(before, last);
  }

  lemma OneMore(before: seq<Action>, last: Action)
    requires CanAll(before) && Can(After(before), last)
    ensures CanAll(before + [last]) && After(before + [last]) == Act(After(before), last)
  {
    hide Can, Act;
    assert (before + [last])[..|before + [last]| - 1] == before;
  }

  lemma StageCut()
    ensures var w, a := StageWorld(10), Resume(0, Fails(Cancelled));
            Can(w, a) && |Act(w, a).tasks| == 1 && Act(w, a).tasks[0] == Stage(10).(pc := Finished(Raised(Cancelled)))
    ensures !EndsWithUnsubscriptions(Stage(10).log, CHANNELS)
  {
    var log := Stage(10).log;
    assert log[|log| - CHANNELS..][CHANNELS - 1] == Unsubscribe(0);
  }
}
