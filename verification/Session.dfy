/** `run_authenticated_lock_operation` (session.py) for any number of concurrent callers: a machine that
    yields at every `await`, where the environment chooses replies, failures and cancellations. */
module Session {
  import opened Bytes

  /** A CloudServiceError with code 108, any other Exception, the error of a rejected caller, and
      CancelledError, which `except Exception` does not catch. */
  datatype Error = Code108 | Failure | InProgress | Cancelled

  datatype Outcome = Returned | Raised(error: Error)

  /** The public key is fetched from the cloud, or given: then its message has `fragments` fragments, 0
      when it cannot be built. */
  datatype Key = Fetched | Given(fragments: nat)

  /** `requests` is the number of follow-up operations, 0 without an output list. */
  datatype Call = Call(device: string, manager: Option<nat>, key: Key, hook: bool, requests: nat)

  /** What a task does to the lock, and what it reads from the auth channel. */
  datatype Io =
    | Subscribe(which: nat)
    | AuthWrite(frameType: nat, index: nat, count: nat)
    | Got(kind: nat, bodyLength: nat)
    | ControlWrite                    // the operation itself
    | HookStart                       // `post_auth` instead of the operation
    | FollowUp                        // any further control write
    | Unsubscribe(which: nat)

  /** The await at which a task is suspended. */
  datatype Pc =
    | New
    | LoggingIn(force: bool)
    | Prelude(step: nat)              // best-effort steps before the subscriptions
    | Subscribing(which: nat)
    | FetchingKey
    | WritingKey(index: nat, count: nat)
    | ReadingKey(seen: nat)
    | FetchingMaterial
    | WritingProof(index: nat, count: nat)
    | ReadingAck
    | InHook
    | Actuating
    | AwaitingReply
    | Reading(request: nat)           // the reply to a follow-up operation
    | Listening                       // the listen window
    | Cleaning(which: nat, outcome: Outcome)
    | Finished(outcome: Outcome)

  /** `past` is the log of the failed first attempt, `first` its outcome; `logins` has one entry for each
      run of `_login`, true if forced; `tried` says whether the current attempt got to the inner `try`; `out`
      names the follow-up operations whose entries are in `follow_up_out`, a list of the caller's. */
  datatype Task = Task(call: Call, pc: Pc, attempt: nat, actuated: bool, tried: bool, first: Option<Outcome>,
                       logins: seq<bool>, past: seq<Io>, log: seq<Io>, out: seq<nat>)

  /** `busy` is `_device_operation_in_progress`; `cached` holds the managers with a token. */
  datatype World = World(busy: map<string, bool>, cached: set<nat>, tasks: seq<Task>)

  /** How an await ends. `Done(n)`: normally, with a message of n fragments to write next where one is
      built (0: it cannot be built). */
  datatype Reply = Done(fragments: nat) | Message(kind: nat, bodyLength: nat, ready: bool) | More | Fails(error: Error)

  const PRELUDE := 5
  const CHANNELS := 4
  const KEY_TRIES := 6
  const KEY_BODY := 33

  predicate Busy(w: World, device: string) {
    device in w.busy && w.busy[device]
  }

  // ---------------------------------------------------------------- inside one attempt

  function Do(t: Task, io: Io, pc: Pc): Task {
    t.(log := t.log + [io], pc := pc)
  }

  /** Leaving the inner `try`: its `finally` starts with the first unsubscription. */
  function Exit(t: Task, outcome: Outcome): Task {
    Do(t, Unsubscribe(0), Cleaning(0, outcome))
  }

  function WriteKey(t: Task, fragments: nat): Task {
    if fragments == 0 then Exit(t, Raised(Failure)) else Do(t, AuthWrite(6, 0, fragments), WritingKey(0, fragments))
  }

  function WriteProof(t: Task, fragments: nat): Task {
    if fragments == 0 then Exit(t, Raised(Failure)) else Do(t, AuthWrite(7, 0, fragments), WritingProof(0, fragments))
  }

  /** All channels tried: the inner `try` begins. */
  function EnterTry(t: Task): Task {
    var u := t.(tried := true);
    match t.call.key
    case Fetched => u.(pc := FetchingKey)
    case Given(n) => WriteKey(u, n)
  }

  /** A message read while waiting for the lock's key. */
  function KeyMessage(t: Task, seen: nat, kind: nat, bodyLength: nat): Task {
    var u := Do(t, Got(kind, bodyLength), t.pc);
    if kind == 6 && bodyLength >= KEY_BODY then u.(pc := FetchingMaterial)
    else if seen + 1 >= KEY_TRIES then Exit(u, Raised(Failure))
    else u.(pc := ReadingKey(seen + 1))
  }

  /** The point of no return. */
  function Actuate(t: Task): Task {
    var u := t.(actuated := true);
    if t.call.hook then Do(u, HookStart, InHook) else Do(u, ControlWrite, Actuating)
  }

  /** The lock's answer to the proof; `ready` is false when the operation cannot be built or encrypted. */
  function Ack(t: Task, kind: nat, bodyLength: nat, ready: bool): Task {
    var u := Do(t, Got(kind, bodyLength), t.pc);
    if kind != 7 || !ready then Exit(u, Raised(Failure)) else Actuate(u)
  }

  /** The next follow-up operation, or the listen window. */
  function NextRead(t: Task, request: nat): Task {
    if request < t.call.requests then Do(t, FollowUp, Reading(request)) else t.(pc := Listening)
  }

  /** An await that ended normally. */
  function Completed(t: Task, n: nat): Task {
    match t.pc
    case FetchingKey => WriteKey(t, n)
    case WritingKey(i, c) =>
      if i + 1 < c then Do(t, AuthWrite(6, i + 1, c), WritingKey(i + 1, c)) else t.(pc := ReadingKey(0))
    case FetchingMaterial => WriteProof(t, n)
    case WritingProof(i, c) =>
      if i + 1 < c then Do(t, AuthWrite(7, i + 1, c), WritingProof(i + 1, c)) else t.(pc := ReadingAck)
    case InHook => Exit(t, Returned)
    case Actuating => t.(pc := AwaitingReply)
    case AwaitingReply => NextRead(t, 0)
    case Reading(k) => NextRead(t.(out := t.out + [k]), k + 1)
    case Listening => Exit(t, Returned)
    case _ => t
  }

  /** An auth message was read. */
  function Heard(t: Task, kind: nat, bodyLength: nat, ready: bool): Task {
    match t.pc
    case ReadingKey(seen) => KeyMessage(t, seen, kind, bodyLength)
    case ReadingAck => Ack(t, kind, bodyLength, ready)
    case _ => t
  }

  /** A step in the inner `try`. */
  function InTry(t: Task, r: Reply): Task {
    match r
    case Fails(e) => Exit(t, Raised(e))
    case Message(kind, n, ready) => Heard(t, kind, n, ready)
    case More => Do(t, FollowUp, t.pc)
    case Done(n) => Completed(t, n)
  }

  /** The steps after which the task is still in the session body. */
  function Proceed(t: Task, r: Reply): Task {
    match t.pc
    case Prelude(k) => if k + 1 < PRELUDE then t.(pc := Prelude(k + 1)) else Do(t, Subscribe(0), Subscribing(0))
    case Subscribing(k) => if k + 1 < CHANNELS then Do(t, Subscribe(k + 1), Subscribing(k + 1)) else EnterTry(t)
    case Cleaning(k, outcome) => Do(t, Unsubscribe(k + 1), Cleaning(k + 1, outcome))
    case _ => InTry(t, r)
  }

  // ---------------------------------------------------------------- the wrapper and the busy flag

  predicate Inside(pc: Pc) {
    !pc.New? && !pc.LoggingIn? && !pc.Finished?
  }

  /** The reply that ends the session body: cancelled before the inner `try` or while cleaning up, or
      cleaned up. `None` while the body goes on. */
  function Leaves(t: Task, r: Reply): Option<Outcome> {
    match t.pc
    case Prelude(_) => if r == Fails(Cancelled) then Some(Raised(Cancelled)) else None
    case Subscribing(_) => if r == Fails(Cancelled) then Some(Raised(Cancelled)) else None
    case Cleaning(k, outcome) =>
      if r == Fails(Cancelled) then Some(Raised(Cancelled)) else if k + 1 >= CHANNELS then Some(outcome) else None
    case _ => None
  }

  /** `get_token` runs `_login` when forced or when nothing is cached. */
  function Login(w: World, t: Task, force: bool): Task {
    var runs := t.call.manager.Some? && (force || t.call.manager.value !in w.cached);
    t.(pc := LoggingIn(force), logins := t.logins + if runs then [force] else [])
  }

  /** The check and the setting of the flag, without an await between them. */
  function Enter(w: World, i: nat, t: Task): World
    requires i < |w.tasks|
  {
    if Busy(w, t.call.device) then
      w.(tasks := w.tasks[i := t.(pc := Finished(Raised(InProgress)))])
    else
      w.(busy := w.busy[t.call.device := true],
         tasks := w.tasks[i := t.(pc := Prelude(0), actuated := false)])
  }

  predicate CanRetry(t: Task, outcome: Outcome) {
    t.call.manager.Some? && outcome == Raised(Code108) && !t.actuated && t.attempt < 1
  }

  /** What a second attempt starts from. */
  function Second(t: Task, outcome: Outcome): Task {
    t.(attempt := t.attempt + 1, first := Some(outcome), past := t.log, log := [], tried := false)
  }

  /** The wrapper, once an attempt is over: a second attempt, or the outcome to the caller. */
  function Decide(w: World, i: nat, t: Task, outcome: Outcome): World
    requires i < |w.tasks|
  {
    var u :=
      if CanRetry(t, outcome) then Login(w, Second(t, outcome), true)
      else t.(pc := Finished(outcome));
    w.(tasks := w.tasks[i := u])
  }

  /** The outer `finally` clears the flag. */
  function Leave(w: World, i: nat, t: Task, outcome: Outcome): World
    requires i < |w.tasks|
  {
    Decide(w.(busy := w.busy[t.call.device := false]), i, t, outcome)
  }

  function NewTask(call: Call): Task {
    Task(call, New, 0, false, false, None, [], [], [], [])
  }

  datatype Action =
    | Spawn(call: Call)
    | Resume(task: nat, reply: Reply)
    | Cache(manager: nat)             // a login by someone else, or by a thread whose task is gone

  /** Which replies an await can give: reads give messages, a burst or listen window may write more, and
      anything may fail. */
  predicate Fits(pc: Pc, r: Reply) {
    match r
    case Message(_, _, _) => pc.ReadingKey? || pc.ReadingAck?
    case More => pc == Listening || pc == InHook
    case Done(_) => !pc.ReadingKey? && !pc.ReadingAck?
    case Fails(e) => !pc.New? && e != InProgress
  }

  predicate Can(w: World, a: Action) {
    match a
    case Spawn(_) => true
    case Cache(_) => true
    case Resume(i, r) => i < |w.tasks| && !w.tasks[i].pc.Finished? && Fits(w.tasks[i].pc, r)
  }

  function Act(w: World, a: Action): World
    requires Can(w, a)
  {
    match a
    case Spawn(call) => w.(tasks := w.tasks + [NewTask(call)])
    case Cache(manager) => w.(cached := w.cached + {manager})
    case Resume(i, r) =>
      var t := w.tasks[i];
      match t.pc
      case New => if t.call.manager.Some? then w.(tasks := w.tasks[i := Login(w, t, false)]) else Enter(w, i, t)
      case LoggingIn(_) =>
        if r.Fails? then w.(tasks := w.tasks[i := t.(pc := Finished(Raised(r.error)))])
        else Enter(w.(cached := w.cached + if t.call.manager.Some? then {t.call.manager.value} else {}), i, t)
      case _ =>
        var outcome := Leaves(t, r);
        if outcome.Some? then Leave(w, i, t, outcome.value) else w.(tasks := w.tasks[i := Proceed(t, r)])
  }

  const EMPTY := World(map[], {}, [])

  predicate CanAll(actions: seq<Action>) {
    actions == [] || (CanAll(actions[..|actions| - 1]) && Can(After(actions[..|actions| - 1]), actions[|actions| - 1]))
  }

  function After(actions: seq<Action>): World {
    if actions == [] then EMPTY else
      var w, a := After(actions[..|actions| - 1]), actions[|actions| - 1];
      if Can(w, a) then Act(w, a) else w
  }
}
