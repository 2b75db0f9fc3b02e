/** `run_authenticated_lock_operation` in its own, imperative form. At each `await` other callers take any
    number of steps; what the code does between two awaits is one step of the machine in module Session,
    so everything proved about that machine holds of this code. */
module SessionRun {
  import opened Bytes
  import opened Session
  import opened SessionSafety
  import SessionExact

  /** What one `await` brings: steps of other tasks, and the reply. */
  datatype Turn = Turn(others: seq<Action>, reply: Reply)

  class Operation {
    const call: Call
    const me: nat
    const extra: nat                   // further control writes, in a listen window or a hook
    const env: nat -> Turn
    var awaits: nat
    var world: World                   // as of the last await
    var pending: Reply                 // how that await ended

    var busy: map<string, bool>        // `_device_operation_in_progress`
    var cached: set<nat>

    var pc: Pc
    var attempt: nat
    var actuated: bool
    var tried: bool
    var first: Option<Outcome>
    var logins: seq<bool>
    var past: seq<Io>
    var log: seq<Io>
    var out: seq<nat>                  // whose entries are in `follow_up_out`

    ghost var actions: seq<Action>

    function State(): Task
      reads this
    {
      Task(call, pc, attempt, actuated, tried, first, logins, past, log, out)
    }

    /** The world at the last await is the outcome of a run of the machine. */
    ghost predicate Valid()
      reads this`world, this`actions
    {
      CanAll(actions) && world == After(actions) && me < |world.tasks|
    }

    /** What the machine makes of the reply. */
    ghost function Due(): World
      requires Can(world, Resume(me, pending))
      reads this`world, this`pending
    {
      Act(world, Resume(me, pending))
    }

    ghost predicate Fitting()
      reads this`world, this`pending, this`actions
    {
      Valid() && Can(world, Resume(me, pending))
    }

    /** The code is in the middle of a machine step; all that is left of it is to bring this task to `u`. */
    ghost predicate Mid(u: Task)
      reads this`world, this`pending, this`actions, this`busy, this`cached
    {
      Fitting() && Due() == World(busy, cached, world.tasks[me := u])
    }

    /** The task as the others see it is the task as it is. */
    ghost predicate Synced()
      reads this
    {
      Fitting() && world.busy == busy && world.cached == cached && world.tasks[me] == State()
    }

    constructor (history: seq<Action>, call: Call, extra: nat, env: nat -> Turn)
      requires CanAll(history)
      ensures Synced() && pc == New && pending == Done(0) && attempt == 0 && this.call == call
    {
      this.call, this.extra, this.env, awaits := call, extra, env, 0;
      var before := After(history);
      me := |before.tasks|;
      world, pending := before.(tasks := before.tasks + [NewTask(call)]), Done(0);
      busy, cached := before.busy, before.cached;
      pc, attempt, actuated, tried, first := New, 0, false, false, None;
      logins, past, log, out := [], [], [], [];
      actions := history + [Spawn(call)];
      new;
      hide CanAll, After, Act;
      Spawned(history, call);
    }

    /** Makes a machine step known to the others. */
    method Commit()
      requires Mid(State())
      modifies this`world, this`actions
      ensures Valid() && world == old(Due()) && world.tasks[me] == State() && world.busy == busy
      ensures world.cached == cached
    {
      hide Act, Can;
      world := Act(world, Resume(me, pending));
      ghost var more := actions + [Resume(me, pending)];
      assert more[..|actions|] == actions;
      actions := more;
    }

    /** One step of another task, if it is possible. */
    method Other(a: Action)
      requires Valid() && world.tasks[me] == State()
      modifies this`world, this`actions
      ensures Valid() && world.tasks[me] == State()
    {
      if Can(world, a) && !(a.Resume? && a.task == me) {
        OtherTasksKeep(world, a, me);
        hide Act, Can;
        world := Act(world, a);
        ghost var more := actions + [a];
        assert more[..|actions|] == actions;
        actions := more;
      }
    }

    /** An `await`: others run, then the reply is here. */
    method Await()
      requires Mid(State()) && !pc.Finished?
      modifies this`world, this`actions, this`busy, this`cached, this`pending, this`awaits
      ensures Synced()
    {
      hide Act, CanAll, After;
      Commit();
      var turn := env(awaits);
      awaits := awaits + 1;
      for k := 0 to |turn.others|
        invariant Valid() && world.tasks[me] == State()
      {
        Other(turn.others[k]);
      }
      busy, cached := world.busy, world.cached;
      pending := if Fits(pc, turn.reply) then turn.reply
                 else if pc.ReadingKey? || pc.ReadingAck? then Message(0, 0, true)
                 else Done(0);
    }

    // -------------------------------------------------------------- the inner `try`

    /** An await in the inner `try` that gives nothing but its end, or an exception. */
    method AwaitDone() returns (failed: Option<Error>, n: nat)
      requires Mid(State()) && InTryBody(pc) && !pc.ReadingKey? && !pc.ReadingAck?
      modifies this`world, this`actions, this`busy, this`cached, this`pending, this`awaits
      ensures failed.Some? ==> Mid(Exit(State(), Raised(failed.value)))
      ensures failed == None ==> Mid(Completed(State(), n))
    {
      hide CanAll, After, Completed, Heard, Act;
      Await();
      n := 0;
      if pending.Fails? {
        failed := Some(pending.error);
      } else {
        failed := None;
        if pending.Done? {
          n := pending.fragments;
        } else {
          pending := Done(n);
        }
      }
      ActInside(world, me, pending);
    }

    /** An await for an auth message. */
    method AwaitMessage() returns (failed: Option<Error>, kind: nat, bodyLength: nat, ready: bool)
      requires Mid(State()) && (pc.ReadingKey? || pc.ReadingAck?)
      modifies this`world, this`actions, this`busy, this`cached, this`pending, this`awaits
      ensures failed.Some? ==> Mid(Exit(State(), Raised(failed.value)))
      ensures failed == None ==> Mid(Heard(State(), kind, bodyLength, ready))
    {
      hide CanAll, After, Completed, Heard, Act;
      Await();
      ActInside(world, me, pending);
      if pending.Fails? {
        return Some(pending.error), 0, 0, false;
      }
      return None, pending.kind, pending.bodyLength, pending.ready;
    }

    /** What the machine does after `index` fragments. */
    function AfterFragments(t: Task, key: bool, index: nat, count: nat): Task {
      if index < count then Do(t, AuthWrite(if key then 6 else 7, index, count), Writing(key, index, count))
      else t.(pc := if key then ReadingKey(0) else ReadingAck)
    }

    method WriteFragment(key: bool, index: nat, count: nat) returns (failed: Option<Error>)
      requires index < count && Mid(AfterFragments(State(), key, index, count))
      modifies this`log, this`pc, this`world, this`actions, this`busy, this`cached, this`pending, this`awaits
      ensures failed.Some? ==> Mid(Exit(State(), Raised(failed.value)))
      ensures failed == None ==> Mid(AfterFragments(State(), key, index + 1, count))
    {
      hide Mid, Exit;
      var unused;
      log := log + [AuthWrite(if key then 6 else 7, index, count)];
      pc := Writing(key, index, count);
      failed, unused := AwaitDone();
    }

    /** `write_auth_message`: one write for each fragment. */
    method WriteAuthMessage(key: bool, count: nat) returns (failed: Option<Error>)
      requires count > 0 && Mid(AfterFragments(State(), key, 0, count))
      modifies this`log, this`pc, this`world, this`actions, this`busy, this`cached, this`pending, this`awaits
      ensures failed.Some? ==> Mid(Exit(State(), Raised(failed.value)))
      ensures failed == None ==> Mid(AfterFragments(State(), key, count, count))
    {
      hide Mid, Exit, AfterFragments;
      for index := 0 to count
        invariant Mid(AfterFragments(State(), key, index, count))
      {
        failed := WriteFragment(key, index, count);
        if failed.Some? {
          return;
        }
      }
      failed := None;
    }

    /** What the machine does after `seen` messages without the lock's key. */
    function AfterMessages(t: Task, seen: nat): Task {
      if seen < KEY_TRIES then t.(pc := ReadingKey(seen)) else Exit(t, Raised(Failure))
    }

    method ReadMessage(seen: nat) returns (failed: Option<Error>, found: bool)
      requires seen < KEY_TRIES && Mid(AfterMessages(State(), seen))
      modifies this`log, this`pc, this`world, this`actions, this`busy, this`cached, this`pending, this`awaits
      ensures failed.Some? ==> Mid(Exit(State(), Raised(failed.value)))
      ensures failed == None ==>
                Mid(if found then State().(pc := FetchingMaterial) else AfterMessages(State(), seen + 1))
    {
      hide Mid;
      pc := ReadingKey(seen);
      var kind, bodyLength, ready;
      failed, kind, bodyLength, ready := AwaitMessage();
      found := false;
      if failed == None {
        log := log + [Got(kind, bodyLength)];
        found := kind == 6 && bodyLength >= KEY_BODY;
      }
    }

    /** Waits for the lock's key, six messages long. */
    method ReadLockKey() returns (failed: Option<Error>)
      requires Mid(AfterMessages(State(), 0))
      modifies this`log, this`pc, this`world, this`actions, this`busy, this`cached, this`pending, this`awaits
      ensures failed.Some? ==> Mid(Exit(State(), Raised(failed.value)))
      ensures failed == None ==> Mid(State().(pc := FetchingMaterial))
    {
      hide Mid, Exit;
      var found;
      for seen := 0 to KEY_TRIES
        invariant Mid(AfterMessages(State(), seen))
      {
        failed, found := ReadMessage(seen);
        if failed.Some? || found {
          return;
        }
      }
      return Some(Failure);
    }

    /** Reads the answer to the proof, and builds the operation. */
    method ReadAnswer() returns (failed: Option<Error>)
      requires Mid(State().(pc := ReadingAck))
      modifies this`log, this`pc, this`world, this`actions, this`busy, this`cached, this`pending, this`awaits
      ensures failed.Some? ==> Mid(Exit(State(), Raised(failed.value)))
      ensures failed == None ==> Mid(Actuate(State()))
    {
      hide Mid;
      pc := ReadingAck;
      var kind, bodyLength, ready;
      failed, kind, bodyLength, ready := AwaitMessage();
      if failed.Some? {
        return;
      }
      log := log + [Got(kind, bodyLength)];
      if kind != 7 || !ready {
        return Some(Failure);
      }
    }

    /** The cloud's public key, or the one given, sent to the lock; then the lock's own key. */
    method ExchangeKeys() returns (failed: Option<Error>)
      requires Mid(EnterTry(State()))
      modifies this`tried, this`log, this`pc, this`world, this`actions, this`busy, this`cached, this`pending
      modifies this`awaits
      ensures failed.Some? ==> Mid(Exit(State(), Raised(failed.value)))
      ensures failed == None ==> Mid(State().(pc := FetchingMaterial))
    {
      hide Mid;
      tried := true;
      var fragments;
      if call.key.Fetched? {
        pc := FetchingKey;
        failed, fragments := AwaitDone();
        if failed.Some? {
          return;
        }
      } else {
        fragments := call.key.fragments;
      }
      if fragments == 0 {
        return Some(Failure);
      }
      failed := WriteAuthMessage(true, fragments);
      if failed.Some? {
        return;
      }
      failed := ReadLockKey();
    }

    /** Session material from the cloud, and the proof made of it. */
    method Prove() returns (failed: Option<Error>)
      requires Mid(State().(pc := FetchingMaterial))
      modifies this`log, this`pc, this`world, this`actions, this`busy, this`cached, this`pending, this`awaits
      ensures failed.Some? ==> Mid(Exit(State(), Raised(failed.value)))
      ensures failed == None ==> Mid(Actuate(State()))
    {
      hide Mid;
      pc := FetchingMaterial;
      var fragments;
      failed, fragments := AwaitDone();
      if failed.Some? {
        return;
      }
      if fragments == 0 {
        return Some(Failure);
      }
      failed := WriteAuthMessage(false, fragments);
      if failed.Some? {
        return;
      }
      failed := ReadAnswer();
    }

    /** The operation's control write. */
    method WriteOperation() returns (failed: Option<Error>)
      requires Mid(Do(State(), ControlWrite, Actuating))
      modifies this`log, this`pc, this`world, this`actions, this`busy, this`cached, this`pending, this`awaits
      ensures failed.Some? ==> Mid(Exit(State(), Raised(failed.value)))
      ensures failed == None ==> Mid(State().(pc := AwaitingReply))
    {
      hide Mid, Exit, NextRead;
      var unused;
      log := log + [ControlWrite];
      pc := Actuating;
      failed, unused := AwaitDone();
    }

    /** The write, and the wait for an answer, which may time out. */
    method SendOperation() returns (failed: Option<Error>)
      requires Mid(Do(State(), ControlWrite, Actuating))
      modifies this`log, this`pc, this`world, this`actions, this`busy, this`cached, this`pending, this`awaits
      ensures failed.Some? ==> Mid(Exit(State(), Raised(failed.value)))
      ensures failed == None ==> Mid(NextRead(State(), 0))
    {
      hide Mid, Exit, NextRead, Do;
      failed := WriteOperation();
      if failed.Some? {
        return;
      }
      pc := AwaitingReply;
      var unused;
      failed, unused := AwaitDone();
    }

    /** One follow-up operation: its write, and its entry once it is answered or given up. */
    method OneRead(request: nat) returns (failed: Option<Error>)
      requires Mid(Do(State(), FollowUp, Reading(request)))
      modifies this`log, this`pc, this`out, this`world, this`actions, this`busy, this`cached, this`pending, this`awaits
      ensures failed.Some? ==> Mid(Exit(State(), Raised(failed.value)))
      ensures failed == None ==> Mid(NextRead(State(), request + 1))
    {
      hide Mid, Exit, NextRead;
      var unused;
      log := log + [FollowUp];
      pc := Reading(request);
      failed, unused := AwaitDone();
      if failed == None {
        out := out + [request];
      }
    }

    /** The follow-up burst. */
    method FollowUps() returns (failed: Option<Error>)
      requires Mid(NextRead(State(), 0))
      modifies this`log, this`pc, this`out, this`world, this`actions, this`busy, this`cached, this`pending, this`awaits
      ensures failed.Some? ==> Mid(Exit(State(), Raised(failed.value)))
      ensures failed == None ==> Mid(State().(pc := Listening))
    {
      hide Mid, Exit, Do;
      for request := 0 to call.requests
        invariant Mid(NextRead(State(), request))
      {
        failed := OneRead(request);
        if failed.Some? {
          return;
        }
      }
      failed := None;
    }

    /** The point of no return and all that comes after it. */
    method Operate() returns (failed: Option<Error>)
      requires Mid(Actuate(State()))
      modifies this`actuated, this`log, this`pc, this`out
      modifies this`world, this`actions, this`busy, this`cached, this`pending, this`awaits
      ensures Mid(Exit(State(), if failed == None then Returned else Raised(failed.value)))
    {
      hide Mid, Exit, NextRead;
      actuated := true;
      if call.hook {
        log := log + [HookStart];
        pc := InHook;
      } else {
        failed := SendOperation();
        if failed.Some? {
          return;
        }
        failed := FollowUps();
        if failed.Some? {
          return;
        }
        pc := Listening;
      }
      failed := Talk();
    }

    /** The listen window or the hook: any number of further control writes. */
    method Talk() returns (failed: Option<Error>)
      requires Mid(State()) && (pc == Listening || pc == InHook)
      modifies this`log, this`world, this`actions, this`busy, this`cached, this`pending, this`awaits
      ensures Mid(Exit(State(), if failed == None then Returned else Raised(failed.value)))
    {
      hide Mid, Exit;
      for k := 0 to extra
        invariant Mid(State())
      {
        failed := AwaitMore();
        if failed.Some? {
          return;
        }
        log := log + [FollowUp];
      }
      var unused;
      failed, unused := AwaitDone();
    }

    /** An await after which the code writes once more. */
    method AwaitMore() returns (failed: Option<Error>)
      requires Mid(State()) && (pc == Listening || pc == InHook)
      modifies this`world, this`actions, this`busy, this`cached, this`pending, this`awaits
      ensures failed.Some? ==> Mid(Exit(State(), Raised(failed.value)))
      ensures failed == None ==> Mid(Do(State(), FollowUp, pc))
    {
      hide CanAll, After, Completed, Heard, Act;
      Await();
      if pending.Fails? {
        failed := Some(pending.error);
      } else {
        failed := None;
        pending := More;
      }
      ActInside(world, me, pending);
    }

    // -------------------------------------------------------------- one attempt

    /** The machine is about to leave the session body with this outcome. */
    ghost predicate Leaving(outcome: Outcome)
      reads this
    {
      Fitting() && Due() == Leave(World(busy, cached, world.tasks), me, State(), outcome)
    }

    /** The machine is about to enter the session body. */
    ghost predicate Entering()
      reads this
    {
      Fitting() && Due() == Enter(World(busy, cached, world.tasks), me, State())
    }

    /** The machine is about to decide what follows an attempt. */
    ghost predicate Deciding(outcome: Outcome)
      reads this
    {
      Fitting() && Due() == Decide(World(busy, cached, world.tasks), me, State(), outcome)
    }

    /** An await outside the inner `try`: only a cancellation ends the wait for good. */
    method AwaitShielded() returns (cancelled: bool)
      requires Mid(State()) && (pc.Prelude? || pc.Subscribing? || pc.Cleaning?)
      modifies this`world, this`actions, this`busy, this`cached, this`pending, this`awaits
      ensures Synced() && (cancelled <==> pending == Fails(Cancelled))
      ensures cancelled ==> Leaving(Raised(Cancelled))
      ensures !cancelled && Leaves(State(), pending) == None ==> Mid(Proceed(State(), pending))
      ensures !cancelled && pc.Cleaning? && pc.which + 1 >= CHANNELS ==> Leaving(pc.outcome)
    {
      hide CanAll, After, Proceed, Leave, Act;
      Await();
      cancelled := pending == Fails(Cancelled);
      if Leaves(State(), pending) == None {
        ActInside(world, me, pending);
      } else {
        ActLeaves(world, me, pending);
      }
    }

    /** What the machine does after `done` best-effort steps, and after trying `done` channels. */
    function AfterSteps(t: Task, done: nat): Task {
      if done < PRELUDE then t.(pc := Prelude(done)) else AfterChannels(t, 0)
    }

    function AfterChannels(t: Task, done: nat): Task {
      if done < CHANNELS then Do(t, Io.Subscribe(done), Subscribing(done)) else EnterTry(t)
    }

    method TakeStep(step: nat) returns (cancelled: bool)
      requires step < PRELUDE && Mid(AfterSteps(State(), step))
      modifies this`log, this`pc, this`world, this`actions, this`busy, this`cached, this`pending, this`awaits
      ensures if cancelled then Leaving(Raised(Cancelled)) else Mid(AfterSteps(State(), step + 1))
    {
      hide Mid, Leaving, Synced;
      pc := Prelude(step);
      cancelled := AwaitShielded();
    }

    method TryChannel(which: nat) returns (cancelled: bool)
      requires which < CHANNELS && Mid(AfterChannels(State(), which))
      modifies this`log, this`pc, this`world, this`actions, this`busy, this`cached, this`pending, this`awaits
      ensures if cancelled then Leaving(Raised(Cancelled)) else Mid(AfterChannels(State(), which + 1))
    {
      hide Mid, Leaving, Synced, EnterTry;
      log := log + [Io.Subscribe(which)];
      pc := Subscribing(which);
      cancelled := AwaitShielded();
    }

    /** Best-effort steps, and the subscriptions in the app's order. */
    method Subscribe() returns (cancelled: bool)
      requires Mid(AfterSteps(State(), 0))
      modifies this`log, this`pc, this`world, this`actions, this`busy, this`cached, this`pending, this`awaits
      ensures if cancelled then Leaving(Raised(Cancelled)) else Mid(EnterTry(State()))
    {
      hide Mid, Leaving, EnterTry, Do;
      for step := 0 to PRELUDE
        invariant Mid(AfterSteps(State(), step))
      {
        cancelled := TakeStep(step);
        if cancelled {
          return;
        }
      }
      for which := 0 to CHANNELS
        invariant Mid(AfterChannels(State(), which))
      {
        cancelled := TryChannel(which);
        if cancelled {
          return;
        }
      }
      cancelled := false;
    }

    method GiveUpChannel(which: nat, outcome: Outcome) returns (cancelled: bool)
      requires which < CHANNELS && Mid(Do(State(), Unsubscribe(which), Cleaning(which, outcome)))
      modifies this`log, this`pc, this`world, this`actions, this`busy, this`cached, this`pending, this`awaits
      ensures cancelled ==> Leaving(Raised(Cancelled))
      ensures !cancelled ==>
                if which + 1 < CHANNELS then Mid(Do(State(), Unsubscribe(which + 1), Cleaning(which + 1, outcome)))
                else Leaving(outcome)
    {
      hide Mid, Leaving, Synced;
      log := log + [Unsubscribe(which)];
      pc := Cleaning(which, outcome);
      cancelled := AwaitShielded();
    }

    /** The `finally` of the inner `try`. */
    method CleanUp(outcome: Outcome) returns (final: Outcome)
      requires Mid(Exit(State(), outcome))
      modifies this`log, this`pc, this`world, this`actions, this`busy, this`cached, this`pending, this`awaits
      ensures Leaving(final)
    {
      hide Mid, Leaving;
      for which := 0 to CHANNELS
        invariant if which < CHANNELS then Mid(Do(State(), Unsubscribe(which), Cleaning(which, outcome)))
                  else Leaving(outcome)
      {
        var cancelled := GiveUpChannel(which, outcome);
        if cancelled {
          return Raised(Cancelled);
        }
      }
      return outcome;
    }

    /** The session body, from the raised flag to where it is lowered again. */
    method Body() returns (outcome: Outcome)
      requires Mid(AfterSteps(State(), 0))
      modifies this`actuated, this`tried, this`log, this`pc, this`out
      modifies this`world, this`actions, this`busy, this`cached, this`pending, this`awaits
      ensures Leaving(outcome)
    {
      hide Mid, Leaving, EnterTry, Exit, Actuate;
      var cancelled := Subscribe();
      if cancelled {
        return Raised(Cancelled);
      }
      var failed := ExchangeKeys();
      if failed == None {
        failed := Prove();
      }
      if failed == None {
        failed := Operate();
      }
      outcome := CleanUp(if failed == None then Returned else Raised(failed.value));
    }

    /** `_run_authenticated_lock_operation_once`. */
    method Once() returns (outcome: Outcome)
      requires Entering()
      modifies this`actuated, this`tried, this`log, this`pc, this`out
      modifies this`world, this`actions, this`busy, this`cached, this`pending, this`awaits
      ensures Deciding(outcome)
    {
      hide CanAll, After, Act, Can;
      if call.device in busy && busy[call.device] {
        return Raised(InProgress);
      }
      RaiseFlag();
      outcome := Body();
      LowerFlag(outcome);
    }

    method RaiseFlag()
      requires Entering() && !(call.device in busy && busy[call.device])
      modifies this`busy, this`actuated, this`pc
      ensures Mid(AfterSteps(State(), 0))
    {
      hide CanAll, After, Act, Can;
      busy := busy[call.device := true];
      actuated := false;
      pc := Prelude(0);
    }

    method LowerFlag(outcome: Outcome)
      requires Leaving(outcome)
      modifies this`busy
      ensures Deciding(outcome)
    {
      hide CanAll, After, Act, Can, Decide;
      busy := busy[call.device := false];
    }

    /** `get_token`: `_login` runs when forced or when the manager has no token. */
    method StartLogin(manager: nat, force: bool)
      requires call.manager == Some(manager) && Mid(Login(World(busy, cached, world.tasks), State(), force))
      modifies this`logins, this`pc
      ensures Mid(State()) && pc == LoggingIn(force)
    {
      hide Mid;
      logins := logins + if force || manager !in cached then [force] else [];
      pc := LoggingIn(force);
    }

    /** A login that succeeds leaves a token with the manager. */
    method EndLogin(manager: nat) returns (failed: Option<Error>)
      requires call.manager == Some(manager) && Synced() && pc.LoggingIn?
      modifies this`cached
      ensures failed.Some? ==> Mid(State().(pc := Finished(Raised(failed.value))))
      ensures failed == None ==> Entering()
    {
      ActLogin(world, me, pending);
      hide CanAll, After, Act, Can, Enter;
      if pending.Fails? {
        return Some(pending.error);
      }
      cached := cached + {manager};
      return None;
    }

    /** A cloud phase that builds a signer, in a worker thread. */
    method BuildSigner(manager: nat, force: bool) returns (failed: Option<Error>)
      requires call.manager == Some(manager) && Mid(Login(World(busy, cached, world.tasks), State(), force))
      modifies this`logins, this`pc, this`world, this`actions, this`busy, this`cached, this`pending, this`awaits
      ensures failed.Some? ==> Mid(State().(pc := Finished(Raised(failed.value))))
      ensures failed == None ==> Entering()
    {
      hide Mid, Synced, Entering, Login;
      StartLogin(manager, force);
      Await();
      failed := EndLogin(manager);
    }

    /** The signer of the first attempt. */
    method FirstSigner() returns (failed: Option<Error>)
      requires Synced() && pc == New
      modifies this`logins, this`pc, this`world, this`actions, this`busy, this`cached, this`pending, this`awaits
      ensures failed.Some? ==> Mid(State().(pc := Finished(Raised(failed.value))))
      ensures failed == None ==> Entering()
    {
      hide CanAll, After, Act, Can, Enter, Login;
      ActNew(world, me, pending);
      failed := None;
      if call.manager.Some? {
        failed := BuildSigner(call.manager.value, false);
      }
    }

    /** The signer of the second attempt: a forced login. */
    method SecondSigner(outcome: Outcome) returns (failed: Option<Error>)
      requires Deciding(outcome) && CanRetry(State(), outcome)
      modifies this`attempt, this`first, this`past, this`log, this`tried, this`logins, this`pc
      modifies this`world, this`actions, this`busy, this`cached, this`pending, this`awaits
      ensures attempt == old(attempt) + 1
      ensures failed.Some? ==> Mid(State().(pc := Finished(Raised(failed.value))))
      ensures failed == None ==> Entering()
    {
      hide CanAll, After, Act, Can, Enter, Decide, Login;
      Decided(World(busy, cached, world.tasks), me, State(), outcome);
      attempt, first, past, log, tried := attempt + 1, Some(outcome), log, [], false;
      failed := BuildSigner(call.manager.value, true);
    }

    /** `run_authenticated_lock_operation`: when it ends, the task is finished with this outcome in a world that
        a run of the machine leads to. */
    method Run() returns (outcome: Outcome)
      requires Synced() && pc == New
      modifies this
      ensures Valid() && world.tasks[me] == State() && pc == Finished(outcome)
      ensures world.busy == busy && world.cached == cached
    {
      hide Entering, Deciding, Mid, Synced, Valid;
      var failed := FirstSigner();
      while failed == None
        invariant if failed == None then Entering() else Mid(State().(pc := Finished(Raised(failed.value))))
        decreases if failed == None then 1 else 0, 1 - attempt
      {
        outcome := Once();
        if !CanRetry(State(), outcome) {
          OutcomeDue(outcome);
          Finish(outcome);
          return;
        }
        failed := SecondSigner(outcome);
      }
      outcome := Raised(failed.value);
      Finish(outcome);
    }

    lemma OutcomeDue(outcome: Outcome)
      requires Deciding(outcome) && !CanRetry(State(), outcome)
      ensures Mid(State().(pc := Finished(outcome)))
    {
      hide CanAll, After, Act, Can, Login;
    }

    /** The call returns or raises. */
    method Finish(outcome: Outcome)
      requires Mid(State().(pc := Finished(outcome)))
      modifies this`pc, this`world, this`actions
      ensures Valid() && world.tasks[me] == State() && pc == Finished(outcome)
      ensures world.busy == busy && world.cached == cached
    {
      hide CanAll, After, Act, Can;
      pc := Finished(outcome);
      Commit();
    }
  }

  lemma ActLogin(w: World, i: nat, r: Reply)
    requires Can(w, Resume(i, r)) && w.tasks[i].pc.LoggingIn? && w.tasks[i].call.manager.Some?
    ensures r.Fails? ==> Act(w, Resume(i, r)) == w.(tasks := w.tasks[i := w.tasks[i].(pc := Finished(Raised(r.error)))])
    ensures var t := w.tasks[i];
            !r.Fails? ==> Act(w, Resume(i, r)) == Enter(w.(cached := w.cached + {t.call.manager.value}), i, t)
  {}

  lemma ActNew(w: World, i: nat, r: Reply)
    requires Can(w, Resume(i, r)) && w.tasks[i].pc.New?
    ensures var t := w.tasks[i];
            Act(w, Resume(i, r)) ==
            if t.call.manager.Some? then w.(tasks := w.tasks[i := Login(w, t, false)]) else Enter(w, i, t)
  {}

  lemma Decided(w: World, i: nat, t: Task, outcome: Outcome)
    requires i < |w.tasks|
    ensures CanRetry(t, outcome) ==>
              Decide(w, i, t, outcome) == w.(tasks := w.tasks[i := Login(w, Second(t, outcome), true)])
    ensures !CanRetry(t, outcome) ==> Decide(w, i, t, outcome) == w.(tasks := w.tasks[i := t.(pc := Finished(outcome))])
  {}

  predicate InTryBody(pc: Pc) {
    Inside(pc) && !pc.Prelude? && !pc.Subscribing? && !pc.Cleaning?
  }

  lemma Spawned(history: seq<Action>, call: Call)
    requires CanAll(history)
    ensures var more, w := history + [Spawn(call)], After(history);
            CanAll(more) && After(more) == w.(tasks := w.tasks + [NewTask(call)])
  {
    assert (history + [Spawn(call)])[..|history|] == history;
  }

  function Writing(key: bool, index: nat, count: nat): Pc {
    if key then WritingKey(index, count) else WritingProof(index, count)
  }

  lemma OtherTasksKeep(w: World, a: Action, me: nat)
    requires me < |w.tasks| && Can(w, a) && !(a.Resume? && a.task == me)
    ensures |Act(w, a).tasks| >= |w.tasks| && Act(w, a).tasks[me] == w.tasks[me]
  {
    hide Proceed, Leaves, Login, CanRetry;
  }

  lemma ActInside(w: World, i: nat, r: Reply)
    requires Can(w, Resume(i, r)) && Inside(w.tasks[i].pc) && Leaves(w.tasks[i], r) == None
    ensures Act(w, Resume(i, r)) == w.(tasks := w.tasks[i := Proceed(w.tasks[i], r)])
  {}

  lemma ActLeaves(w: World, i: nat, r: Reply)
    requires Can(w, Resume(i, r)) && Inside(w.tasks[i].pc) && Leaves(w.tasks[i], r).Some?
    ensures Act(w, Resume(i, r)) == Leave(w, i, w.tasks[i], Leaves(w.tasks[i], r).value)
  {}

  /** One call, started after any history of other callers and interleaved with them in any way: what it did
      to the lock, and how it ended. It never does what is not its own; it returns only when it did its own; and
      it gives up on code 108 before that only after a forced login. */
  method LockOperation(history: seq<Action>, call: Call, extra: nat, env: nat -> Turn)
    returns (outcome: Outcome, past: seq<Io>, log: seq<Io>, logins: seq<bool>, tried: bool, out: seq<nat>)
    requires CanAll(history)
    ensures var all := past + log;
            && (forall p, q | 0 <= p < |all| && 0 <= q < |all| && IsActuation(all[p]) && IsActuation(all[q]) :: p == q)
            && (forall p | 0 <= p < |log| && IsActuation(log[p]) :: Authenticated(log[..p]))
    ensures forall p | 0 <= p < |past + log| ::
              ((past + log)[p].ControlWrite? ==> !call.hook) && ((past + log)[p].HookStart? ==> call.hook)
    ensures outcome == Returned ==> (if call.hook then HookStart else ControlWrite) in log
    ensures outcome == Raised(Code108) && call.manager.Some? && tried ==>
              true in logins || exists p | 0 <= p < |log| :: log[p].ControlWrite? || log[p].HookStart?
    ensures Inert(past) && |logins| <= 2 && (|logins| == 2 ==> !logins[0])
    ensures SubscribedFirst(log)
    ensures out == Indices(|out|) && (outcome == Returned ==> |out| == if call.hook then 0 else call.requests)
    ensures tried ==>
              EndsWithUnsubscriptions(log, CHANNELS)
              || (outcome == Raised(Cancelled) && exists n | 1 <= n <= CHANNELS :: EndsWithUnsubscriptions(log, n))
  {
    hide CanAll, After, Authenticated;
    var operation := new Operation(history, call, extra, env);
    outcome := operation.Run();
    past, log, logins, tried := operation.past, operation.log, operation.logins, operation.tried;
    out := operation.out;
    OneEntryEach(operation.actions, operation.me);
    ActuatesOnce(operation.actions, operation.me);
    RetryOnlyBeforeActuation(operation.actions, operation.me);
    SubscriptionsBracket(operation.actions, operation.me);
    NoEarlierActuation(operation.actions, operation.me);
    SessionExact.ActuatesItsOwn(operation.actions, operation.me);
    if outcome == Returned {
      ReturnedActs(operation.actions, operation.me);
    }
    if outcome == Raised(Code108) && call.manager.Some? && tried
       && forall p | 0 <= p < |log| :: !log[p].ControlWrite? && !log[p].HookStart? {
      SessionExact.TriedTwice(operation.actions, operation.me);
    }
  }

  lemma ReturnedActs(actions: seq<Action>, i: nat)
    requires CanAll(actions) && i < |After(actions).tasks| && After(actions).tasks[i].pc == Finished(Returned)
    ensures var t := After(actions).tasks[i]; (if t.call.hook then HookStart else ControlWrite) in t.log
  {
    hide CanAll, After, Authenticated;
    var handshake, n := SessionExact.ReturnedLog(actions, i);
    var t := After(actions).tasks[i];
    assert t.log[|handshake|] == if t.call.hook then HookStart else ControlWrite;
  }

  lemma NoEarlierActuation(actions: seq<Action>, i: nat)
    requires CanAll(actions) && i < |After(actions).tasks|
    ensures Inert(After(actions).tasks[i].past)
  {
    hide CanAll, After, Sound, LoginsOk, InsideOk, Tidied;
    Reachable(actions);
  }
}
