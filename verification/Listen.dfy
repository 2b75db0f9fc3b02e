/** The listen window after the operation (session.py): two notification queues forwarded to `on_report`,
    with a keepalive whenever the last one is twenty seconds old. */
module Listen {
  import opened Bytes
  import opened Burst

  /** A report notification: ff64 or ff92. */
  datatype Push = Push(time: int, channel: string, data: bytes)

  datatype Report = Report(channel: string, data: bytes)

  const CONTROL := "ff62"
  const KEEPALIVE_INTERVAL := 20000
  const KEEPALIVE_OPCODE: byte := 0x2F

  /** All but the answers to keepalives. */
  function Kept(plains: seq<bytes>): seq<bytes> {
    if plains == [] then [] else
      var front, last := Kept(plains[..|plains| - 1]), plains[|plains| - 1];
      if last != [] && last[0] == 0x2F then front else front + [last]
  }

  function OnControl(reports: seq<Report>): seq<bytes> {
    if reports == [] then [] else
      var front, last := OnControl(reports[..|reports| - 1]), reports[|reports| - 1];
      if last.channel == "ff62" then front + [last.data] else front
  }

  function OnOthers(reports: seq<Report>): seq<Report> {
    if reports == [] then [] else
      var front, last := OnOthers(reports[..|reports| - 1]), reports[|reports| - 1];
      if last.channel == "ff62" then front else front + [last]
  }

  function Reports(pushes: seq<Push>): seq<Report> {
    seq(|pushes|, i requires 0 <= i < |pushes| => Report(pushes[i].channel, pushes[i].data))
  }

  lemma OneMore(reports: seq<Report>, r: Report)
    ensures OnControl(reports + [r]) == OnControl(reports) + if r.channel == CONTROL then [r.data] else []
    ensures OnOthers(reports + [r]) == OnOthers(reports) + if r.channel == CONTROL then [] else [r]
  {
    assert (reports + [r])[..|reports|] == reports;
  }

  lemma KeptMore(plains: seq<bytes>, p: bytes)
    ensures Kept(plains + [p]) == Kept(plains) + if p != [] && p[0] == KEEPALIVE_OPCODE then [] else [p]
  {
    assert (plains + [p])[..|plains|] == plains;
  }

  /** What one more frame adds to what is forwarded. */
  lemma FrameForwarded(decrypt: bytes -> Option<bytes>, queue: seq<Arrival>, n: nat)
    requires n < |queue|
    ensures Kept(Plain(decrypt, queue[..n + 1])) == Kept(Plain(decrypt, queue[..n])) + Kept(Plain(decrypt, [queue[n]]))
  {
    hide Kept;
    PlainMore(decrypt, queue, n);
    PlainMore(decrypt, [queue[n]], 0);
    assert [queue[n]][..1] == [queue[n]] && [queue[n]][..0] == [];
    var all, one := Plain(decrypt, queue[..n]), Plain(decrypt, [queue[n]]);
    if one == [] {
      assert Kept([]) == [] by { KeptNothing(); }
      assert all + [] == all;
    } else {
      KeptMore(all, one[0]);
      KeptMore([], one[0]);
      assert [] + [one[0]] == one;
      KeptNothing();
    }
  }

  lemma FrameTaken(decrypt: bytes -> Option<bytes>, queue: seq<Arrival>, n: nat)
    requires n < |queue| && !Undecryptable(decrypt, queue[..n])
    ensures Undecryptable(decrypt, [queue[n]]) <==> Undecryptable(decrypt, queue[..n + 1])
    ensures Undecryptable(decrypt, [queue[n]]) ==> Undecryptable(decrypt, queue)
  {
    forall i | 0 <= i < n ensures queue[..n + 1][i] == queue[..n][i] {}
    assert queue[..n + 1][n] == [queue[n]][0];
  }

  lemma KeptNothing()
    ensures Kept([]) == []
  {}

  lemma PushForwarded(pushes: seq<Push>, m: nat)
    requires m < |pushes|
    ensures Reports(pushes[..m + 1]) == Reports(pushes[..m]) + Reports([pushes[m]])
  {}

  lemma PlainMore(decrypt: bytes -> Option<bytes>, queue: seq<Arrival>, n: nat)
    requires n < |queue|
    ensures Plain(decrypt, queue[..n + 1]) == Plain(decrypt, queue[..n]) +
              (if |queue[n].frame| < 2 || decrypt(queue[n].frame[1..]) == None then []
               else [decrypt(queue[n].frame[1..]).value])
  {
    assert queue[..n + 1] == queue[..n] + [queue[n]];
    PlainConcat(decrypt, queue[..n], [queue[n]]);
    assert [queue[n]][1..] == [];
  }

  /** Consecutive times are at most `gap` apart. */
  predicate Spaced(times: seq<int>, gap: int) {
    forall i | 0 < i < |times| :: times[i] - times[i - 1] <= gap
  }

  function Last(start: int, times: seq<int>): int {
    if times == [] then start else times[|times| - 1]
  }

  /** ... and at least `gap`. */
  predicate Apart(times: seq<int>, gap: int) {
    forall i | 0 < i < |times| :: times[i] - times[i - 1] >= gap
  }

  lemma ApartMore(start: int, times: seq<int>, t: int, gap: int)
    requires Apart([start] + times, gap) && t - Last(start, times) >= gap
    ensures Apart([start] + (times + [t]), gap)
  {
    var a, b := [start] + times, [start] + (times + [t]);
    forall i | 0 < i < |b| ensures b[i] - b[i - 1] >= gap {
      if i < |a| {
        assert a[i] - a[i - 1] >= gap;
      }
    }
  }

  lemma SpacedMore(start: int, times: seq<int>, t: int, gap: int)
    requires Spaced([start] + times, gap) && t - Last(start, times) <= gap
    ensures Spaced([start] + times + [t], gap) && [start] + (times + [t]) == [start] + times + [t]
  {
    var a, b := [start] + times, [start] + times + [t];
    forall i | 0 < i < |b| ensures b[i] - b[i - 1] <= gap {
      if i < |a| {
        assert a[i] - a[i - 1] <= gap;
      }
    }
  }

  function Later(a: int, b: int): int {
    if a < b then b else a
  }

  function Sooner(a: int, b: int): int {
    if a < b then a else b
  }

  class Listener {
    const decrypt: bytes -> Option<bytes>
    const latency: nat                         // what a write takes
    var clock: int
    var control: seq<Arrival>                  // what is in the control queue or will get there
    var pushes: seq<Push>                      // and in the report queue
    var reported: seq<Report>                  // the calls of `on_report`
    var keepalives: seq<int>                   // when keepalives were written

    /** Nothing that is still to be taken arrives before `time`. */
    predicate NothingBefore(time: int)
      reads this
    {
      (control != [] ==> control[0].time >= time) && (pushes != [] ==> pushes[0].time >= time)
    }

    constructor (decrypt: bytes -> Option<bytes>, latency: nat, clock: int, control: seq<Arrival>, pushes: seq<Push>)
      ensures this.decrypt == decrypt && this.latency == latency && this.clock == clock
      ensures this.control == control && this.pushes == pushes && reported == [] && keepalives == []
    {
      this.decrypt, this.latency, this.clock := decrypt, latency, clock;
      this.control, this.pushes, reported, keepalives := control, pushes, [], [];
    }

    /** The control frame that came first; `ok` is false when the codec raises. */
    method TakeControl() returns (ok: bool)
      requires control != []
      modifies this`control, this`reported
      ensures control == old(control)[1..]
      ensures ok <==> !Undecryptable(decrypt, [old(control)[0]])
      ensures ok ==> OnOthers(reported) == OnOthers(old(reported))
      ensures ok ==> OnControl(reported) == OnControl(old(reported)) + Kept(Plain(decrypt, [old(control)[0]]))
    {
      var frame := control[0].frame;
      control := control[1..];
      assert [old(control)[0]][1..] == [];
      if |frame| >= 2 {
        var decoded := decrypt(frame[1..]);
        if decoded == None {
          assert [old(control)[0]][0].frame == frame;
          return false;
        }
        KeptMore([], decoded.value);
        assert [] + [decoded.value] == [decoded.value];
        if decoded.value == [] || decoded.value[0] != KEEPALIVE_OPCODE {
          OneMore(reported, Report(CONTROL, decoded.value));
          reported := reported + [Report(CONTROL, decoded.value)];
        }
      }
      return true;
    }

    method TakePush()
      requires pushes != [] && pushes[0].channel != CONTROL
      modifies this`pushes, this`reported
      ensures pushes == old(pushes)[1..]
      ensures OnControl(reported) == OnControl(old(reported))
      ensures OnOthers(reported) == OnOthers(old(reported)) + Reports([old(pushes)[0]])
    {
      var p := pushes[0];
      pushes := pushes[1..];
      OneMore(reported, Report(p.channel, p.data));
      reported := reported + [Report(p.channel, p.data)];
    }

    /** `asyncio.wait` on both queues: sleeps until a frame is there or until `limit`. When both have one,
        either or both may be done. */
    method WaitBoth(limit: int) returns (gotControl: bool, gotPush: bool)
      requires limit > clock
      modifies this`clock
      ensures old(clock) <= clock <= limit
      ensures gotControl ==> control != []
      ensures gotPush ==> pushes != []
      ensures if gotControl || gotPush then clock < limit
              else clock == limit && NothingBefore(limit)
    {
      var c := if control != [] then Later(clock, control[0].time) else limit;
      var p := if pushes != [] then Later(clock, pushes[0].time) else limit;
      var wake := Sooner(limit, Sooner(c, p));
      clock := wake;
      gotControl, gotPush := c == wake < limit, p == wake < limit;
      if gotControl && gotPush {
        gotControl := *;
        gotPush := *;
        if !gotControl && !gotPush {
          gotControl := true;
        }
      }
    }

    lemma NothingYet(start: int)
      ensures !Undecryptable(decrypt, []) && Kept(Plain(decrypt, [])) == []
      ensures OnControl([]) == [] && OnOthers([]) == [] && Reports([]) == []
      ensures forall gap :: Spaced([start] + [], gap) && Apart([start] + [], gap)
    {}

    /** The window. On a normal return every control frame and every report taken was forwarded, in order on
        each channel, but for frames under two bytes and answers to keepalives, and the window was open for as
        long as it should be; otherwise the codec rejected the last frame taken. The keepalives are never less
        than 20 s apart, and never more than 20.1 s when writes take no time; and then nothing that arrived in
        the window is left behind. */
    method Listen(listenAfter: int) returns (ok: bool, ghost n: nat, ghost m: nat)
      requires listenAfter > 0
      requires forall i | 0 <= i < |pushes| :: pushes[i].channel != CONTROL
      requires reported == [] && keepalives == []
      modifies this
      ensures ok ==> n <= |old(control)| && control == old(control)[n..]
                     && OnControl(reported) == Kept(Plain(decrypt, old(control)[..n]))
      ensures ok ==> !Undecryptable(decrypt, old(control)[..n])
      ensures !ok ==> Undecryptable(decrypt, old(control))
      ensures ok ==> m <= |old(pushes)| && pushes == old(pushes)[m..] && OnOthers(reported) == Reports(old(pushes)[..m])
      ensures Spaced([old(clock)] + keepalives + [clock], 20000 + Later(100, latency))
      ensures Apart([old(clock)] + keepalives, 20000)
      ensures ok ==> clock >= old(clock) + listenAfter
      ensures ok && latency == 0 ==> clock == old(clock) + listenAfter && NothingBefore(clock)
    {
      hide Kept, Plain, OnControl, OnOthers, Reports, Spaced, Apart, Undecryptable;
      var deadline := clock + listenAfter;
      ghost var start := clock;
      NothingYet(start);
      var nextKeepalive := clock + KEEPALIVE_INTERVAL;
      ghost var gap := KEEPALIVE_INTERVAL + Later(100, latency);
      n, m, ok := 0, 0, true;
      while true
        invariant n <= |old(control)| && control == old(control)[n..]
        invariant m <= |old(pushes)| && pushes == old(pushes)[m..]
        invariant OnControl(reported) == Kept(Plain(decrypt, old(control)[..n]))
        invariant OnOthers(reported) == Reports(old(pushes)[..m])
        invariant Spaced([start] + keepalives, gap) && Apart([start] + keepalives, KEEPALIVE_INTERVAL)
        invariant !Undecryptable(decrypt, old(control)[..n])
        invariant nextKeepalive == Last(start, keepalives) + KEEPALIVE_INTERVAL
        invariant clock <= Last(start, keepalives) + gap
        invariant latency == 0 ==> clock <= deadline
        invariant latency == 0 && clock == deadline ==> NothingBefore(clock)
        decreases Later(0, deadline - clock), |control| + |pushes|
      {
        var now := clock;
        var remaining := deadline - now;
        if remaining <= 0 {
          break;
        }
        if now >= nextKeepalive {
          SpacedMore(start, keepalives, now, gap);
          ApartMore(start, keepalives, now, KEEPALIVE_INTERVAL);
          keepalives := keepalives + [now];
          clock := clock + latency;
          nextKeepalive := now + KEEPALIVE_INTERVAL;
        }
        var timeout := Sooner(remaining, Later(100, nextKeepalive - now));
        var gotControl, gotPush := WaitBoth(clock + timeout);
        if gotControl {
          ok := TakeControl();
          FrameTaken(decrypt, old(control), n);
          if !ok {
            break;
          }
          FrameForwarded(decrypt, old(control), n);
          n := n + 1;
        }
        if gotPush {
          TakePush();
          PushForwarded(old(pushes), m);
          m := m + 1;
        }
      }
      SpacedMore(start, keepalives, clock, gap);
    }
  }

  /** The burst and then the window, over one control queue with a consumer: every frame of two bytes or more
      that either takes is used exactly once, as a reply or in a call of `on_report`, in the order of arrival;
      in the window only the answers to keepalives are dropped. */
  method AfterOperation(decrypt: bytes -> Option<bytes>, latency: nat, timeout: int, clock: int, control: seq<Arrival>,
                        pushes: seq<Push>, requests: seq<Request>, listenAfter: int)
    returns (ok: bool, entries: seq<Entry>, reported: seq<bytes>, pushed: seq<Report>, left: seq<Arrival>,
             ghost k: nat, ghost n: nat, ghost m: nat)
    requires listenAfter > 0
    requires forall i | 0 <= i < |pushes| :: pushes[i].channel != "ff62"
    ensures !ok ==> Undecryptable(decrypt, control)
    ensures ok ==> k <= n <= |control| && left == control[n..]
    ensures ok ==>
              Merges(Plain(decrypt, control[..k]) + Kept(Plain(decrypt, control[k..n])), reported, Replies(entries))
    ensures ok ==> m <= |pushes| && pushed == Reports(pushes[..m])
    ensures ok ==> |entries| == |requests| && forall i | 0 <= i < |requests| ::
              entries[i].operation == requests[i].operation
              && (entries[i].reply.Some? ==> Opens(entries[i].reply.value, requests[i].payload))
  {
    hide Serve, Merges, Plain, Kept, OnControl, OnOthers, Replies, Reports, Spaced, Apart;
    entries, reported, pushed, left, k, n, m := [], [], [], [], 0, 0, 0;
    var session := new Session(decrypt, true, latency, timeout, clock, control);
    ok := session.FollowUps(requests);
    if !ok {
      BurstError(decrypt, requests, control, clock, latency, timeout);
      return;
    }
    k := NothingLost(decrypt, requests, control, clock, latency, timeout);
    Paired(decrypt, requests, control, clock, latency, timeout);
    ghost var served := Serve(decrypt, requests, control, clock, latency, timeout).value;
    assert session.out == served.entries && session.reported == served.forwarded;
    var listener := new Listener(decrypt, latency, session.clock, session.control, pushes);
    ghost var more: nat;
    ok, more, m := listener.Listen(listenAfter);
    if !ok {
      assert forall i | 0 <= i < |served.left| :: served.left[i] == control[k + i];
      return;
    }
    n := k + more;
    entries, left := session.out, listener.control;
    reported, pushed := session.reported + OnControl(listener.reported), OnOthers(listener.reported);
    assert control[k..][..more] == control[k..n] && control[k..][more..] == control[n..];
    var window := OnControl(listener.reported);
    MergesAlone(window);
    MergesConcat(Plain(decrypt, control[..k]), session.reported, Replies(entries), window, window, []);
    assert Replies(entries) + [] == Replies(entries);
  }
}
