/** The safety theorem of the voice-pack transfer: what holds in every reachable state when the 8-bit block
    number is not ambiguous. */
module OtaSafety {
  import opened Bytes
  import opened OtaFrames
  import opened OtaReceiver
  import opened OtaSender
  import opened OtaTransfer
  import OtaWindow
  import OtaPacing

  function Acks(back: seq<Report>): nat {
    if back == [] then 0 else (if IsAck(back[0]) then 1 else 0) + Acks(back[1..])
  }

  lemma {:induction false} AcksAppend(back: seq<Report>, r: Report)
    ensures Acks(back + [r]) == Acks(back) + if IsAck(r) then 1 else 0
  {
    if back == [] {
      assert [r][1..] == [];
    } else {
      assert (back + [r])[1..] == back[1..] + [r];
      AcksAppend(back[1..], r);
    }
  }

  function Accepted(s: System): nat {
    |s.lock.origin|
  }

  // ---------------------------------------------------------------- what is ambiguous

  /** The writes of one block. */
  function Parts(p: Setup): nat
    requires Valid(p)
  {
    (SEGMENT_SIZE + p.mtu - 1) / p.mtu
  }

  lemma GroupsUniform(p: Setup)
    requires Valid(p)
    ensures OtaPacing.Uniform(ConfigOf(p), Parts(p))
  {
    hide DataFrames, Prefixed, Chunks;
    Quotient(SEGMENT_SIZE, p.mtu, Parts(p));
    forall i | 0 <= i < |ConfigOf(p).groups| ensures |ConfigOf(p).groups[i]| == Parts(p) {
      ChunksCount(DataFrames(p.blob)[i], p.mtu);
      Quotient(SEGMENT_SIZE, p.mtu, |ConfigOf(p).groups[i]|);
    }
  }

  lemma Times(a: nat, b: nat, m: nat)
    requires a <= b
    ensures a * m <= b * m
  {}

  /** The quotient, rounded up, is the only number that many pieces can be. */
  lemma Quotient(n: nat, m: nat, k: nat)
    requires m > 0 && n > 0
    ensures (n + m - 1) / m > 0
    ensures n <= k * m && (k - 1) * m < n ==> k == (n + m - 1) / m
  {
    var q := (n + m - 1) / m;
    assert n <= q * m && (q - 1) * m < n;
    if k < q {
      Times(k, q - 1, m);
    } else if q < k {
      Times(q, k - 1, m);
    }
  }

  /** How far ahead of the lock first transmissions can be, less one; 256 lost blocks make it ambiguous. */
  predicate Overtakes(p: Setup)
    requires Valid(p)
  {
    OtaWindow.Effective(ConfigOf(p)) > 256 && |Blocks(p.blob)| - p.resumeFrom > 256
  }

  /** How far behind the lock a repeated block can be: at least, and at most. */
  function LeastLag(p: Setup): int
    requires Valid(p)
  {
    p.resumeFrom - p.shift
  }

  function MostLag(p: Setup): int
    requires Valid(p)
  {
    if p.window > LeastLag(p) then p.window else LeastLag(p)
  }

  /** The first positive multiple of 256 that is at least `low`. */
  function FirstMultiple(low: int): (m: int)
    requires low >= 0
    ensures m % 256 == 0 && 0 < m && low <= m < low + 256 + if low == 0 then 1 else 0
  {
    if low == 0 then 256 else (low + 255) / 256 * 256
  }

  /** A repeat can be a multiple of 256 blocks behind. */
  predicate Collides(p: Setup)
    requires Valid(p)
  {
    FirstMultiple(LeastLag(p)) <= MostLag(p)
  }

  predicate Repeats(p: Setup)
    requires Valid(p)
  {
    OtaPacing.Resends(ConfigOf(p), Parts(p))
  }

  /** The number byte identifies the block among all that can arrive. */
  predicate Unambiguous(p: Setup)
    requires Valid(p)
  {
    !Overtakes(p) && !(Repeats(p) && Collides(p))
  }

  // ---------------------------------------------------------------- the invariant

  predicate PacketOk(p: Setup, s: System, q: Packet)
    requires Valid(p)
  {
    && q.block < |DataFrames(p.blob)| && q.frame == DataFrames(p.blob)[q.block]
    && Accepted(s) <= q.high <= Complete(ConfigOf(p), s.snd)
    && if q.again then
         Repeats(p) && q.high == q.block + MostLag(p) && q.high < |DataFrames(p.blob)|
         && q.block + LeastLag(p) <= Accepted(s)
       else
         q.high == q.block + 1 && Accepted(s) <= q.block < Accepted(s) + OtaWindow.Effective(ConfigOf(p))
  }

  /** A FIFO link carries packets in the order of sending. */
  predicate Ordered(a: Packet, b: Packet) {
    a.high <= b.high && (!b.again ==> a.high < b.high)
  }

  predicate LinkOk(p: Setup, s: System)
    requires Valid(p)
  {
    && (forall i | 0 <= i < |s.link| :: PacketOk(p, s, s.link[i]))
    && (forall i, j | 0 <= i < j < |s.link| :: Ordered(s.link[i], s.link[j]))
  }

  predicate LockOk(p: Setup, s: System)
    requires Valid(p)
  {
    && InOrder(s.lock)
    && p.resumeFrom <= Accepted(s) <= |Blocks(p.blob)|
    && s.lock.image == Join(Blocks(p.blob)[..Accepted(s)])
  }

  /** The sender is in a state of its own loop, and with no room in the window it never starts a block. */
  predicate SenderOk(p: Setup, s: Sender)
    requires Valid(p)
  {
    && OtaWindow.Inv(ConfigOf(p), s) && OtaPacing.Paced(ConfigOf(p), Parts(p), p.clock, s)
    && (OtaWindow.Effective(ConfigOf(p)) <= 0 ==> s.gi == p.resumeFrom && !s.pc.Sending?)
  }

  /** The lock has no more than was sent, and acked no more than it has. */
  predicate AckOk(p: Setup, s: System)
    requires Valid(p)
  {
    Accepted(s) <= Complete(ConfigOf(p), s.snd)
    && OtaWindow.Acked(ConfigOf(p), s.snd) + Acks(s.back) <= Accepted(s) - p.resumeFrom
  }

  predicate SysInv(p: Setup, s: System)
    requires Valid(p)
  {
    SenderOk(p, s.snd) && LockOk(p, s) && LinkOk(p, s) && AckOk(p, s)
  }

  /** A block that the lock would accept is the one it needs. */
  lemma OnlyTheRightBlock(p: Setup, s: System, q: Packet)
    requires Valid(p) && Unambiguous(p) && PacketOk(p, s, q) && p.resumeFrom <= Accepted(s)
    ensures Unframe(q.frame, Accepted(s) + 1) == if q.block == Accepted(s) then Some(Blocks(p.blob)[q.block]) else None
  {
    hide FrameDataBlock, Unframe, Blocks, Complete, Groups, DataFrames, OtaPacing.Resends, FirstMultiple;
    FramesOfBlocks(p, q.block);
    FrameAccepted(q.block + 1, Accepted(s) + 1, Blocks(p.blob)[q.block]);
    var lag := Accepted(s) - q.block;
    SameNumber(q.block, Accepted(s));
    if q.again && !Collides(p) {
      TooFewMultiples(LeastLag(p), MostLag(p), lag);
    }
  }

  /** The number bytes of two blocks agree exactly when their distance is a multiple of 256. */
  lemma SameNumber(a: nat, b: nat)
    ensures (a + 1) % 256 == (b + 1) % 256 <==> (b - a) % 256 == 0
    ensures -256 < b - a < 256 && (b - a) % 256 == 0 ==> a == b
  {}

  lemma Apart(m: int, x: int)
    requires m % 256 == 0 && x % 256 == 0
    ensures m == x || m - x >= 256 || x - m >= 256
  {
    assert m - x == 256 * (m / 256 - x / 256);
  }

  lemma TooFewMultiples(low: int, high: int, lag: int)
    requires 0 <= low <= lag <= high < FirstMultiple(low)
    ensures lag % 256 == 0 ==> lag == 0
  {
    if lag % 256 == 0 && lag > 0 {
      Apart(FirstMultiple(low), lag);
    }
  }

  lemma BeginOk(p: Setup)
    requires Valid(p)
    ensures SysInv(p, Begin(p))
  {
    hide Blocks, Join, OtaWindow.Inv, OtaPacing.Paced;
    OtaWindow.StartOk(ConfigOf(p), p.clock, p.blockack, p.nak, false);
    OtaPacing.StartPaced(ConfigOf(p), Parts(p), p.clock, p.blockack, p.nak, false);
  }

  lemma PacketStays(p: Setup, s: System, t: System, q: Packet)
    requires Valid(p) && PacketOk(p, s, q) && Accepted(t) == Accepted(s)
    requires Complete(ConfigOf(p), s.snd) <= Complete(ConfigOf(p), t.snd)
    ensures PacketOk(p, t, q)
  {
    hide DataFrames, Complete, Groups;
  }

  lemma PacketAfterAccept(p: Setup, s: System, t: System, head: Packet, q: Packet)
    requires Valid(p) && PacketOk(p, s, head) && PacketOk(p, s, q) && Ordered(head, q)
    requires head.block == Accepted(s) && Accepted(t) == Accepted(s) + 1 && t.snd == s.snd
    ensures PacketOk(p, t, q)
  {
    hide DataFrames, Complete, Groups;
  }

  lemma AcceptKeeps(p: Setup, s: System)
    requires Valid(p) && SysInv(p, s) && s.link != [] && s.link[0].block == Accepted(s) < |Blocks(p.blob)|
    ensures SysInv(p, System(s.snd, s.link[1..],
                             Lock(s.lock.image + Blocks(p.blob)[Accepted(s)], s.lock.origin + [Accepted(s)]),
                             s.back + [ACK]))
  {
    hide Blocks, DataFrames, OtaWindow.Inv, Join, Acks, PacketOk, Complete, Groups;
    var blocks, a := Blocks(p.blob), Accepted(s);
    var t := System(s.snd, s.link[1..], Lock(s.lock.image + blocks[a], s.lock.origin + [a]), s.back + [ACK]);
    HeadBounds(p, s);
    AcksAppend(s.back, ACK);
    JoinOne(blocks, a);
    forall i | 0 <= i < |t.link| ensures PacketOk(p, t, t.link[i]) {
      assert Ordered(s.link[0], s.link[i + 1]);
      PacketAfterAccept(p, s, t, s.link[0], s.link[i + 1]);
    }
  }

  lemma HeadBounds(p: Setup, s: System)
    requires Valid(p) && SysInv(p, s) && s.link != [] && s.link[0].block == Accepted(s)
    ensures Accepted(s) < |Blocks(p.blob)| && Accepted(s) + 1 <= Complete(ConfigOf(p), s.snd)
  {
    hide OtaWindow.Inv, Join, Acks, LockOk, Complete, Groups;
    assert PacketOk(p, s, s.link[0]);
  }

  lemma ArriveKeeps(p: Setup, s: System, frame: bytes)
    requires Valid(p) && Unambiguous(p) && SysInv(p, s) && s.link != []
    requires frame == s.link[0].frame || Damages(s.link[0].frame, frame)
    ensures SysInv(p, Arrive(s.(link := s.link[1..]), frame, s.link[0].block))
  {
    hide Unframe, Blocks, DataFrames, Damages, SysInv, PacketOk;
    var q := s.link[0];
    HeadOk(p, s);
    LinkDrops(p, s);
    if Damages(q.frame, frame) {
      DamagedHeadRejected(p, s, frame);
    } else {
      LockBounds(p, s);
      OnlyTheRightBlock(p, s, q);
      if q.block == Accepted(s) {
        HeadBounds(p, s);
        AcceptKeeps(p, s);
      }
    }
  }

  lemma LockBounds(p: Setup, s: System)
    requires Valid(p) && SysInv(p, s)
    ensures p.resumeFrom <= Accepted(s)
  {}

  lemma HeadOk(p: Setup, s: System)
    requires Valid(p) && SysInv(p, s) && s.link != []
    ensures PacketOk(p, s, s.link[0])
  {}

  lemma DamagedHeadRejected(p: Setup, s: System, frame: bytes)
    requires Valid(p) && s.link != [] && PacketOk(p, s, s.link[0]) && Damages(s.link[0].frame, frame)
    ensures Unframe(frame, Accepted(s) + 1) == None
  {
    hide Blocks, DataFrames, Damages, Unframe, FrameDataBlock, Complete, Groups;
    FramesOfBlocks(p, s.link[0].block);
    DamagedRejected(s.link[0].block + 1, Blocks(p.blob)[s.link[0].block], frame, Accepted(s) + 1);
  }

  lemma FramesOfBlocks(p: Setup, i: nat)
    requires i < |Blocks(p.blob)|
    ensures DataFrames(p.blob)[i] == FrameDataBlock(i + 1, Blocks(p.blob)[i])
  {}

  lemma JoinOne(blocks: seq<bytes>, a: nat)
    requires a < |blocks|
    ensures Join(blocks[..a + 1]) == Join(blocks[..a]) + blocks[a]
  {
    assert blocks[..a + 1][..a] == blocks[..a];
  }

  lemma LinkDrops(p: Setup, s: System)
    requires Valid(p) && SysInv(p, s) && s.link != []
    ensures SysInv(p, s.(link := s.link[1..]))
  {
    hide Blocks, DataFrames, OtaWindow.Inv, Join, Acks;
    var t := s.(link := s.link[1..]);
    forall i | 0 <= i < |t.link| ensures PacketOk(p, t, t.link[i]) {
      assert PacketOk(p, s, s.link[i + 1]);
    }
  }

  /** Only the clock, the counts of acks and NAKs, or `done` differ. */
  lemma SenderStays(p: Setup, s: Sender, t: Sender)
    requires Valid(p) && SenderOk(p, s) && t.clock >= s.clock && t.blockack >= s.blockack && (s.done ==> t.done)
    requires t == s.(clock := t.clock, blockack := t.blockack, nak := t.nak, done := t.done)
    ensures SenderOk(p, t) && Complete(ConfigOf(p), t) == Complete(ConfigOf(p), s)
  {
    hide OtaWindow.Inv, OtaPacing.Paced, Groups, DataFrames;
    OtaWindow.SameTrace(ConfigOf(p), s, t);
    OtaPacing.OtherPaced(ConfigOf(p), Parts(p), p.clock, s, t);
  }

  lemma HearKeeps(p: Setup, s: System)
    requires Valid(p) && SysInv(p, s) && s.back != []
    ensures SysInv(p, s.(snd := Drain(s.snd, s.back[0]), back := s.back[1..]))
  {
    hide SenderOk, LinkOk, LockOk, Complete, Groups, DataFrames, Blocks;
    var t := s.(snd := Drain(s.snd, s.back[0]), back := s.back[1..]);
    OtaPacing.DrainFrame(s.snd, s.back[0]);
    SenderStays(p, s.snd, t.snd);
    LinkGrows(p, s, t, []);
    LockUnchanged(p, s, t);
  }

  lemma CompleteGrows(cfg: Config, s: Sender)
    requires OtaWindow.Inv(cfg, s)
    ensures Complete(cfg, s) <= Complete(cfg, Go(cfg, s))
    ensures Go(cfg, s).blockack == s.blockack && Go(cfg, s).baseAck == s.baseAck
  {
    hide OtaWindow.TraceOk;
  }

  lemma EmittedOk(p: Setup, s: System)
    requires Valid(p) && Unambiguous(p) && SysInv(p, s) && Emitted(p, s.snd) != []
    ensures PacketOk(p, Act(p, s, Step), Emitted(p, s.snd)[0])
    ensures Emitted(p, s.snd)[0].high >= Complete(ConfigOf(p), s.snd)
    ensures !Emitted(p, s.snd)[0].again ==> Emitted(p, s.snd)[0].high > Complete(ConfigOf(p), s.snd)
  {
    hide Blocks, DataFrames, OtaWindow.TraceOk, Groups, LinkOk, Join;
    match s.snd.pc
    case Sending(k) => GoSending(ConfigOf(p), s.snd, k);
    case Resending(b, k) => GoResending(ConfigOf(p), s.snd, b, k);
    case Top =>
    case Exited =>
  }

  lemma EmittedShort(p: Setup, s: Sender)
    requires Valid(p)
    ensures |Emitted(p, s)| <= 1
  {}

  lemma LockUnchanged(p: Setup, s: System, t: System)
    requires Valid(p) && LockOk(p, s) && t.lock == s.lock
    ensures LockOk(p, t)
  {}

  lemma LinkGrows(p: Setup, s: System, t: System, out: seq<Packet>)
    requires Valid(p) && LinkOk(p, s) && Accepted(t) == Accepted(s) && t.link == s.link + out && |out| <= 1
    requires Complete(ConfigOf(p), s.snd) <= Complete(ConfigOf(p), t.snd)
    requires out != [] ==> PacketOk(p, t, out[0]) && out[0].high >= Complete(ConfigOf(p), s.snd)
    requires out != [] && !out[0].again ==> out[0].high > Complete(ConfigOf(p), s.snd)
    ensures LinkOk(p, t)
  {
    hide Complete, DataFrames, Groups, PacketOk;
    forall i | 0 <= i < |t.link| ensures PacketOk(p, t, t.link[i]) {
      if i < |s.link| {
        PacketStays(p, s, t, s.link[i]);
      }
    }
    forall i, j | 0 <= i < j < |t.link| ensures Ordered(t.link[i], t.link[j]) {
      PacketHigh(p, s, s.link[i]);
    }
  }

  lemma PacketHigh(p: Setup, s: System, q: Packet)
    requires Valid(p) && PacketOk(p, s, q)
    ensures q.high <= Complete(ConfigOf(p), s.snd)
  {}

  /** Without room in the window the sender holds, whatever it hears. */
  lemma StarvedGo(p: Setup, s: System)
    requires Valid(p) && SysInv(p, s) && OtaWindow.Effective(ConfigOf(p)) <= 0
    ensures Go(ConfigOf(p), s.snd).gi == p.resumeFrom && !Go(ConfigOf(p), s.snd).pc.Sending?
  {
    hide OtaWindow.TraceOk, OtaPacing.Paced, LockOk, LinkOk, Groups, DataFrames;
  }

  lemma StepSender(p: Setup, s: System)
    requires Valid(p) && SysInv(p, s) && CanDo(s.snd, Run)
    ensures SenderOk(p, Go(ConfigOf(p), s.snd))
  {
    hide OtaWindow.Inv, OtaPacing.Paced, LockOk, LinkOk, Groups, DataFrames, Go, AckOk, Complete;
    GroupsUniform(p);
    OtaWindow.DoKeeps(ConfigOf(p), s.snd, Run);
    OtaPacing.DoPaced(ConfigOf(p), Parts(p), p.clock, s.snd, Run);
    if OtaWindow.Effective(ConfigOf(p)) <= 0 {
      StarvedGo(p, s);
    }
  }

  lemma StepKeeps(p: Setup, s: System)
    requires Valid(p) && Unambiguous(p) && SysInv(p, s) && CanDo(s.snd, Run)
    ensures SysInv(p, Act(p, s, Step))
  {
    var t, cfg := Act(p, s, Step), ConfigOf(p);
    StepSender(p, s);
    CompleteGrows(cfg, s.snd);
    EmittedShort(p, s.snd);
    if Emitted(p, s.snd) != [] {
      EmittedOk(p, s);
    }
    hide Blocks, DataFrames, SenderOk, Groups, Emitted, Complete, Go, LockOk, LinkOk, PacketOk, Acks;
    LinkGrows(p, s, t, Emitted(p, s.snd));
    LockUnchanged(p, s, t);
  }

  lemma OtherKeeps(p: Setup, s: System, a: Action)
    requires Valid(p) && SysInv(p, s) && Can(p, s, a) && (a.Elapse? || a.Say? || a.Miss?)
    ensures SysInv(p, Act(p, s, a))
  {
    hide SenderOk, LinkOk, LockOk, Complete, Groups, DataFrames, Blocks, Go, Emitted;
    var t := Act(p, s, a);
    SenderStays(p, s.snd, t.snd);
    if a.Say? {
      AcksAppend(s.back, a.report);
    }
    LinkGrows(p, s, t, []);
    LockUnchanged(p, s, t);
  }

  lemma ActKeeps(p: Setup, s: System, a: Action)
    requires Valid(p) && Unambiguous(p) && SysInv(p, s) && Can(p, s, a)
    ensures SysInv(p, Act(p, s, a))
  {
    hide SysInv, Damages, Arrive;
    match a
    case Step => StepKeeps(p, s);
    case Deliver => ArriveKeeps(p, s, s.link[0].frame);
    case Lose => LinkDrops(p, s);
    case Damage(frame) => ArriveKeeps(p, s, frame);
    case Hear => HearKeeps(p, s);
    case _ => OtherKeeps(p, s, a);
  }

  lemma {:induction false} AlwaysInv(p: Setup, actions: seq<Action>)
    requires Valid(p) && Unambiguous(p) && CanAll(p, actions)
    ensures SysInv(p, After(p, actions))
  {
    hide SysInv, Act, Can, Begin, Unambiguous;
    if actions == [] {
      BeginOk(p);
    } else {
      AlwaysInv(p, actions[..|actions| - 1]);
      ActKeeps(p, After(p, actions[..|actions| - 1]), actions[|actions| - 1]);
    }
  }

  /** In every reachable state the blocks on the link lie within one window of what the lock has, so
      the lock's image is always a prefix of the padded blob; once it has all blocks, cutting it to
      the declared size gives the blob. */
  lemma ImageIsPrefix(p: Setup, actions: seq<Action>)
    requires Valid(p) && Unambiguous(p) && CanAll(p, actions)
    ensures var s := After(p, actions);
            && InOrder(s.lock) && |s.lock.origin| <= |Blocks(p.blob)|
            && s.lock.image == Join(Blocks(p.blob)[..|s.lock.origin|]) <= Join(Blocks(p.blob))
            && (|s.lock.origin| == |Blocks(p.blob)| ==> p.blob <= s.lock.image)
    ensures var s := After(p, actions);
            forall i | 0 <= i < |s.link| :: -MostLag(p) <= s.link[i].block - |s.lock.origin| < p.window
  {
    hide Act, Can, CanAll, After, Blocks, OtaWindow.Inv, Join;
    AlwaysInv(p, actions);
    PrefixImage(p, After(p, actions));
    InWindow(p, After(p, actions));
  }

  lemma PrefixImage(p: Setup, s: System)
    requires Valid(p) && LockOk(p, s)
    ensures s.lock.image <= Join(Blocks(p.blob)) && (|s.lock.origin| == |Blocks(p.blob)| ==> p.blob <= s.lock.image)
  {
    hide Blocks, Join;
    var blocks, a := Blocks(p.blob), |s.lock.origin|;
    assert blocks[..a] + blocks[a..] == blocks;
    JoinConcat(blocks[..a], blocks[a..]);
    ImageOnTheWire(p.blob);
    if a == |blocks| {
      assert blocks[..a] == blocks;
    }
  }

  lemma InWindow(p: Setup, s: System)
    requires Valid(p) && LinkOk(p, s)
    ensures forall i | 0 <= i < |s.link| :: -MostLag(p) <= s.link[i].block - |s.lock.origin| < p.window
  {
    hide DataFrames, Complete;
    forall i | 0 <= i < |s.link| ensures -MostLag(p) <= s.link[i].block - |s.lock.origin| < p.window {
      assert PacketOk(p, s, s.link[i]);
    }
  }
}
