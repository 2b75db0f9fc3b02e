/** The whole data phase: the sender of ota.py, a FIFO link that may lose or damage blocks, and a lock
    that accepts the block it expects and acks each accepted block once. */
module OtaTransfer {
  import opened Bytes
  import opened OtaFrames
  import opened OtaReceiver
  import opened OtaSender
  import Checksums

  datatype Setup = Setup(blob: bytes, mtu: nat, window: int, stall: int, maxResends: int, delay: nat,
                         resumeFrom: nat, shift: nat, clock: int, blockack: int, nak: nat)

  /** A positive window, a resume point inside the plan, and `base_ack` either as the code takes it
      (`shift` 0) or corrected for the resume point. */
  predicate Valid(p: Setup) {
    p.mtu > 0 && p.window >= 1 && p.resumeFrom <= |Blocks(p.blob)| && (p.shift == 0 || p.shift == p.resumeFrom)
  }

  function ConfigOf(p: Setup): Config
    requires Valid(p)
  {
    Config(Groups(DataFrames(p.blob), p.mtu), p.window, p.stall, p.maxResends, p.delay, p.resumeFrom, p.shift)
  }

  /** A block on its way. All but the frame is history, which the lock does not see: the block's index,
      the number of blocks whose first transmission was then complete, and whether it is a repeat. */
  datatype Packet = Packet(block: nat, high: nat, again: bool, frame: bytes)

  /** `origin[i]` is history: the true index of the block accepted in the i-th place. */
  datatype Lock = Lock(image: bytes, origin: seq<nat>)

  datatype System = System(snd: Sender, link: seq<Packet>, lock: Lock, back: seq<Report>)

  /** The lock has the blocks before the resume point from the earlier attempt. */
  function Begin(p: Setup): System
    requires Valid(p)
  {
    System(Start(ConfigOf(p), p.clock, p.blockack, p.nak, false), [],
           Lock(Join(Blocks(p.blob)[..p.resumeFrom]), seq(p.resumeFrom, i => i)), [])
  }

  const ACK: Report := Report(Ff92, [0x11, 0x06], NoJson)

  datatype Action =
    | Step                        // the sender runs to its next await
    | Elapse(ms: nat)
    | Deliver                     // the oldest block on the link reaches the lock
    | Lose                        // ... or is lost
    | Damage(frame: bytes)        // ... or arrives damaged
    | Say(report: Report)         // the lock reports anything but a block ack
    | Hear                        // the oldest report reaches `drain`
    | Miss                        // ... or is lost

  /** What the lock cannot tell from a good frame: length, first byte and complement are right, and the
      flipped bits in block and CRC are themselves a string with CRC zero. */
  predicate Undetectable(frame: bytes, got: bytes) {
    |got| == |frame| && |frame| > 3 && got[0] == 0x02 && got[1] as int + got[2] as int == 0xFF
    && Checksums.Invisible(frame[3..], got[3..])
  }

  /** Damage on the link may turn a frame into anything else. */
  predicate Damages(frame: bytes, got: bytes) {
    !Undetectable(frame, got)
  }

  ghost predicate Can(p: Setup, s: System, a: Action) {
    match a
    case Step => CanDo(s.snd, Run)
    case Elapse(ms) => true
    case Deliver => s.link != []
    case Lose => s.link != []
    case Damage(frame) => s.link != [] && Damages(s.link[0].frame, frame)
    case Say(report) => !IsAck(report)
    case Hear => s.back != []
    case Miss => s.back != []
  }

  /** Blocks whose first transmission is complete. */
  function Complete(cfg: Config, s: Sender): nat {
    s.gi + if s.pc.Sending? && s.gi < |cfg.groups| && s.pc.part >= |cfg.groups[s.gi]| then 1 else 0
  }

  /** The packet that leaves with the last write of a block. */
  function Emitted(p: Setup, s: Sender): seq<Packet>
    requires Valid(p)
  {
    var cfg, frames := ConfigOf(p), DataFrames(p.blob);
    match s.pc
    case Sending(k) =>
      if s.gi < |frames| && k + 1 == |cfg.groups[s.gi]| then [Packet(s.gi, s.gi + 1, false, frames[s.gi])] else []
    case Resending(b, k) =>
      if b < |frames| && k + 1 == |cfg.groups[b]| then [Packet(b, s.gi, true, frames[b])] else []
    case _ => []
  }

  /** The lock accepts a good frame with the number it expects next, and acks it; all else it drops. */
  function Arrive(s: System, frame: bytes, block: nat): System {
    match Unframe(frame, |s.lock.origin| + 1)
    case Some(content) => s.(lock := Lock(s.lock.image + content, s.lock.origin + [block]), back := s.back + [ACK])
    case None => s
  }

  function Act(p: Setup, s: System, a: Action): System
    requires Valid(p)
  {
    match a
    case Step => s.(snd := Go(ConfigOf(p), s.snd), link := s.link + Emitted(p, s.snd))
    case Elapse(ms) => s.(snd := s.snd.(clock := s.snd.clock + ms))
    case Deliver => if s.link == [] then s else Arrive(s.(link := s.link[1..]), s.link[0].frame, s.link[0].block)
    case Lose => if s.link == [] then s else s.(link := s.link[1..])
    case Damage(frame) => if s.link == [] then s else Arrive(s.(link := s.link[1..]), frame, s.link[0].block)
    case Say(report) => s.(back := s.back + [report])
    case Hear => if s.back == [] then s else s.(snd := Drain(s.snd, s.back[0]), back := s.back[1..])
    case Miss => if s.back == [] then s else s.(back := s.back[1..])
  }

  function After(p: Setup, actions: seq<Action>): System
    requires Valid(p)
  {
    if actions == [] then Begin(p) else Act(p, After(p, actions[..|actions| - 1]), actions[|actions| - 1])
  }

  ghost predicate CanAll(p: Setup, actions: seq<Action>)
    requires Valid(p)
  {
    actions == [] ||
    (CanAll(p, actions[..|actions| - 1]) && Can(p, After(p, actions[..|actions| - 1]), actions[|actions| - 1]))
  }

  /** The lock only ever took the right block. */
  predicate InOrder(lock: Lock) {
    forall i | 0 <= i < |lock.origin| :: lock.origin[i] == i
  }

  /** No run of this setup makes the lock take a wrong block. */
  ghost predicate NeverAmbiguous(p: Setup)
    requires Valid(p)
  {
    forall actions | CanAll(p, actions) :: InOrder(After(p, actions).lock)
  }

  // ---------------------------------------------------------------- the lock's check is sound

  /** Whatever a frame is turned into, the lock accepts the result under some number exactly when the damage
      is undetectable. */
  lemma DamageExactly(index: nat, block: bytes, got: bytes)
    requires |block| == BLOCK_SIZE
    ensures (exists expected: nat :: Unframe(got, expected).Some?) <==> Undetectable(FrameDataBlock(index, block), got)
  {
    hide Checksums.ValidCrc, Checksums.XmodemCrc, Checksums.Invisible;
    var f := FrameDataBlock(index, block);
    assert f[3..] == block + Checksums.XmodemCrc(block);
    AppendedCrcIsValid(block);
    if |got| == |f| {
      Checksums.InvisibleExactly(f[3..], got[3..]);
    }
    if Undetectable(f, got) {
      assert Unframe(got, got[1]).Some?;
    }
  }

  lemma DamagedRejected(index: nat, block: bytes, got: bytes, expected: nat)
    requires |block| == BLOCK_SIZE && Damages(FrameDataBlock(index, block), got)
    ensures Unframe(got, expected) == None
  {
    hide Unframe, Undetectable, FrameDataBlock;
    DamageExactly(index, block, got);
  }

  /** A burst of up to sixteen bits or an odd number of flipped bits in the block and its CRC. */
  ghost predicate RadioDamage(x: bytes, y: bytes) {
    Checksums.BurstDamage(x, y) || Checksums.OddDamage(x, y)
  }

  /** Such damage is always detected, with any marker; and so is one wrong byte of the marker. */
  lemma RadioDamageSeen(index: nat, block: bytes, got: bytes)
    requires |block| == BLOCK_SIZE && |got| == SEGMENT_SIZE && got != FrameDataBlock(index, block)
    requires var f := FrameDataBlock(index, block);
             (got[3..] != f[3..] && RadioDamage(f[3..], got[3..])) || exists i | 0 <= i < 3 :: got == f[i := got[i]]
    ensures Damages(FrameDataBlock(index, block), got)
  {
    hide Checksums.ValidCrc, Checksums.XmodemCrc, Checksums.BurstDamage, Checksums.OddDamage, Checksums.Invisible;
    var f := FrameDataBlock(index, block);
    assert f[3..] == block + Checksums.XmodemCrc(block);
    AppendedCrcIsValid(block);
    if got[3..] != f[3..] && RadioDamage(f[3..], got[3..]) {
      Checksums.InvisibleExactly(f[3..], got[3..]);
      Checksums.DamageDetected(f[3..], got[3..]);
    } else {
      Complement(index);
    }
  }
}
