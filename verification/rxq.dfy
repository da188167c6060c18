// The single-producer single-consumer frame ring, as the interleaving of its atomic loads, stores and field
// copies. A load of the other side's index may return any value that index has held since the loader last read
// it, which is what acquire and release ordering leave open. Both indices are 32-bit and roll over.
module Rxq {
  import opened Words

  const FRAME := 250

  datatype Frame = Frame(src: seq<u8>, dst: seq<u8>, data: seq<u8>)
  datatype Slot = Slot(src: seq<u8>, dst: seq<u8>, len: nat, data: seq<u8>)

  // Where sl2_rxq_push is; k counts the fields copied so far.
  datatype Producer =
    | Resting
    | HeadRead(frame: Frame, h: u32)
    | TailRead(frame: Frame, h: u32, t: u32)
    | Writing(frame: Frame, h: u32, k: nat)

  // Where sl2_rxq_pop is
  datatype Consumer =
    | Waiting
    | SawHead(h: u32)
    | SawTail(h: u32, t: u32)
    | Reading(t: u32, k: nat, out: Slot)

  // head, tail, dropped and slot are the shared words; the rest is history: the frames published and delivered,
  // how many were refused, and how far each side has seen the other get.
  datatype Ring = Ring(head: u32, tail: u32, dropped: u32, slot: seq<Slot>, producer: Producer, consumer: Consumer,
                       accepted: seq<Frame>, popped: seq<Frame>, refused: nat, seenTail: nat, seenHead: nat)

  // SL2_RXQ_SLOTS: a power of two, so a divisor of 2^32.
  predicate Slots(n: nat) {
    2 <= n <= 0x8000_0000 && B32 % n == 0
  }

  predicate Sized(f: Frame) {
    0 < |f.data| <= FRAME
  }

  datatype Step =
    | Push(frame: Frame)     // called with a frame; its length is checked and head loaded
    | LoadTail(position: nat)
    | Decide
    | WriteField
    | Publish
    | Pop(position: nat)     // called; head loaded
    | LoadOwnTail
    | Compare
    | ReadField
    | Release

  // A load may return the newest value or one as old as the last this side saw.
  predicate Enabled(s: Ring, step: Step) {
    match step
    case Push(f) => s.producer.Resting?
    case LoadTail(p) => s.producer.HeadRead? && s.seenTail <= p <= |s.popped|
    case Decide => s.producer.TailRead?
    case WriteField => s.producer.Writing? && s.producer.k < 4
    case Publish => s.producer.Writing? && s.producer.k == 4
    case Pop(p) => s.consumer.Waiting? && s.seenHead <= p <= |s.accepted|
    case LoadOwnTail => s.consumer.SawHead?
    case Compare => s.consumer.SawTail?
    case ReadField => s.consumer.Reading? && s.consumer.k < 4
    case Release => s.consumer.Reading? && s.consumer.k == 4
  }

  function Blank(): Slot {
    Slot([], [], 0, seq(FRAME, _ => 0))
  }

  function WriteInto(slot: Slot, f: Frame, k: nat): Slot
    requires |slot.data| == FRAME && Sized(f)
  {
    if k == 0 then slot.(src := f.src)
    else if k == 1 then slot.(dst := f.dst)
    else if k == 2 then slot.(len := |f.data|)
    else slot.(data := f.data + slot.data[|f.data|..])
  }

  function ReadFrom(out: Slot, slot: Slot, k: nat): Slot {
    if k == 0 then out.(src := slot.src)
    else if k == 1 then out.(dst := slot.dst)
    else if k == 2 then out.(len := slot.len)
    else out.(data := slot.data)
  }

  function Delivered(out: Slot): Frame {
    Frame(out.src, out.dst, if out.len <= |out.data| then out.data[..out.len] else out.data)
  }

  predicate Shaped(s: Ring, n: nat) {
    && |s.slot| == n && (forall i :: 0 <= i < n ==> |s.slot[i].data| == FRAME)
    && (s.producer.HeadRead? ==> Sized(s.producer.frame)) && (s.producer.TailRead? ==> Sized(s.producer.frame))
    && (s.producer.Writing? ==> Sized(s.producer.frame))
  }

  // One atomic step of either side.
  function Next(s: Ring, step: Step, n: nat): Ring
    requires Slots(n) && Shaped(s, n) && Enabled(s, step)
  {
    match step
    case Push(f) =>
      if Sized(f) then s.(producer := HeadRead(f, s.head)) else s
    case LoadTail(p) =>
      s.(producer := TailRead(s.producer.frame, s.producer.h, p % B32), seenTail := p)
    case Decide =>
      if (s.producer.h - s.producer.t) % B32 >= n then
        s.(producer := Resting, dropped := (s.dropped + 1) % B32, refused := s.refused + 1)
      else
        s.(producer := Writing(s.producer.frame, s.producer.h, 0))
    case WriteField =>
      var at := s.producer.h % n;
      s.(slot := s.slot[at := WriteInto(s.slot[at], s.producer.frame, s.producer.k)],
         producer := s.producer.(k := s.producer.k + 1))
    case Publish =>
      s.(head := (s.producer.h + 1) % B32, producer := Resting, accepted := s.accepted + [s.producer.frame])
    case Pop(p) =>
      s.(consumer := SawHead(p % B32), seenHead := p)
    case LoadOwnTail =>
      s.(consumer := SawTail(s.consumer.h, s.tail))
    case Compare =>
      if s.consumer.t == s.consumer.h then s.(consumer := Waiting)
      else s.(consumer := Reading(s.consumer.t, 0, Blank()))
    case ReadField =>
      s.(consumer := s.consumer.(k := s.consumer.k + 1,
                                 out := ReadFrom(s.consumer.out, s.slot[s.consumer.t % n], s.consumer.k)))
    case Release =>
      s.(tail := (s.consumer.t + 1) % B32, consumer := Waiting, popped := s.popped + [Delivered(s.consumer.out)])
  }

  function Init(n: nat): Ring {
    Ring(0, 0, 0, seq(n, _ => Blank()), Resting, Waiting, [], [], 0, 0, 0)
  }

  predicate Holds(slot: Slot, f: Frame) {
    slot.src == f.src && slot.dst == f.dst && slot.len == |f.data| <= |slot.data| && slot.data[..slot.len] == f.data
  }

  // The first k fields of the slot are the frame's.
  predicate HoldsUpTo(slot: Slot, f: Frame, k: nat) {
    && (k > 0 ==> slot.src == f.src)
    && (k > 1 ==> slot.dst == f.dst)
    && (k > 2 ==> slot.len == |f.data|)
    && (k > 3 ==> |f.data| <= |slot.data| && slot.data[..|f.data|] == f.data)
  }

  ghost predicate Inv(s: Ring, n: nat)
    requires Slots(n)
  {
    var H, T := |s.accepted|, |s.popped|;
    && Shaped(s, n)
    && s.head == H % B32 && s.tail == T % B32 && s.dropped == s.refused % B32
    && s.seenTail <= T <= s.seenHead <= H <= s.seenTail + n
    && s.popped == s.accepted[..T]
    && (forall i :: T <= i < H ==> Holds(s.slot[i % n], s.accepted[i]))
    && ProducerInv(s, n, H) && ConsumerInv(s, n, T)
  }

  ghost predicate ProducerInv(s: Ring, n: nat, H: nat)
    requires Slots(n) && Shaped(s, n)
  {
    match s.producer
    case Resting => true
    case HeadRead(f, h) => h == s.head
    case TailRead(f, h, t) => h == s.head && t == s.seenTail % B32
    case Writing(f, h, k) => h == s.head && k <= 4 && H < s.seenTail + n && HoldsUpTo(s.slot[H % n], f, k)
  }

  ghost predicate ConsumerInv(s: Ring, n: nat, T: nat)
    requires Slots(n) && Shaped(s, n)
  {
    match s.consumer
    case Waiting => true
    case SawHead(h) => h == s.seenHead % B32
    case SawTail(h, t) => h == s.seenHead % B32 && t == s.tail
    case Reading(t, k, out) =>
      t == s.tail && k <= 4 && T < s.seenHead && T < |s.accepted| && HoldsUpTo(out, s.accepted[T], k)
  }

  // Distances below 2^32 survive the rollover of the indices.
  lemma Distance(a: nat, b: nat)
    requires b <= a < b + B32
    ensures (a % B32 - b % B32) % B32 == a - b
  {
    ModUnique(a % B32 - b % B32, b / B32 - a / B32, a - b, B32);
    var d := a - b;
    var x := a % B32 - b % B32;
    assert x == d + (b / B32 - a / B32) * B32;
    ModUnique(x, b / B32 - a / B32, d, B32);
  }

  lemma SameIndex(a: nat, b: nat)
    requires b <= a < b + B32
    ensures a % B32 == b % B32 <==> a == b
  {
    Distance(a, b);
  }

  // The slot an index names does not change when the index rolls over.
  lemma SlotOf(a: nat, n: nat)
    requires Slots(n)
    ensures a % B32 % n == a % n
  {
    var q, r := a / B32, a % B32;
    var m := B32 / n;
    assert B32 == m * n;
    assert a == (q * m + r / n) * n + r % n by {
      assert q * B32 == (q * m) * n;
      assert r == r / n * n + r % n;
      assert (q * m + r / n) * n == (q * m) * n + r / n * n;
    }
    ModUnique(a, q * m + r / n, r % n, n);
  }

  lemma Increment(a: nat)
    ensures (a % B32 + 1) % B32 == (a + 1) % B32
  {
  }

  // Two positions less than a lap apart use different slots.
  lemma DifferentSlots(a: nat, b: nat, n: nat)
    requires n > 0 && a < b < a + n
    ensures a % n != b % n
  {
    if a % n == b % n {
      var k := b / n - a / n;
      assert b - a == k * n;
      if k >= 1 {
        MulNonNegative(k - 1, n);
      } else {
        MulNonNegative(-k, n);
      }
    }
  }

  lemma PushKeeps(s: Ring, step: Step, n: nat)
    requires Slots(n) && Inv(s, n) && Enabled(s, step)
    requires step.Push? || step.LoadTail? || step.Decide?
    ensures Inv(Next(s, step, n), n)
  {
    if step.Decide? {
      Distance(|s.accepted|, s.seenTail);
      Increment(s.refused);
    }
  }

  lemma WriteKeeps(s: Ring, n: nat)
    requires Slots(n) && Inv(s, n) && Enabled(s, WriteField)
    ensures Inv(Next(s, WriteField, n), n)
  {
    var H, T := |s.accepted|, |s.popped|;
    SlotOf(H, n);
    forall i | T <= i < H
      ensures i % n != H % n
    {
      DifferentSlots(i, H, n);
    }
  }

  lemma PublishKeeps(s: Ring, n: nat)
    requires Slots(n) && Inv(s, n) && Enabled(s, Publish)
    ensures Inv(Next(s, Publish, n), n)
  {
    Increment(|s.accepted|);
  }

  lemma PopKeeps(s: Ring, step: Step, n: nat)
    requires Slots(n) && Inv(s, n) && Enabled(s, step)
    requires step.Pop? || step.LoadOwnTail? || step.Compare?
    ensures Inv(Next(s, step, n), n)
  {
    if step.Compare? {
      Distance(s.seenHead, |s.popped|);
    }
  }

  lemma ReadKeeps(s: Ring, n: nat)
    requires Slots(n) && Inv(s, n) && Enabled(s, ReadField)
    ensures Inv(Next(s, ReadField, n), n)
  {
    SlotOf(|s.popped|, n);
  }

  lemma ReleaseKeeps(s: Ring, n: nat)
    requires Slots(n) && Inv(s, n) && Enabled(s, Release)
    ensures Inv(Next(s, Release, n), n)
  {
    Increment(|s.popped|);
    assert s.accepted[..|s.popped| + 1] == s.accepted[..|s.popped|] + [s.accepted[|s.popped|]];
  }

  lemma StepKeeps(s: Ring, step: Step, n: nat)
    requires Slots(n) && Inv(s, n) && Enabled(s, step)
    ensures Inv(Next(s, step, n), n)
  {
    hide *;
    match step
    case Push(_) => PushKeeps(s, step, n);
    case LoadTail(_) => PushKeeps(s, step, n);
    case Decide => PushKeeps(s, step, n);
    case WriteField => WriteKeeps(s, n);
    case Publish => PublishKeeps(s, n);
    case Pop(_) => PopKeeps(s, step, n);
    case LoadOwnTail => PopKeeps(s, step, n);
    case Compare => PopKeeps(s, step, n);
    case ReadField => ReadKeeps(s, n);
    case Release => ReleaseKeeps(s, n);
  }

  // A schedule: any interleaving whose every step is one its side could take.
  ghost predicate Schedule(s: Ring, steps: seq<Step>, n: nat)
    requires Slots(n) && Inv(s, n)
    decreases |steps|
  {
    steps == [] || (Enabled(s, steps[0]) && (StepKeeps(s, steps[0], n); Schedule(Next(s, steps[0], n), steps[1..], n)))
  }

  ghost function Run(s: Ring, steps: seq<Step>, n: nat): Ring
    requires Slots(n) && Inv(s, n) && Schedule(s, steps, n)
    decreases |steps|
  {
    if steps == [] then s
    else
      StepKeeps(s, steps[0], n);
      Run(Next(s, steps[0], n), steps[1..], n)
  }

  lemma {:induction false} RunKeeps(s: Ring, steps: seq<Step>, n: nat)
    requires Slots(n) && Inv(s, n) && Schedule(s, steps, n)
    ensures Inv(Run(s, steps, n), n)
    decreases |steps|
  {
    if steps != [] {
      StepKeeps(s, steps[0], n);
      RunKeeps(Next(s, steps[0], n), steps[1..], n);
    }
  }

  lemma InitHolds(n: nat)
    requires Slots(n)
    ensures Inv(Init(n), n)
  {
  }

  // Under every interleaving, delivered frames are the accepted ones in order and whole, no more than n frames are
  // in flight, and the slot being read is never the slot being written.
  lemma Safe(steps: seq<Step>, n: nat)
    requires Slots(n) && Schedule(Init(n), steps, n)
    ensures var s := Run(Init(n), steps, n);
            && s.popped <= s.accepted
            && |s.accepted| - |s.popped| <= n
            && (s.producer.Writing? && s.consumer.Reading? ==> s.producer.h % n != s.consumer.t % n)
  {
    InitHolds(n);
    RunKeeps(Init(n), steps, n);
    var s := Run(Init(n), steps, n);
    if s.producer.Writing? && s.consumer.Reading? {
      SlotOf(|s.accepted|, n);
      SlotOf(|s.popped|, n);
      DifferentSlots(|s.popped|, |s.accepted|, n);
    }
  }

  // A push is refused exactly when the newest tail it may see leaves no slot free; a pop finds nothing exactly when
  // every frame it may see is delivered.
  lemma Verdicts(s: Ring, n: nat)
    requires Slots(n) && Inv(s, n)
    ensures s.producer.TailRead? ==>
      (Next(s, Decide, n).producer.Resting? <==> |s.accepted| == s.seenTail + n)
    ensures s.consumer.SawTail? ==>
      (Next(s, Compare, n).consumer.Waiting? <==> |s.popped| == s.seenHead)
  {
    if s.producer.TailRead? {
      Distance(|s.accepted|, s.seenTail);
    }
    if s.consumer.SawTail? {
      SameIndex(s.seenHead, |s.popped|);
    }
  }

  // A whole push of frame f, and a push refused
  lemma Pushed(s: Ring, f: Frame, filled: Slot, n: nat)
    requires Slots(n) && Inv(s, n) && s.producer.Resting? && s.consumer.Waiting?
    requires |s.accepted| < |s.popped| + n && Holds(filled, f) && |filled.data| == FRAME
    ensures s.head % n < |s.slot|
    ensures Inv(s.(slot := s.slot[s.head % n := filled], head := (s.head + 1) % B32, accepted := s.accepted + [f],
                   seenTail := |s.popped|, seenHead := |s.accepted| + 1), n)
  {
    hide Holds;
    var H := |s.accepted|;
    SlotOf(H, n);
    Increment(H);
    forall i | |s.popped| <= i < H
      ensures i % n != H % n
    {
      DifferentSlots(i, H, n);
    }
  }

  lemma Dropped(s: Ring, n: nat)
    requires Slots(n) && Inv(s, n)
    ensures Inv(s.(dropped := (s.dropped + 1) % B32, refused := s.refused + 1), n)
  {
    Increment(s.refused);
  }

  // Whether the full-ring test of a whole push refuses
  lemma FullTest(s: Ring, n: nat)
    requires Slots(n) && Inv(s, n)
    ensures |s.slot| == n && |s.popped| <= |s.accepted|
    ensures (s.head - s.tail) % B32 == |s.accepted| - |s.popped| <= n
    ensures forall i :: 0 <= i < n ==> |s.slot[i].data| == FRAME
  {
    Distance(|s.accepted|, |s.popped|);
  }

  // The ring itself, with push and pop as they run when the other side does not interrupt them.
  class Queue {
    const slot: array<Slot>
    var head: u32
    var tail: u32
    var dropped: u32
    ghost var accepted: seq<Frame>
    ghost var popped: seq<Frame>
    ghost var refused: nat

    ghost function View(): Ring
      reads this, slot
    {
      Ring(head, tail, dropped, slot[..], Resting, Waiting, accepted, popped, refused, |popped|, |accepted|)
    }

    ghost predicate Valid()
      reads this, slot
    {
      Slots(slot.Length) && Inv(View(), slot.Length)
    }

    // sl2_rxq_init
    constructor (n: nat)
      requires Slots(n)
      ensures Valid() && slot.Length == n && accepted == [] && popped == []
      ensures fresh(slot)
    {
      slot := new Slot[n](_ => Blank());
      head, tail, dropped := 0, 0, 0;
      accepted, popped, refused := [], [], 0;
    }

    // sl2_rxq_push: false for an impossible length or a full ring, and a full ring counts the drop.
    method Push(src: seq<u8>, dst: seq<u8>, data: seq<u8>) returns (ok: bool)
      requires Valid()
      modifies this, slot
      ensures Valid() && popped == old(popped)
      ensures ok <==> 0 < |data| <= FRAME && |old(accepted)| < |popped| + slot.Length
      ensures accepted == if ok then old(accepted) + [Frame(src, dst, data)] else old(accepted)
      ensures refused == old(refused) + if !ok && 0 < |data| <= FRAME then 1 else 0
    {
      hide Inv, Holds;
      if |data| == 0 || |data| > FRAME {
        return false;
      }
      ghost var s, f, n := View(), Frame(src, dst, data), slot.Length;
      var h, t := head, tail;
      FullTest(s, n);
      if (h - t) % B32 >= slot.Length {
        Dropped(s, n);
        dropped := (dropped + 1) % B32;
        refused := refused + 1;
        return false;
      }
      Fill(h % slot.Length, src, dst, data);
      Pushed(s, f, slot[h % slot.Length], n);
      head := (h + 1) % B32;
      accepted := accepted + [f];
      ok := true;
    }

    // The four fields of one slot
    method Fill(at: nat, src: seq<u8>, dst: seq<u8>, data: seq<u8>)
      requires at < slot.Length && |data| <= FRAME && |slot[at].data| == FRAME
      modifies slot
      ensures slot[..] == old(slot[..])[at := slot[at]]
      ensures Holds(slot[at], Frame(src, dst, data)) && |slot[at].data| == FRAME
    {
      slot[at] := slot[at].(src := src);
      slot[at] := slot[at].(dst := dst);
      slot[at] := slot[at].(len := |data|);
      slot[at] := slot[at].(data := data + slot[at].data[|data|..]);
    }

    // sl2_rxq_pop: the oldest frame not yet delivered, or false when there is none.
    method Pop() returns (ok: bool, out: Slot)
      requires Valid()
      modifies this`tail, this`popped
      ensures Valid()
      ensures ok <==> |old(popped)| < |accepted|
      ensures ok ==> Holds(out, accepted[|old(popped)|])
      ensures popped == if ok then old(popped) + [accepted[|old(popped)|]] else old(popped)
    {
      var h, t := head, tail;
      out := Blank();
      Distance(|accepted|, |popped|);
      if t == h {
        return false, out;
      }
      SlotOf(|popped|, slot.Length);
      out := slot[t % slot.Length];
      Increment(|popped|);
      assert accepted[..|popped| + 1] == accepted[..|popped|] + [accepted[|popped|]];
      tail := (t + 1) % B32;
      popped := popped + [accepted[|popped|]];
      ok := true;
    }
  }
}
