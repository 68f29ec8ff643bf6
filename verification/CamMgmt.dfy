/** Camera captures and paged reads: who owns each video buffer, and which frame a page comes from. */
module CamMgmt {
  import opened Types

  const NBUFS := 2
  const READ_MAX: u32 := 1024
  const ENOMEM := 12
  const EAGAIN := 11

  /** The bytes of one captured frame; their number fits the u32 `bytesused`. */
  type Image = s: seq<u8> | |s| < 0x1_0000_0000

  // Paged reads ----------------------------------------------------------------------------------

  /** What readers can see: the retained frame, if any, and the number of the last good capture. */
  datatype View = View(frame: Option<Image>, seqNo: nat)

  datatype Page = Page(off: u32, data: seq<u8>, eof: bool)

  /** The answer to READ; None is ENOENT. */
  function Answer(v: View, seqNo: u32, off: u32, len: u32): (r: Option<Page>) {
    var want := if len == 0 || len > READ_MAX then READ_MAX else len;
    if v.frame.None? || seqNo != v.seqNo then None
    else
      var used := |v.frame.value|;
      var at := if off < used then off else used;
      var n := if want < used - at then want else used - at;
      Some(Page(at, v.frame.value[at..at + n], at + n >= used))
  }

  /** How many bytes a reader asks for: 1024 unless it names fewer. */
  function Wanted(len: u32): nat { if 1 <= len <= 1024 then len else 1024 }

  /** A page is exactly the frame's bytes from its offset: as many as were asked for, at most 1024, or all that
      are left; eof marks exactly the page that reaches the end. Past the end there is nothing but the end. */
  lemma PageIsSlice(v: View, seqNo: u32, off: u32, len: u32)
    ensures Answer(v, seqNo, off, len).Some? <==> v.frame.Some? && seqNo == v.seqNo
    ensures Answer(v, seqNo, off, len).Some? && off <= |v.frame.value| ==>
      var p, img := Answer(v, seqNo, off, len).value, v.frame.value;
      && p.off == off && |p.data| == Min(Wanted(len), |img| - off) && |p.data| <= READ_MAX && off + |p.data| <= |img|
      && p.data == img[off..off + |p.data|]
      && (p.eof <==> off + |p.data| == |img|)
      && (|p.data| == 0 ==> off == |img|)
    ensures Answer(v, seqNo, off, len).Some? && off > |v.frame.value| ==>
      Answer(v, seqNo, off, len).value == Page(|v.frame.value|, [], true)
  {
  }

  /** Anything that happens to the camera between reads: captures that work or fail. */
  datatype Shot = Good(img: Image) | Bad

  function Snapped(v: View, s: Shot): View {
    match s
    case Good(img) => View(Some(img), v.seqNo + 1)
    case Bad => View(None, v.seqNo)
  }

  function SnappedAll(v: View, shots: seq<Shot>): View
    decreases |shots|
  {
    if shots == [] then v else Snapped(SnappedAll(v, shots[..|shots| - 1]), shots[|shots| - 1])
  }

  /** The good frames, in order. */
  function Frames(shots: seq<Shot>): seq<Image>
    decreases |shots|
  {
    if shots == [] then []
    else match shots[|shots| - 1]
    case Good(img) => Frames(shots[..|shots| - 1]) + [img]
    case Bad => Frames(shots[..|shots| - 1])
  }

  const NOTHING := View(None, 0)

  lemma {:induction false} ViewIsLatest(shots: seq<Shot>)
    ensures var v := SnappedAll(NOTHING, shots);
      && v.seqNo == |Frames(shots)|
      && v.frame == (if shots != [] && shots[|shots| - 1].Good? then Some(shots[|shots| - 1].img) else None)
      && (v.frame.Some? ==> v.seqNo > 0 && v.frame.value == Frames(shots)[v.seqNo - 1])
    decreases |shots|
  {
    if shots != [] {
      ViewIsLatest(shots[..|shots| - 1]);
    }
  }

  /** Whatever captures happened before a read, its answer for sequence number q comes from the q-th good
      frame, and there is an answer exactly when that is the last capture; nothing else is ever served. */
  lemma AnswersComeFromTheNamedFrame(shots: seq<Shot>, q: u32, off: u32, len: u32)
    ensures var a := Answer(SnappedAll(NOTHING, shots), q, off, len);
      && (a.Some? <==> shots != [] && shots[|shots| - 1].Good? && q == |Frames(shots)|)
      && (a.Some? ==> 0 < q <= |Frames(shots)| && a == Answer(View(Some(Frames(shots)[q - 1]), q), q, off, len))
  {
    hide SnappedAll, Frames;
    ViewIsLatest(shots);
  }

  lemma {:induction false} FramesGrow(shots: seq<Shot>, more: seq<Shot>)
    ensures Frames(shots) <= Frames(shots + more)
    decreases |more|
  {
    if more == [] {
      assert shots + more == shots;
    } else {
      var m := |more| - 1;
      assert (shots + more)[..|shots| + m] == shots + more[..m];
      FramesGrow(shots, more[..m]);
    }
  }

  /** The client's loop, `off += len(data)` until eof, while others capture between its reads: before its
      k-th read the captures others(k) happen. It ends, and returns either the whole q-th frame or
      nothing. */
  method Pull(start: seq<Shot>, q: u32, len: nat -> u32, others: nat -> seq<Shot>)
    returns (r: Option<seq<u8>>, ghost shots: seq<Shot>)
    ensures start <= shots
    ensures r.Some? ==> 0 < q <= |Frames(shots)| && r.value == Frames(shots)[q - 1]
    ensures r.None? ==> Answer(SnappedAll(NOTHING, shots), q, 0, 0).None?
    ensures q > 0 && q == |Frames(start)| && start[|start| - 1].Good? && (forall k :: others(k) == []) ==>
      r == Some(Frames(start)[q - 1])
  {
    hide Frames, SnappedAll, Answer, Pulled;
    shots := start;
    var view := Replay(start);
    var acc: seq<u8> := [];
    var k := 0;
    var eof := false;
    FramesOfNothing(start);
    while !eof
      invariant start <= shots && view == SnappedAll(NOTHING, shots) && |acc| < 0x1_0000_0000
      invariant if k == 0 then acc == [] && !eof else Pulled(shots, q, acc, eof)
      invariant (forall j :: others(j) == []) ==> shots == start
      decreases !eof, k == 0, if k == 0 then 0 else Remaining(shots, q, acc)
    {
      ghost var before := shots;
      view := ReplayMore(view, others(k), shots);
      shots := shots + others(k);
      assert others(k) == [] ==> shots == before;
      ViewIsLatest(shots);
      var a := Answer(view, q, |acc|, len(k));
      if a.None? {
        RefusedAlike(view, q, |acc|, len(k));
        return None, shots;
      }
      PullStep(before, others(k), q, acc, len(k), k > 0);
      acc := acc + a.value.data;
      eof := a.value.eof;
      k := k + 1;
    }
    PulledAll(shots, q, acc);
    return Some(acc), shots;
  }

  /** The client has the start of the q-th frame, all of it at eof. */
  predicate Pulled(shots: seq<Shot>, q: u32, acc: seq<u8>, eof: bool)
  {
    0 < q <= |Frames(shots)| && acc <= Frames(shots)[q - 1] && (eof <==> acc == Frames(shots)[q - 1])
  }

  function Remaining(shots: seq<Shot>, q: u32, acc: seq<u8>): int {
    if 0 < q <= |Frames(shots)| then |Frames(shots)[q - 1]| - |acc| else 0
  }

  lemma PulledAll(shots: seq<Shot>, q: u32, acc: seq<u8>)
    requires Pulled(shots, q, acc, true)
    ensures 0 < q <= |Frames(shots)| && acc == Frames(shots)[q - 1]
  {
  }

  lemma RefusedAlike(v: View, q: u32, off: u32, len: u32)
    ensures Answer(v, q, off, len).None? <==> Answer(v, q, 0, 0).None?
    ensures Answer(v, q, 0, 0).None? <==> !(v.frame.Some? && q == v.seqNo)
  {
  }

  /** One answered read takes the client further into the same frame, whatever was captured before it. */
  lemma PullStep(before: seq<Shot>, more: seq<Shot>, q: u32, acc: seq<u8>, len: u32, started: bool)
    requires if started then Pulled(before, q, acc, false) else acc == []
    requires |acc| < 0x1_0000_0000 && Answer(SnappedAll(NOTHING, before + more), q, |acc|, len).Some?
    ensures var p := Answer(SnappedAll(NOTHING, before + more), q, |acc|, len).value;
      && Pulled(before + more, q, acc + p.data, p.eof) && |acc + p.data| < 0x1_0000_0000
      && (started && !p.eof ==> Remaining(before + more, q, acc + p.data) < Remaining(before, q, acc))
      && Remaining(before + more, q, acc + p.data) >= 0
  {
    hide SnappedAll, Frames, Answer;
    var v := SnappedAll(NOTHING, before + more);
    FramesGrow(before, more);
    ViewIsLatest(before + more);
    PageIsSlice(v, q, |acc|, len);
    var img := Frames(before + more)[q - 1];
    assert acc == img[..|acc|];
  }

  lemma FramesOfNothing(shots: seq<Shot>)
    ensures |Frames(shots)| > 0 ==> shots != []
  {
  }

  method Replay(shots: seq<Shot>) returns (v: View)
    ensures v == SnappedAll(NOTHING, shots)
  {
    v := ReplayMore(NOTHING, shots, []);
    assert [] + shots == shots;
  }

  method ReplayMore(v0: View, more: seq<Shot>, ghost before: seq<Shot>) returns (v: View)
    requires v0 == SnappedAll(NOTHING, before)
    ensures v == SnappedAll(NOTHING, before + more)
  {
    v := v0;
    assert before + more[..0] == before;
    for i := 0 to |more|
      invariant v == SnappedAll(NOTHING, before + more[..i])
    {
      var all := before + more[..i + 1];
      assert all[..|all| - 1] == before + more[..i];
      v := Snapped(v, more[i]);
    }
    assert more[..|more|] == more;
  }

  // Buffer ownership -----------------------------------------------------------------------------

  /** How every call of one capture turns out: negative codes are failures. The driver fills `filled` of
      the queued buffers before the 2 s dequeue ends, the first of them with `img`. */
  datatype Env = Env(pick: int, setFormat: int, getFormat: int, alloc: nat -> bool, enqueue: nat -> int,
                     start: int, dequeue: int, filled: nat, img: Image)

  /** Every step of the capture works. */
  predicate Works(e: Env) {
    && e.pick >= 0 && e.setFormat >= 0 && e.getFormat >= 0
    && (forall i :: 0 <= i < NBUFS ==> e.alloc(i) && e.enqueue(i) >= 0)
    && e.start >= 0 && e.dequeue >= 0 && e.filled > 0
  }

  /** What a capture comes to, given how many buffers the pool has. */
  function OutcomeOf(e: Env, buffers: nat): Shot {
    if Works(e) && buffers >= NBUFS then Good(e.img) else Bad
  }

  lemma SnapOneMore(before: seq<Shot>, shots: seq<Shot>, last: Shot)
    ensures SnappedAll(NOTHING, before + (shots + [last])) == Snapped(SnappedAll(NOTHING, before + shots), last)
  {
    var all := before + (shots + [last]);
    assert all[..|all| - 1] == before + shots;
  }

  function FrameBag(frame: Option<nat>): multiset<nat> {
    match frame case None => multiset{} case Some(b) => multiset{b}
  }

  /** Everything in its place: how often each buffer is free, with the driver, or the retained frame. */
  ghost function Bag(free: set<nat>, inQueue: seq<nat>, doneQueue: seq<nat>, frame: Option<nat>): multiset<nat> {
    multiset(free) + multiset(inQueue) + multiset(doneQueue) + FrameBag(frame)
  }

  /** A buffer in hand, all others in one place each, is nowhere else. */
  lemma OnlyInHand(free: set<nat>, inQueue: seq<nat>, doneQueue: seq<nat>, frame: Option<nat>, b: nat, pool: set<nat>)
    requires Bag(free, inQueue, doneQueue, frame) + multiset{b} == multiset(pool)
    ensures b in pool && b !in free && b !in inQueue && b !in doneQueue && Some(b) != frame
  {
    var all := Bag(free, inQueue, doneQueue, frame) + multiset{b};
    assert all[b] == multiset(pool)[b] <= 1;
  }

  /** No buffer occurs twice, except perhaps the retained frame. */
  predicate OneEach(q: seq<nat>, frame: Option<nat>) {
    forall i, j :: 0 <= i < j < |q| && q[i] == q[j] ==> Some(q[i]) == frame
  }

  lemma CountTwice(q: seq<nat>, i: nat, j: nat)
    requires i < j < |q| && q[i] == q[j]
    ensures multiset(q)[q[i]] >= 2
  {
    assert q == q[..i] + [q[i]] + q[i + 1..j] + [q[j]] + q[j + 1..];
  }

  /** Once the driver has handed everything over, each buffer is free, handed over once, or the frame. */
  lemma HandedOver(free: set<nat>, q: seq<nat>, frame: Option<nat>, pool: set<nat>)
    requires Bag(free, [], q, frame) == multiset(pool)
    ensures OneEach(q, frame) && (frame.Some? ==> frame.value in pool && frame.value !in free)
    ensures forall b :: b in q ==> b in pool && b !in free && Some(b) != frame
    ensures forall b :: b in pool ==> b in free || b in q || Some(b) == frame
    ensures free <= pool
  {
    var all := Bag(free, [], q, frame);
    forall b: nat ensures all[b] == multiset(free)[b] + multiset(q)[b] + FrameBag(frame)[b] <= 1 {
      assert multiset(pool)[b] <= 1;
    }
    forall b | b in pool ensures b in free || b in q || Some(b) == frame {
      assert all[b] == 1;
    }
    forall b | b in free ensures b in pool {
      assert all[b] >= 1;
    }
    forall b | b in q ensures b in pool && b !in free && Some(b) != frame {
      assert all[b] >= 1;
    }
    forall i, j | 0 <= i < j < |q| ensures q[i] != q[j] {
      if q[i] == q[j] {
        CountTwice(q, i, j);
        assert false;
      }
    }
    if frame.Some? {
      assert all[frame.value] >= 1;
    }
  }

  class Camera {
    const pool: set<nat>
    /** Buffers nobody holds. */
    var free: set<nat>
    /** Buffers the driver holds: waiting to be filled, and waiting to be taken back. */
    var inQueue: seq<nat>
    var doneQueue: seq<nat>
    /** The retained frame and its bytes. */
    var frame: Option<nat>
    var image: Image
    var seqNo: nat

    ghost function Held(): multiset<nat>
      reads this
    {
      Bag(free, inQueue, doneQueue, frame)
    }

    /** Between captures: each pool buffer is either free or the retained frame, and the driver has none. */
    ghost predicate Settled()
      reads this
    {
      && inQueue == [] && doneQueue == []
      && match frame
         case None => free == pool
         case Some(b) => b in pool && free == pool - {b}
    }

    function Sees(): View
      reads this
    {
      View(if frame.Some? then Some(image) else None, seqNo)
    }

    constructor (buffers: set<nat>)
      ensures pool == buffers && Settled() && Sees() == NOTHING
    {
      pool, free, inQueue, doneQueue, frame, image, seqNo := buffers, buffers, [], [], None, [], 0;
    }

    /** Give a buffer back to the pool. The precondition is the point: it is not free already, and the
        driver does not hold it. */
    method Release(b: nat)
      requires b in pool && b !in free && b !in inQueue && b !in doneQueue
      modifies this`free
      ensures free == old(free) + {b} && Held() == old(Held()) + multiset{b}
    {
      free := free + {b};
    }

    method Alloc(ok: bool) returns (b: Option<nat>)
      modifies this`free
      ensures b.Some? <==> ok && old(free) != {}
      ensures b.None? ==> free == old(free)
      ensures b.Some? ==> b.value in old(free) && free == old(free) - {b.value} && Held() + multiset{b.value} == old(Held())
    {
      if !ok || free == {} {
        return None;
      }
      var x :| x in free;
      free := free - {x};
      return Some(x);
    }

    /** The driver takes a buffer, or refuses. */
    method Enqueue(b: nat, code: int) returns (ret: int)
      modifies this`inQueue
      ensures ret == code
      ensures inQueue == if code >= 0 then old(inQueue) + [b] else old(inQueue)
      ensures Held() == old(Held()) + if code >= 0 then multiset{b} else multiset{}
    {
      if code >= 0 {
        inQueue := inQueue + [b];
      }
      return code;
    }

    /** What the driver finishes while the stream runs. */
    method Fill(n: nat)
      modifies this`inQueue, this`doneQueue
      ensures Held() == old(Held())
      ensures doneQueue == [] <==> old(doneQueue) == [] && (n == 0 || old(inQueue) == [])
    {
      var k := if n < |inQueue| then n else |inQueue|;
      assert inQueue == inQueue[..k] + inQueue[k..];
      doneQueue := doneQueue + inQueue[..k];
      inQueue := inQueue[k..];
    }

    /** Take one filled buffer back, if there is one. */
    method Dequeue() returns (b: Option<nat>)
      modifies this`doneQueue
      ensures b.None? <==> old(doneQueue) == []
      ensures b.None? ==> doneQueue == []
      ensures b.Some? ==> [b.value] + doneQueue == old(doneQueue) && Held() + multiset{b.value} == old(Held())
    {
      if doneQueue == [] {
        return None;
      }
      b := Some(doneQueue[0]);
      assert doneQueue == [doneQueue[0]] + doneQueue[1..];
      doneQueue := doneQueue[1..];
    }

    method Retain(b: nat, img: Image)
      requires frame.None?
      modifies this`frame, this`image, this`seqNo
      ensures frame == Some(b) && image == img && seqNo == old(seqNo) + 1 && Held() == old(Held()) + multiset{b}
    {
      frame, image, seqNo := Some(b), img, seqNo + 1;
    }

    /** Stopping the stream cancels whatever is still queued into the done queue. */
    method StreamStop()
      modifies this`inQueue, this`doneQueue
      ensures inQueue == [] && doneQueue == old(doneQueue + inQueue) && Held() == old(Held())
    {
      doneQueue := doneQueue + inQueue;
      inQueue := [];
    }

    /** Allocate one buffer and queue it; a refused one goes back to the pool. */
    method QueueOne(ok: bool, code: int) returns (ret: int)
      requires Held() == multiset(pool)
      modifies this`free, this`inQueue
      ensures Held() == multiset(pool)
      ensures ret >= 0 <==> ok && old(free) != {} && code >= 0
      ensures ret >= 0 ==> |free| == old(|free|) - 1 && |inQueue| == old(|inQueue|) + 1
    {
      hide Bag;
      var b := Alloc(ok);
      if b.None? {
        return -ENOMEM;
      }
      OnlyInHand(free, inQueue, doneQueue, frame, b.value, pool);
      ret := Enqueue(b.value, code);
      if ret < 0 {
        Release(b.value);
      }
    }

    /** Allocate and queue the buffers the driver needs. */
    method Queue(e: Env) returns (ret: int)
      requires free == pool && inQueue == [] && doneQueue == [] && frame.None?
      modifies this`free, this`inQueue
      ensures Held() == multiset(pool)
      ensures ret >= 0 <==> |pool| >= NBUFS && forall i :: 0 <= i < NBUFS ==> e.alloc(i) && e.enqueue(i) >= 0
      ensures ret >= 0 ==> inQueue != []
    {
      ret := 0;
      assert Held() == multiset(pool);
      hide Bag;
      for i := 0 to NBUFS
        invariant Held() == multiset(pool) && |inQueue| == i && |free| == |pool| - i && ret >= 0
        invariant forall j :: 0 <= j < i ==> e.alloc(j) && e.enqueue(j) >= 0
      {
        ret := QueueOne(e.alloc(i), e.enqueue(i));
        if ret < 0 {
          return;
        }
      }
    }

    /** Stream until one frame comes, and retain it. */
    method Stream(e: Env) returns (ret: int)
      requires free == pool && inQueue == [] && doneQueue == [] && frame.None?
      modifies this
      ensures Held() == multiset(pool)
      ensures ret >= 0 <==>
        && |pool| >= NBUFS && (forall i :: 0 <= i < NBUFS ==> e.alloc(i) && e.enqueue(i) >= 0)
        && e.start >= 0 && e.dequeue >= 0 && e.filled > 0
      ensures Sees() == Snapped(View(None, old(seqNo)), if ret >= 0 then Good(e.img) else Bad)
    {
      hide Bag;
      ret := Queue(e);
      if ret < 0 {
        return;
      }
      ret := e.start;
      if ret < 0 {
        return;
      }
      Fill(e.filled);
      ret := e.dequeue;
      if ret < 0 {
        return;
      }
      var b := Dequeue();
      if b.None? {
        return -EAGAIN;
      }
      Retain(b.value, e.img);
    }

    /** Release everything the driver hands back except, by identity, the retained frame: even a driver
        that hands back the retained frame, any number of times, does not get it released. */
    method Drain()
      requires inQueue == [] && OneEach(doneQueue, frame)
      requires forall b :: b in doneQueue && Some(b) != frame ==> b in pool && b !in free
      modifies this`free, this`doneQueue
      ensures doneQueue == []
      ensures forall b :: b in free <==> b in old(free) || (b in old(doneQueue) && Some(b) != frame)
    {
      hide Bag;
      ghost var all := doneQueue;
      var i := 0;
      var drained := Dequeue();
      while drained.Some?
        invariant drained.Some? ==> i < |all| && drained.value == all[i] && doneQueue == all[i + 1..]
        invariant drained.None? ==> i == |all| && doneQueue == []
        invariant forall b :: b in free <==> b in old(free) || (b in all[..i] && Some(b) != frame)
        decreases |all| - i
      {
        var b := drained.value;
        if drained != frame {
          assert b in all;
          Release(b);
        }
        i := i + 1;
        drained := Dequeue();
      }
      assert all[..i] == all;
    }

    /** Capture a frame. Whatever fails and wherever, afterwards every buffer is free or the one retained
        frame and the driver has none; what readers see is the new frame, or no frame at all. */
    method Capture(e: Env) returns (ret: int)
      requires Settled()
      modifies this
      ensures Settled()
      ensures ret >= 0 <==> OutcomeOf(e, |pool|).Good?
      ensures Sees() == Snapped(old(Sees()), OutcomeOf(e, |pool|))
    {
      hide Bag, OneEach;
      if frame.Some? {
        Release(frame.value);
        frame := None;
      }
      ret := e.pick;
      if ret < 0 {
        return;
      }
      ret := e.setFormat;
      if ret < 0 {
        return;
      }
      ret := e.getFormat;
      if ret < 0 {
        return;
      }
      ret := Stream(e);
      StreamStop();
      HandedOver(free, doneQueue, frame, pool);
      Drain();
    }

    /** READ. */
    method Read(seqNo0: u32, off0: u32, len: u32) returns (r: Option<Page>)
      ensures r == Answer(Sees(), seqNo0, off0, len)
    {
      var want := len;
      if want == 0 || want > READ_MAX {
        want := READ_MAX;
      }
      if frame.None? || seqNo0 != seqNo {
        return None;
      }
      var off := if off0 < |image| then off0 else |image|;
      want := if want < |image| - off then want else |image| - off;
      var eof := off + want >= |image|;
      return Some(Page(off, image[off..off + want], eof));
    }

    /** Any number of captures: no buffer is ever lost, and readers see the history of their outcomes. */
    method CaptureAll(envs: seq<Env>, ghost before: seq<Shot>) returns (ghost shots: seq<Shot>)
      requires Settled() && Sees() == SnappedAll(NOTHING, before)
      modifies this
      ensures Settled() && Sees() == SnappedAll(NOTHING, before + shots)
      ensures |shots| == |envs| && forall k :: 0 <= k < |envs| ==> shots[k] == OutcomeOf(envs[k], |pool|)
    {
      hide Works, SnappedAll, Settled, Sees, OutcomeOf;
      shots := [];
      assert before + shots == before;
      for i := 0 to |envs|
        invariant Settled() && Sees() == SnappedAll(NOTHING, before + shots) && |shots| == i
        invariant forall k :: 0 <= k < i ==> shots[k] == OutcomeOf(envs[k], |pool|)
      {
        var ret := Capture(envs[i]);
        SnapOneMore(before, shots, OutcomeOf(envs[i], |pool|));
        shots := shots + [OutcomeOf(envs[i], |pool|)];
      }
    }
  }
}
