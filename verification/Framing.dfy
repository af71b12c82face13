/** Length-prefixed frames on a byte stream: what writers put there and what a reader gets back. */
module Framing {
  import opened Basics

  const MAX_ENVELOPE_BYTES: nat := 8388608

  /** A length as four bytes, most significant first. */
  function Header(n: nat): seq<byte>
    requires n < 0x1_0000_0000
  {
    [n / 0x100_0000, n / 0x1_0000 % 0x100, n / 0x100 % 0x100, n % 0x100]
  }

  function Length(h: seq<byte>): (n: nat)
    requires |h| == 4
    ensures n < 0x1_0000_0000
  {
    ((h[0] as int * 0x100 + h[1]) * 0x100 + h[2]) * 0x100 + h[3]
  }

  predicate Fits(p: seq<byte>)
  {
    |p| <= MAX_ENVELOPE_BYTES
  }

  function Frame(p: seq<byte>): seq<byte>
    requires Fits(p)
  {
    Header(|p|) + p
  }

  predicate AllFit(ps: seq<seq<byte>>)
  {
    forall i :: 0 <= i < |ps| ==> Fits(ps[i])
  }

  /** The frames of `ps` one after the other. */
  function Frames(ps: seq<seq<byte>>): seq<byte>
    requires AllFit(ps)
  {
    if ps == [] then [] else Frame(ps[0]) + Frames(ps[1..])
  }

  datatype Error = Eof | UnexpectedEof | TooLarge | Malformed

  datatype Read = Got(payload: seq<byte>, rest: seq<byte>) | Fail(error: Error)

  /** `io.ReadFull`: end of file only when nothing at all could be read and something was wanted. */
  function ReadFull(s: seq<byte>, n: nat): Read
  {
    if |s| >= n then Got(s[..n], s[n..])
    else if s == [] then Fail(Eof)
    else Fail(UnexpectedEof)
  }

  function ReadEnvelope(s: seq<byte>): Read
  {
    match ReadFull(s, 4)
    case Fail(e) => Fail(e)
    case Got(h, rest) => if Length(h) > MAX_ENVELOPE_BYTES then Fail(TooLarge) else ReadFull(rest, Length(h))
  }

  datatype Transcript = Transcript(payloads: seq<seq<byte>>, error: Error)

  /** The read loop of a stream: envelopes until the first error. */
  function ReadAll(s: seq<byte>): Transcript
    decreases |s|
  {
    match ReadEnvelope(s)
    case Fail(e) => Transcript([], e)
    case Got(p, rest) =>
      var more := ReadAll(rest);
      Transcript([p] + more.payloads, more.error)
  }

  /** The same loop when it also ends at the first payload that is no envelope. */
  function Handled(s: seq<byte>, decodes: seq<byte> -> bool): Transcript
    decreases |s|
  {
    match ReadEnvelope(s)
    case Fail(e) => Transcript([], e)
    case Got(p, rest) =>
      if !decodes(p) then Transcript([], Malformed)
      else
        var more := Handled(rest, decodes);
        Transcript([p] + more.payloads, more.error)
  }

  // ---------- one frame ----------

  lemma HeaderRoundTrip(n: nat)
    requires n < 0x1_0000_0000
    ensures Length(Header(n)) == n
  {
    var a, b, c := n / 0x100, n / 0x1_0000, n / 0x100_0000;
    assert n == a * 0x100 + n % 0x100;
    assert b == a / 0x100 && a == b * 0x100 + a % 0x100;
    assert c == b / 0x100 && b == c * 0x100 + b % 0x100;
  }

  lemma LengthRoundTrip(h: seq<byte>)
    requires |h| == 4
    ensures Header(Length(h)) == h
  {
    var n := Length(h);
    var b: int := h[0] as int * 0x100 + h[1];
    var a: int := b * 0x100 + h[2];
    assert n == a * 0x100 + h[3];
    assert n / 0x100 == a && n % 0x100 == h[3];
    assert a / 0x100 == b && a % 0x100 == h[2];
    assert n / 0x1_0000 == b;
    assert n / 0x100_0000 == h[0] && b % 0x100 == h[1];
  }

  /** Most significant byte first: small lengths sit in the last byte, and a factor of 256 shifts by one. */
  lemma HeaderBigEndian(n: nat, b: byte)
    requires n < 0x100_0000
    ensures Header(b as int) == [0, 0, 0, b]
    ensures Header(n * 0x100 + b as int) == Header(n)[1..] + [b]
  {
    var m := n * 0x100 + b as int;
    assert m / 0x100 == n && m % 0x100 == b as int;
    assert m / 0x1_0000 == n / 0x100 && m / 0x100_0000 == n / 0x1_0000;
    assert n / 0x100_0000 == 0;
  }

  /** Payloads of up to 8 MiB travel; a longer announcement is refused whatever follows it. */
  lemma OversizeRefused(p: seq<byte>, s: seq<byte>)
    ensures Fits(p) <==> |p| <= 8 * 1024 * 1024
    ensures |s| >= 4 ==> (ReadEnvelope(s) == Fail(TooLarge) <==> Length(s[..4]) > 8 * 1024 * 1024)
  {
  }

  lemma FrameReads(p: seq<byte>, tail: seq<byte>)
    requires Fits(p)
    ensures ReadEnvelope(Frame(p) + tail) == Got(p, tail)
  {
    var s := Frame(p) + tail;
    HeaderRoundTrip(|p|);
    assert s[..4] == Header(|p|) && s[4..] == p + tail;
    assert s[4..][..|p|] == p && s[4..][|p|..] == tail;
  }

  /** A frame cut before its end: only a cut at the start or right after the header looks like a clean end of file. */
  lemma CutFrame(p: seq<byte>, k: nat)
    requires Fits(p) && k < |Frame(p)|
    ensures ReadEnvelope(Frame(p)[..k]) == Fail(if k == 0 || k == 4 then Eof else UnexpectedEof)
  {
    var s := Frame(p)[..k];
    if k >= 4 {
      HeaderRoundTrip(|p|);
      assert s[..4] == Header(|p|);
      assert |s[4..]| == k - 4;
    }
  }

  // ---------- a whole stream ----------

  /** The number of frames of `ps` that end within the first `k` bytes. */
  function Whole(ps: seq<seq<byte>>, k: nat): (j: nat)
    requires AllFit(ps)
    ensures j <= |ps|
  {
    if ps == [] || k < |Frame(ps[0])| then 0 else 1 + Whole(ps[1..], k - |Frame(ps[0])|)
  }

  lemma {:induction false} WholeExact(ps: seq<seq<byte>>, k: nat)
    requires AllFit(ps)
    ensures |Frames(ps[..Whole(ps, k)])| <= k
    ensures Whole(ps, k) < |ps| ==> k < |Frames(ps[..Whole(ps, k) + 1])|
  {
    var j := Whole(ps, k);
    if ps != [] && k >= |Frame(ps[0])| {
      WholeExact(ps[1..], k - |Frame(ps[0])|);
      assert ps[..j][1..] == ps[1..][..j - 1];
      if j < |ps| { assert ps[..j + 1][1..] == ps[1..][..j]; }
    } else if ps != [] {
      assert ps[..1][1..] == [];
    }
  }

  /** What is left over of the first `k` bytes after the whole frames. */
  function Over(ps: seq<seq<byte>>, k: nat): nat
    requires AllFit(ps)
  {
    WholeExact(ps, k);
    k - |Frames(ps[..Whole(ps, k)])|
  }

  lemma OverStep(ps: seq<seq<byte>>, k: nat)
    requires AllFit(ps) && ps != [] && k >= |Frame(ps[0])|
    ensures var j := Whole(ps[1..], k - |Frame(ps[0])|);
            && ps[..Whole(ps, k)] == [ps[0]] + ps[1..][..j]
            && Over(ps, k) == Over(ps[1..], k - |Frame(ps[0])|)
  {
    var j := Whole(ps[1..], k - |Frame(ps[0])|);
    var front := ps[..Whole(ps, k)];
    assert front == [ps[0]] + ps[1..][..j];
    assert front[1..] == ps[1..][..j];
  }

  lemma CutBehind(first: seq<byte>, rest: seq<byte>, k: nat)
    requires |first| <= k <= |first| + |rest|
    ensures (first + rest)[..k] == first + rest[..k - |first|]
  {
  }

  /** Whatever prefix of the frames arrives, the reader gets the payloads of exactly the frames that are whole, in order,
      and then an error: end of file when the cut falls on a frame boundary or right after a header. */
  lemma {:induction false} CutStream(ps: seq<seq<byte>>, k: nat)
    requires AllFit(ps) && k <= |Frames(ps)|
    ensures ReadAll(Frames(ps)[..k])
         == Transcript(ps[..Whole(ps, k)], if Over(ps, k) in {0, 4} then Eof else UnexpectedEof)
  {
    if ps == [] {
      assert Frames(ps)[..k] == [];
    } else if k < |Frame(ps[0])| {
      CutFrame(ps[0], k);
      assert Frames(ps)[..k] == Frame(ps[0])[..k];
      assert Frames(ps[..0]) == [];
    } else {
      var n := |Frame(ps[0])|;
      CutStream(ps[1..], k - n);
      CutBehind(Frame(ps[0]), Frames(ps[1..]), k);
      FrameReads(ps[0], Frames(ps[1..])[..k - n]);
      OverStep(ps, k);
    }
  }

  /** A complete stream reads back exactly what was written, and then ends cleanly. */
  lemma ReadBack(ps: seq<seq<byte>>)
    requires AllFit(ps)
    ensures ReadAll(Frames(ps)) == Transcript(ps, Eof)
  {
    var k := |Frames(ps)|;
    CutStream(ps, k);
    WholeExact(ps, k);
    WholeIsAll(ps);
    assert Frames(ps)[..k] == Frames(ps);
    assert ps[..|ps|] == ps;
  }

  lemma {:induction false} WholeIsAll(ps: seq<seq<byte>>)
    requires AllFit(ps)
    ensures Whole(ps, |Frames(ps)|) == |ps|
  {
    if ps != [] { WholeIsAll(ps[1..]); }
  }

  lemma ReadOne(s: seq<byte>)
    requires ReadEnvelope(s).Got?
    ensures Fits(ReadEnvelope(s).payload) && s == Frame(ReadEnvelope(s).payload) + ReadEnvelope(s).rest
  {
    var Got(p, rest) := ReadEnvelope(s);
    LengthRoundTrip(s[..4]);
    assert s[4..] == p + rest;
    assert s == s[..4] + s[4..];
  }

  /** On any bytes at all, what the reader returns is what the stream starts with, framed. */
  lemma {:induction false} ReadSound(s: seq<byte>)
    ensures AllFit(ReadAll(s).payloads)
    ensures Frames(ReadAll(s).payloads) <= s
    decreases |s|
  {
    match ReadEnvelope(s)
    case Fail(e) =>
    case Got(p, rest) =>
      ReadOne(s);
      ReadSound(rest);
      assert ReadAll(s).payloads[1..] == ReadAll(rest).payloads;
      assert Frames(ReadAll(s).payloads) == Frame(p) + Frames(ReadAll(rest).payloads);
  }

  /** What is handled are the payloads of the stream up to the first that is no envelope, and the loop ends with the
      stream's own error exactly when there is none such. */
  lemma {:induction false} HandledUpTo(s: seq<byte>, decodes: seq<byte> -> bool)
    ensures var t, h := ReadAll(s), Handled(s, decodes);
            && h.payloads <= t.payloads
            && (forall i :: 0 <= i < |h.payloads| ==> decodes(h.payloads[i]))
            && (|h.payloads| < |t.payloads| ==> h.error == Malformed && !decodes(t.payloads[|h.payloads|]))
            && (|h.payloads| == |t.payloads| ==> h.error == t.error)
    decreases |s|
  {
    match ReadEnvelope(s)
    case Fail(e) =>
    case Got(p, rest) =>
      if decodes(p) { HandledUpTo(rest, decodes); }
  }

  // ---------- writers sharing one stream ----------

  datatype Phase = Locked | HeaderDone | PayloadDone

  datatype Holder = Nobody | Holder(writer: nat, payload: seq<byte>, phase: Phase)

  /** `order` holds the accepted payloads in the order in which their writers got the mutex. */
  datatype System = System(stream: seq<byte>, holder: Holder, order: seq<seq<byte>>)

  datatype Step = Lock(writer: nat, payload: seq<byte>) | WriteLength(writer: nat) | WritePayload(writer: nat) | Unlock(writer: nat)

  predicate Holds(s: System, writer: nat, phase: Phase)
  {
    s.holder.Holder? && s.holder.writer == writer && s.holder.phase == phase
  }

  predicate Enabled(s: System, step: Step)
  {
    match step
    case Lock(_, _) => s.holder == Nobody
    case WriteLength(w) => Holds(s, w, Locked) && Fits(s.holder.payload)
    case WritePayload(w) => Holds(s, w, HeaderDone)
    case Unlock(w) => Holds(s, w, PayloadDone) || (Holds(s, w, Locked) && !Fits(s.holder.payload))
  }

  function Do(s: System, step: Step): System
    requires Enabled(s, step)
  {
    match step
    case Lock(w, p) => s.(holder := Holder(w, p, Locked), order := if Fits(p) then s.order + [p] else s.order)
    case WriteLength(_) =>
      s.(stream := s.stream + Header(|s.holder.payload|), holder := s.holder.(phase := HeaderDone))
    case WritePayload(_) => s.(stream := s.stream + s.holder.payload, holder := s.holder.(phase := PayloadDone))
    case Unlock(_) => s.(holder := Nobody)
  }

  ghost predicate IsRun(run: seq<System>, steps: seq<Step>)
  {
    && |run| == |steps| + 1
    && forall i :: 0 <= i < |steps| ==> Enabled(run[i], steps[i]) && run[i + 1] == Do(run[i], steps[i])
  }

  predicate Fitting(h: Holder)
  {
    h.Holder? && Fits(h.payload)
  }

  /** The stream is the frames of all finished writes and what the holder has written of its own. */
  ghost predicate Inv(s: System)
  {
    && AllFit(s.order)
    && (s.holder.Holder? && s.holder.phase != Locked ==> Fitting(s.holder))
    && (Fitting(s.holder) ==> s.order != [] && s.order[|s.order| - 1] == s.holder.payload)
    && s.stream == (
         if !Fitting(s.holder) then Frames(s.order)
         else Frames(s.order[..|s.order| - 1])
              + (match s.holder.phase case Locked => [] case HeaderDone => Header(|s.holder.payload|)
                                      case PayloadDone => Frame(s.holder.payload)))
  }

  lemma Associative(a: seq<byte>, b: seq<byte>, c: seq<byte>)
    ensures a + (b + c) == (a + b) + c
  {
  }

  lemma {:induction false} FramesAppend(ps: seq<seq<byte>>, p: seq<byte>)
    requires AllFit(ps) && Fits(p)
    ensures AllFit(ps + [p]) && Frames(ps + [p]) == Frames(ps) + Frame(p)
  {
    var all := ps + [p];
    if ps == [] {
      assert all[1..] == [] && Frames([]) == [];
    } else {
      FramesAppend(ps[1..], p);
      assert all[0] == ps[0] && all[1..] == ps[1..] + [p];
      Associative(Frame(ps[0]), Frames(ps[1..]), Frame(p));
    }
  }

  lemma SplitOrder(order: seq<seq<byte>>)
    requires AllFit(order) && order != []
    ensures Frames(order) == Frames(order[..|order| - 1]) + Frame(order[|order| - 1])
  {
    var front, last := order[..|order| - 1], order[|order| - 1];
    assert order == front + [last];
    FramesAppend(front, last);
  }

  lemma LockKeepsInv(s: System, w: nat, p: seq<byte>)
    requires Inv(s) && s.holder == Nobody
    ensures Inv(Do(s, Lock(w, p)))
  {
    var order := Do(s, Lock(w, p)).order;
    if Fits(p) {
      assert order[..|order| - 1] == s.order;
    }
  }

  lemma LengthKeepsInv(s: System, w: nat)
    requires Inv(s) && Enabled(s, WriteLength(w))
    ensures Inv(Do(s, WriteLength(w)))
  {
    var front := Frames(s.order[..|s.order| - 1]);
    assert s.stream == front;
  }

  lemma PayloadKeepsInv(s: System, w: nat)
    requires Inv(s) && Enabled(s, WritePayload(w))
    ensures Inv(Do(s, WritePayload(w)))
  {
    var front, p := Frames(s.order[..|s.order| - 1]), s.holder.payload;
    assert s.stream == front + Header(|p|);
    Associative(front, Header(|p|), p);
  }

  lemma UnlockKeepsInv(s: System, w: nat)
    requires Inv(s) && Enabled(s, Unlock(w))
    ensures Inv(Do(s, Unlock(w)))
  {
    if Fitting(s.holder) {
      SplitOrder(s.order);
    }
  }

  lemma StepKeepsInv(s: System, step: Step)
    requires Inv(s) && Enabled(s, step)
    ensures Inv(Do(s, step))
  {
    match step
    case Lock(w, p) => LockKeepsInv(s, w, p);
    case WriteLength(w) => LengthKeepsInv(s, w);
    case WritePayload(w) => PayloadKeepsInv(s, w);
    case Unlock(w) => UnlockKeepsInv(s, w);
  }

  lemma {:induction false} RunKeepsInv(run: seq<System>, steps: seq<Step>, n: nat)
    requires IsRun(run, steps) && run[0] == System([], Nobody, []) && n < |run|
    ensures Inv(run[n])
    decreases n
  {
    if n == 0 {
    } else {
      RunKeepsInv(run, steps, n - 1);
      StepKeepsInv(run[n - 1], steps[n - 1]);
    }
  }

  lemma StreamIsPrefix(s: System)
    requires Inv(s)
    ensures s.stream <= Frames(s.order)
  {
    if Fitting(s.holder) { SplitOrder(s.order); }
  }

  /** However writers interleave under the mutex, and wherever the stream is cut, the reader gets a prefix of the accepted
      payloads in lock order and then an end-of-file error; uncut and with the mutex free, it gets all of them. */
  lemma ReadsInLockOrder(run: seq<System>, steps: seq<Step>, n: nat, k: nat)
    requires IsRun(run, steps) && run[0] == System([], Nobody, []) && n < |run| && k <= |run[n].stream|
    ensures AllFit(run[n].order)
    ensures var order := run[n].order;
            var t := ReadAll(run[n].stream[..k]);
            && t == Transcript(order[..Whole(order, k)], if Over(order, k) in {0, 4} then Eof else UnexpectedEof)
            && (k == |run[n].stream| && run[n].holder == Nobody ==> t == Transcript(order, Eof))
  {
    RunKeepsInv(run, steps, n);
    var s := run[n];
    StreamIsPrefix(s);
    assert s.stream[..k] == Frames(s.order)[..k];
    CutStream(s.order, k);
    if k == |s.stream| && s.holder == Nobody {
      ReadBack(s.order);
      assert Frames(s.order)[..k] == Frames(s.order);
    }
  }

  // ---------- as code ----------

  class Stream {
    var data: seq<byte>

    /** Takes `n` bytes off the front, or reports why it cannot; a failed read has taken everything. */
    method Take(n: nat) returns (r: Read)
      modifies this
      ensures r == ReadFull(old(data), n)
      ensures data == if r.Got? then r.rest else []
    {
      r := ReadFull(data, n);
      data := if r.Got? then r.rest else [];
    }

    method Receive() returns (r: Read)
      modifies this
      ensures r == ReadEnvelope(old(data))
      ensures r.Got? ==> data == r.rest
    {
      var header := Take(4);
      if header.Fail? { return header; }
      var length := Length(header.payload);
      if length > MAX_ENVELOPE_BYTES { return Fail(TooLarge); }
      r := Take(length);
    }

    method Send(payload: seq<byte>) returns (written: bool)
      modifies this
      ensures written <==> Fits(payload)
      ensures data == if Fits(payload) then old(data) + Frame(payload) else old(data)
    {
      if |payload| > MAX_ENVELOPE_BYTES { return false; }
      data := data + Header(|payload|);
      data := data + payload;
      written := true;
    }

    /** The session's read loop. */
    method HandleStream(decodes: seq<byte> -> bool) returns (received: seq<seq<byte>>, error: Error)
      modifies this
      ensures Transcript(received, error) == Handled(old(data), decodes)
    {
      received := [];
      while true
        invariant Handled(old(data), decodes)
               == Transcript(received + Handled(data, decodes).payloads, Handled(data, decodes).error)
        decreases |data|
      {
        var r := Receive();
        if r.Fail? { return received, r.error; }
        if !decodes(r.payload) { return received, Malformed; }
        received := received + [r.payload];
      }
    }
  }
}
