/** The data side of a stream, end to end: chunks are cut into frames, lost, repeated,
    delayed and reordered, and put together again by the receiver. */
module ByteStreams {
  import opened DataQueues
  import opened OffsetSorters
  import opened Sequences
  import opened Wrappers

  // ----- the sender

  /** What was ever written, how far it was cut, and the frames waiting to be sent again. */
  datatype Sender = Sender(written: Bytes, offset: nat, retry: seq<Piece>)

  /** The oldest rejected frame, split if it is too long. */
  ghost function SplitRetry(retry: seq<Piece>, size: nat): (seq<Piece>, Piece)
    requires retry != []
  {
    var p := retry[0];
    if |p.data| > size then
      ([Piece(p.offset + size, p.data[size..])] + retry[1..], Piece(p.offset, p.data[..size]))
    else
      (retry[1..], p)
  }

  /** The first bytes that were never cut. */
  ghost function TakeNew(s: Sender, maxBytes: int): (Sender, Piece)
    requires s.offset <= |s.written|
  {
    var n := Clamp(maxBytes, |s.written| - s.offset);
    (s.(offset := s.offset + n), Piece(s.offset, s.written[s.offset..s.offset + n]))
  }

  /** The next bytes for a packet with room for `size`: a rejected frame first, else new bytes
      within the window granted by the peer. */
  ghost function Take(s: Sender, size: nat, window: int): (r: (Sender, Piece))
    requires size > 0 && s.offset <= |s.written|
  {
    if s.retry != [] then
      var (retry, p) := SplitRetry(s.retry, size);
      (s.(retry := retry), p)
    else
      TakeNew(s, if size < window - s.offset then size else window - s.offset)
  }

  function Smallest(a: int, b: int, c: int): nat {
    var m := if a < b then a else b;
    var n := if m < c then m else c;
    if n < 0 then 0 else n
  }

  /** The oldest rejected frame goes first, whole or its front, and the rest of it stays first in line.
      Otherwise as many new bytes as size, window and queue allow, from where cutting stopped. */
  lemma TakeMeaning(s: Sender, size: nat, window: int)
    requires size > 0 && s.offset <= |s.written|
    ensures var (s1, p) := Take(s, size, window);
            && s1.written == s.written && |p.data| <= size
            && (s.retry != [] ==>
                  && s1.offset == s.offset
                  && p.offset == s.retry[0].offset && |p.data| == Smallest(size, |s.retry[0].data|, size)
                  && p.data == s.retry[0].data[..|p.data|]
                  && s1.retry == (if |p.data| == |s.retry[0].data| then []
                                  else [Piece(p.End(), s.retry[0].data[|p.data|..])]) + s.retry[1..])
            && (s.retry == [] ==>
                  && s1.retry == [] && s1.offset == p.End() && p.offset == s.offset
                  && |p.data| == Smallest(size, window - s.offset, |s.written| - s.offset)
                  && p.data == s.written[s.offset..s.offset + |p.data|]
                  && (p.data != [] ==> p.End() <= window))
  {}

  lemma SliceOfSuffix(s: Bytes, offset: nat, n: nat)
    requires offset + n <= |s|
    ensures s[offset..][..n] == s[offset..offset + n] && s[offset..][n..] == s[offset + n..]
  {}

  /** What a read takes from the queue and leaves in it, in terms of the bytes ever written. */
  lemma ReadIsTakeNew(s: Sender, maxBytes: int, queued: Bytes, got: Bytes, left: Bytes)
    requires s.offset <= |s.written| && queued == s.written[s.offset..]
    requires got == queued[..Clamp(maxBytes, |queued|)] && left == queued[Clamp(maxBytes, |queued|)..]
    ensures s.offset + |got| <= |s.written| && left == s.written[s.offset + |got|..]
    ensures TakeNew(s, maxBytes) == (s.(offset := s.offset + |got|), Piece(s.offset, got))
  {
    SliceOfSuffix(s.written, s.offset, Clamp(maxBytes, |queued|));
  }

  class OutgoingData {
    const outgoingData: DataQueue
    var retry: seq<Piece>
    var outgoingOffset: nat
    var remoteMaxOffset: nat
    ghost var written: Bytes

    /** The queue holds exactly the bytes that were never cut. */
    ghost predicate Valid()
      reads this, outgoingData, outgoingData.nodes
    {
      && outgoingData.Valid()
      && outgoingOffset <= |written|
      && outgoingData.Content() == written[outgoingOffset..]
    }

    ghost function State(): Sender
      reads this
    {
      Sender(written, outgoingOffset, retry)
    }

    constructor ()
      ensures Valid() && State() == Sender([], 0, []) && remoteMaxOffset == 16384
    {
      outgoingData := new DataQueue();
      retry, outgoingOffset, remoteMaxOffset, written := [], 0, 16384, [];
    }

    method Write(chunk: Bytes, callback: Callback)
      requires Valid()
      modifies this`written, outgoingData, outgoingData.nodes
      ensures Valid() && State() == old(State()).(written := old(written) + chunk)
    {
      outgoingData.Push(chunk, callback);
      written := written + chunk;
    }

    /** The caller never passes a size that is not positive. */
    method GetAvailableDataToSend(size: nat) returns (data: Option<Bytes>, offset: nat)
      requires Valid() && size > 0
      modifies this`retry, this`outgoingOffset, outgoingData, outgoingData.nodes
      ensures Valid()
      ensures Take(old(State()), size, remoteMaxOffset) ==
              (State(), Piece(offset, if data.Some? then data.value else []))
    {
      if |retry| > 0 {
        data, offset := TakeRetry(size);
      } else {
        var maxBytes := if size < remoteMaxOffset - outgoingOffset then size else remoteMaxOffset - outgoingOffset;
        data, offset := TakeNewData(maxBytes);
      }
    }

    method TakeRetry(size: nat) returns (data: Option<Bytes>, offset: nat)
      requires |retry| > 0 && size > 0
      modifies this`retry
      ensures data.Some?
      ensures SplitRetry(old(retry), size) == (retry, Piece(offset, data.value))
    {
      var toSend := retry[0];
      if |toSend.data| > size {
        retry := [Piece(toSend.offset + size, toSend.data[size..])] + retry[1..];
        return Some(toSend.data[..size]), toSend.offset;
      } else {
        retry := retry[1..];
        return Some(toSend.data), toSend.offset;
      }
    }

    method TakeNewData(maxBytes: int) returns (data: Option<Bytes>, offset: nat)
      requires Valid()
      modifies this`outgoingOffset, outgoingData, outgoingData.nodes
      ensures Valid()
      ensures TakeNew(old(State()), maxBytes) == (State(), Piece(offset, if data.Some? then data.value else []))
    {
      offset := outgoingOffset;
      data := ReadQueue(maxBytes);
      if data.Some? && |data.value| > 0 {
        outgoingOffset := outgoingOffset + |data.value|;
      }
    }

    /** The queue afterwards is what remains behind the bytes taken. */
    method ReadQueue(maxBytes: int) returns (data: Option<Bytes>)
      requires Valid()
      modifies outgoingData, outgoingData.nodes
      ensures outgoingData.Valid()
      ensures var got := if data.Some? then data.value else [];
              && outgoingOffset + |got| <= |written|
              && outgoingData.Content() == written[outgoingOffset + |got|..]
              && TakeNew(State(), maxBytes) ==
                 (State().(offset := outgoingOffset + |got|), Piece(outgoingOffset, got))
    {
      ghost var queued := outgoingData.Content();
      var fired;
      data, fired := outgoingData.Read(maxBytes);
      ReadIsTakeNew(State(), maxBytes, queued, if data.Some? then data.value else [], outgoingData.Content());
    }

    /** The peer's window never shrinks. */
    method RaiseRemoteMaxOffset(newOffset: nat) returns (raised: bool)
      requires Valid()
      modifies this`remoteMaxOffset
      ensures Valid() && State() == old(State())
      ensures raised <==> newOffset > old(remoteMaxOffset)
      ensures remoteMaxOffset == if raised then newOffset else old(remoteMaxOffset)
    {
      raised := newOffset > remoteMaxOffset;
      if raised {
        remoteMaxOffset := newOffset;
      }
    }

    method ResendOutgoingData(data: Bytes, offset: nat)
      requires Valid()
      modifies this`retry
      ensures Valid() && State() == old(State()).(retry := old(retry) + [Piece(offset, data)])
    {
      retry := retry + [Piece(offset, data)];
    }

    /** The reported end of the outgoing data is the number of bytes ever written. */
    method GetOutgoingOffsets() returns (current: nat, max: nat)
      requires Valid()
      ensures current == outgoingOffset && max == |written|
    {
      var queued := outgoingData.ByteLength();
      current, max := outgoingOffset, outgoingOffset + queued;
    }

    method IsDataBlocked() returns (end: Option<nat>)
      requires Valid()
      ensures end == if remoteMaxOffset < |written| then Some(|written|) else None
    {
      var queued := outgoingData.ByteLength();
      end := if remoteMaxOffset < outgoingOffset + queued then Some(outgoingOffset + queued) else None;
    }
  }

  /** Moves readable chunks to the application until it has `size` bytes or nothing more can
      be read; what was moved and what can still be read is what could be read before. */
  method Refill(sorter: OffsetSorter, size: int) returns (pushed: Bytes)
    requires sorter.Valid()
    modifies sorter
    ensures sorter.Valid()
    ensures Drain(old(sorter.Pieces()), old(sorter.readOffset)) == pushed + Drain(sorter.Pieces(), sorter.readOffset)
    ensures |pushed| >= size || Drain(sorter.Pieces(), sorter.readOffset) == []
    decreases |sorter.nodes|
  {
    var data := sorter.Read();
    if data.None? {
      return [];
    }
    pushed := data.value;
    if |pushed| < size {
      var more := Refill(sorter, size - |pushed|);
      pushed := pushed + more;
    }
  }

  // ----- both ends and everything in between

  /** `outbound` frames are on their way, `arrived` ones reached the sorter but their packet
      has no response yet; `history` is every frame ever sent. */
  datatype Net = Net(sender: Sender, outbound: seq<Piece>, arrived: seq<Piece>, acked: seq<Piece>,
                     history: seq<Piece>, sorter: seq<Piece>, readOffset: nat, output: Bytes)

  datatype Step =
    | Write(data: Bytes)
    | Cut(size: nat, window: int)
    | Deliver(i: nat)
    | Acknowledge(i: nat)
    | Reject(i: nat)
    | RejectArrived(i: nat)
    | Replay(i: nat)
    | Read

  const START: Net := Net(Sender([], 0, []), [], [], [], [], [], 0, [])

  function Without<T>(s: seq<T>, i: nat): seq<T>
    requires i < |s|
  {
    s[..i] + s[i + 1..]
  }

  ghost predicate Enabled(n: Net, t: Step) {
    match t
    case Write(_) => true
    case Cut(size, _) => size > 0 && n.sender.offset <= |n.sender.written|
    case Deliver(i) => i < |n.outbound|
    case Acknowledge(i) => i < |n.arrived|
    case Reject(i) => i < |n.outbound|
    case RejectArrived(i) => i < |n.arrived|
    case Replay(i) => i < |n.history|
    case Read => true
  }

  ghost function Next(n: Net, t: Step): Net
    requires Enabled(n, t)
  {
    match t
    case Write(data) => n.(sender := n.sender.(written := n.sender.written + data))
    case Cut(size, window) =>
      var (s, p) := Take(n.sender, size, window);
      if p.data == [] then n.(sender := s)
      else n.(sender := s, outbound := n.outbound + [p], history := n.history + [p])
    case Deliver(i) =>
      n.(outbound := Without(n.outbound, i), arrived := n.arrived + [n.outbound[i]],
         sorter := Insert(n.sorter, n.outbound[i]))
    case Acknowledge(i) => n.(arrived := Without(n.arrived, i), acked := n.acked + [n.arrived[i]])
    case Reject(i) =>
      n.(outbound := Without(n.outbound, i), sender := n.sender.(retry := n.sender.retry + [n.outbound[i]]))
    case RejectArrived(i) =>
      n.(arrived := Without(n.arrived, i), sender := n.sender.(retry := n.sender.retry + [n.arrived[i]]))
    case Replay(i) => n.(sorter := Insert(n.sorter, n.history[i]))
    case Read =>
      if n.sorter != [] && n.sorter[0].offset == n.readOffset then
        n.(sorter := n.sorter[1..], readOffset := n.sorter[0].End(), output := n.output + n.sorter[0].data)
      else n
  }

  ghost predicate Run(n: Net, steps: seq<Step>, m: Net)
    decreases |steps|
  {
    if steps == [] then m == n else Enabled(n, steps[0]) && Run(Next(n, steps[0]), steps[1..], m)
  }

  // ----- every frame is a slice of what was written

  ghost predicate TrueTo(p: Piece, written: Bytes, limit: nat) {
    p.data != [] && p.End() <= limit <= |written| && p.data == written[p.offset..p.End()]
  }

  ghost predicate AllTrue(s: seq<Piece>, written: Bytes, limit: nat) {
    forall i :: 0 <= i < |s| ==> TrueTo(s[i], written, limit)
  }

  ghost predicate Safe(n: Net) {
    var w, o := n.sender.written, n.sender.offset;
    && o <= |w|
    && AllTrue(n.sender.retry, w, o) && AllTrue(n.outbound, w, o) && AllTrue(n.arrived, w, o)
    && AllTrue(n.history, w, o) && AllTrue(n.sorter, w, o)
    && n.readOffset <= o && n.output == w[..n.readOffset]
  }

  lemma StillTrue(s: seq<Piece>, w: Bytes, o: nat, w1: Bytes, o1: nat)
    requires AllTrue(s, w, o) && w <= w1 && o <= o1 <= |w1|
    ensures AllTrue(s, w1, o1)
  {}

  lemma {:induction false} InsertStaysTrue(s: seq<Piece>, p: Piece, w: Bytes, o: nat)
    requires AllTrue(s, w, o) && TrueTo(p, w, o)
    ensures AllTrue(Insert(s, p), w, o)
  {
    if s != [] && s[0].offset <= p.offset { InsertStaysTrue(s[1..], p, w, o); }
  }

  lemma TakeIsTrue(s: Sender, size: nat, window: int)
    requires size > 0 && s.offset <= |s.written| && AllTrue(s.retry, s.written, s.offset)
    ensures var (s1, p) := Take(s, size, window);
            && s1.written == s.written && s.offset <= s1.offset <= |s.written|
            && AllTrue(s1.retry, s.written, s.offset)
            && (p.data == [] || TrueTo(p, s.written, s1.offset))
            && (s.retry != [] ==> s1.offset == s.offset)
  {}

  lemma StepIsSafe(n: Net, t: Step)
    requires Safe(n) && Enabled(n, t)
    ensures Safe(Next(n, t))
  {
    var w, o, m := n.sender.written, n.sender.offset, Next(n, t);
    match t {
      case Write(data) =>
        StillTrue(n.sender.retry, w, o, w + data, o);
        StillTrue(n.outbound, w, o, w + data, o);
        StillTrue(n.arrived, w, o, w + data, o);
        StillTrue(n.history, w, o, w + data, o);
        StillTrue(n.sorter, w, o, w + data, o);
        assert m.sender.written[..n.readOffset] == w[..n.readOffset];
      case Cut(size, window) =>
        TakeIsTrue(n.sender, size, window);
        var o1 := m.sender.offset;
        StillTrue(m.sender.retry, w, o, w, o1);
        StillTrue(n.outbound, w, o, w, o1);
        StillTrue(n.arrived, w, o, w, o1);
        StillTrue(n.history, w, o, w, o1);
        StillTrue(n.sorter, w, o, w, o1);
      case Deliver(i) => InsertStaysTrue(n.sorter, n.outbound[i], w, o);
      case Replay(i) => InsertStaysTrue(n.sorter, n.history[i], w, o);
      case Read =>
        if n.sorter != [] && n.sorter[0].offset == n.readOffset {
          assert TrueTo(n.sorter[0], w, o);
          assert w[..n.readOffset] + w[n.readOffset..m.readOffset] == w[..m.readOffset];
        }
      case _ =>
    }
  }

  lemma {:induction false} RunIsSafe(n: Net, steps: seq<Step>, m: Net)
    requires Safe(n) && Run(n, steps, m)
    ensures Safe(m)
    decreases |steps|
  {
    if steps != [] {
      StepIsSafe(n, steps[0]);
      RunIsSafe(Next(n, steps[0]), steps[1..], m);
    }
  }

  /** In every run, whatever is lost, repeated or reordered, the bytes handed out are
      exactly the first readOffset bytes written. */
  lemma PrefixSafety(steps: seq<Step>, m: Net)
    requires Run(START, steps, m)
    ensures m.readOffset <= |m.sender.written| && m.output == m.sender.written[..m.readOffset]
  {
    RunIsSafe(START, steps, m);
  }

  /** All that was written, in order, is what the sender works with. */
  ghost function WrittenIn(steps: seq<Step>): Bytes {
    if steps == [] then [] else (if steps[0].Write? then steps[0].data else []) + WrittenIn(steps[1..])
  }

  lemma {:induction false} EverythingWritten(n: Net, steps: seq<Step>, m: Net)
    requires Run(n, steps, m)
    ensures m.sender.written == n.sender.written + WrittenIn(steps)
    decreases |steps|
  {
    if steps != [] {
      var first := if steps[0].Write? then steps[0].data else [];
      EverythingWritten(Next(n, steps[0]), steps[1..], m);
      assert Next(n, steps[0]).sender.written == n.sender.written + first;
      Associate(n.sender.written, first, WrittenIn(steps[1..]));
    }
  }

  ghost predicate WindowsWithin(steps: seq<Step>, w: nat) {
    forall i :: 0 <= i < |steps| && steps[i].Cut? ==> steps[i].window <= w
  }

  lemma {:induction false} OffsetStaysWithin(n: Net, steps: seq<Step>, m: Net, w: nat)
    requires Run(n, steps, m) && WindowsWithin(steps, w) && n.sender.offset <= w
    ensures m.sender.offset <= w
    decreases |steps|
  {
    if steps != [] {
      if steps[0].Cut? { TakeMeaning(n.sender, steps[0].size, steps[0].window); }
      forall i | 0 <= i < |steps| - 1 ensures steps[1..][i] == steps[i + 1] {}
      OffsetStaysWithin(Next(n, steps[0]), steps[1..], m, w);
    }
  }

  /** In every run the sender stays within the windows the peer has granted: no byte at or beyond the
      largest of them is ever cut or sent. */
  lemma WindowIsKept(steps: seq<Step>, m: Net, w: nat)
    requires Run(START, steps, m) && WindowsWithin(steps, w)
    ensures m.sender.offset <= w
    ensures forall i :: 0 <= i < |m.history| ==> m.history[i].End() <= w
  {
    OffsetStaysWithin(START, steps, m, w);
    RunIsSafe(START, steps, m);
    forall i | 0 <= i < |m.history| ensures m.history[i].End() <= w {
      assert TrueTo(m.history[i], m.sender.written, m.sender.offset);
    }
  }

  ghost predicate Sent(n: Net, s: seq<Piece>) { forall i :: 0 <= i < |s| ==> s[i] in n.history }

  /** Whatever is on its way, arrived, acknowledged or in the sorter was sent, and can be repeated. */
  lemma {:induction false} EverythingWasSent(n: Net, steps: seq<Step>, m: Net)
    requires Run(n, steps, m) && Sent(n, n.outbound) && Sent(n, n.arrived) && Sent(n, n.acked) && Sent(n, n.sorter)
    ensures Sent(m, m.outbound) && Sent(m, m.arrived) && Sent(m, m.acked) && Sent(m, m.sorter)
    decreases |steps|
  {
    if steps != [] {
      match steps[0] {
        case Deliver(i) => InsertKeepsSent(n, n.sorter, n.outbound[i]);
        case Replay(i) => InsertKeepsSent(n, n.sorter, n.history[i]);
        case _ =>
      }
      EverythingWasSent(Next(n, steps[0]), steps[1..], m);
    }
  }

  lemma InsertKeepsSent(n: Net, s: seq<Piece>, p: Piece)
    requires Sent(n, s) && p in n.history
    ensures Sent(n, Insert(s, p))
  {
    forall i | 0 <= i < |Insert(s, p)| ensures Insert(s, p)[i] in n.history {
      InsertHolds(s, p, Insert(s, p)[i]);
    }
  }

  // ----- rejected bytes are sent again in the order of their rejection

  ghost function Positions(p: Piece): seq<nat> { seq(|p.data|, i requires 0 <= i < |p.data| => p.offset + i) }

  ghost function AllPositions(s: seq<Piece>): seq<nat> {
    if s == [] then [] else Positions(s[0]) + AllPositions(s[1..])
  }

  /** The bytes that a step puts in line, and those that it takes out of it. */
  ghost function Queued(n: Net, t: Step): seq<nat>
    requires Enabled(n, t)
  {
    match t
    case Reject(i) => Positions(n.outbound[i])
    case RejectArrived(i) => Positions(n.arrived[i])
    case _ => []
  }

  ghost function Resent(n: Net, t: Step): seq<nat>
    requires Enabled(n, t)
  {
    if t.Cut? && n.sender.retry != [] then Positions(Take(n.sender, t.size, t.window).1) else []
  }

  ghost function AllQueued(n: Net, steps: seq<Step>): seq<nat>
    decreases |steps|
  {
    if steps == [] || !Enabled(n, steps[0]) then []
    else Queued(n, steps[0]) + AllQueued(Next(n, steps[0]), steps[1..])
  }

  ghost function AllResent(n: Net, steps: seq<Step>): seq<nat>
    decreases |steps|
  {
    if steps == [] || !Enabled(n, steps[0]) then []
    else Resent(n, steps[0]) + AllResent(Next(n, steps[0]), steps[1..])
  }

  lemma {:induction false} PositionsAppend(s: seq<Piece>, p: Piece)
    ensures AllPositions(s + [p]) == AllPositions(s) + Positions(p)
  {
    if s == [] {
      assert [p][1..] == [] && Positions(p) + [] == Positions(p) && s + [p] == [p];
    } else {
      PositionsAppend(s[1..], p);
      assert (s + [p])[1..] == s[1..] + [p];
      Associate(Positions(s[0]), AllPositions(s[1..]), Positions(p));
    }
  }

  lemma SplitKeepsPositions(retry: seq<Piece>, size: nat)
    requires retry != [] && size > 0
    ensures Positions(SplitRetry(retry, size).1) + AllPositions(SplitRetry(retry, size).0) == AllPositions(retry)
  {
    var p, rest := retry[0], retry[1..];
    if |p.data| > size {
      var front, back := Piece(p.offset, p.data[..size]), Piece(p.offset + size, p.data[size..]);
      assert ([back] + rest)[1..] == rest;
      assert Positions(front) + Positions(back) == Positions(p);
      Associate(Positions(front), Positions(back), AllPositions(rest));
    }
  }

  lemma StepKeepsOrder(n: Net, t: Step)
    requires Enabled(n, t)
    ensures AllPositions(n.sender.retry) + Queued(n, t) == Resent(n, t) + AllPositions(Next(n, t).sender.retry)
  {
    var line := AllPositions(n.sender.retry);
    assert line + [] == line && [] + AllPositions(Next(n, t).sender.retry) == AllPositions(Next(n, t).sender.retry);
    match t {
      case Cut(size, _) => if n.sender.retry != [] { SplitKeepsPositions(n.sender.retry, size); }
      case Reject(i) => PositionsAppend(n.sender.retry, n.outbound[i]);
      case RejectArrived(i) => PositionsAppend(n.sender.retry, n.arrived[i]);
      case _ =>
    }
  }

  /** First rejected, first sent again: what was in line and what is rejected in a run is what is sent again in
      it, in the same order, and what is in line then. */
  lemma {:induction false} RejectedFirstSentFirst(n: Net, steps: seq<Step>, m: Net)
    requires Run(n, steps, m)
    ensures AllPositions(n.sender.retry) + AllQueued(n, steps) == AllResent(n, steps) + AllPositions(m.sender.retry)
    decreases |steps|
  {
    if steps == [] {
      assert AllPositions(n.sender.retry) + [] == [] + AllPositions(n.sender.retry);
    } else {
      var t, next := steps[0], Next(n, steps[0]);
      StepKeepsOrder(n, t);
      RejectedFirstSentFirst(next, steps[1..], m);
      Associate(AllPositions(n.sender.retry), Queued(n, t), AllQueued(next, steps[1..]));
      Associate(Resent(n, t), AllPositions(next.sender.retry), AllQueued(next, steps[1..]));
      Associate(Resent(n, t), AllResent(next, steps[1..]), AllPositions(m.sender.retry));
    }
  }

  // ----- who holds which byte

  function Covers(p: Piece, pos: nat): nat { if p.offset <= pos < p.End() then 1 else 0 }

  /** How many pieces of a list contain the byte at a position. */
  ghost function Cover(s: seq<Piece>, pos: nat): nat {
    if s == [] then 0 else Covers(s[0], pos) + Cover(s[1..], pos)
  }

  lemma {:induction false} CoverConcat(s: seq<Piece>, t: seq<Piece>, pos: nat)
    ensures Cover(s + t, pos) == Cover(s, pos) + Cover(t, pos)
  {
    if s == [] {
      assert s + t == t;
    } else {
      CoverConcat(s[1..], t, pos);
      assert (s + t)[1..] == s[1..] + t;
    }
  }

  lemma CoverAppend(s: seq<Piece>, p: Piece, pos: nat)
    ensures Cover(s + [p], pos) == Cover(s, pos) + Covers(p, pos)
  {
    CoverConcat(s, [p], pos);
    assert [p][1..] == [];
  }

  lemma CoverWithout(s: seq<Piece>, i: nat, pos: nat)
    requires i < |s|
    ensures Cover(Without(s, i), pos) + Covers(s[i], pos) == Cover(s, pos)
  {
    CoverConcat(s[..i], s[i + 1..], pos);
    CoverConcat(s[..i], s[i..], pos);
    assert s == s[..i] + s[i..] && s[i..][1..] == s[i + 1..];
  }

  lemma {:induction false} CoverInsert(s: seq<Piece>, p: Piece, pos: nat)
    ensures Cover(Insert(s, p), pos) == Cover(s, pos) + Covers(p, pos)
  {
    if s == [] || s[0].offset > p.offset {
      assert ([p] + s)[1..] == s;
    } else {
      CoverInsert(s[1..], p, pos);
    }
  }

  /** Each byte that was ever cut is in exactly one place: waiting to be resent, in a packet
      without a response, or acknowledged. */
  ghost predicate PartitionAt(n: Net, pos: nat) {
    Cover(n.sender.retry, pos) + Cover(n.outbound, pos) + Cover(n.arrived, pos) + Cover(n.acked, pos)
    == if pos < n.sender.offset then 1 else 0
  }

  lemma TakeMovesCover(s: Sender, size: nat, window: int, pos: nat)
    requires size > 0 && s.offset <= |s.written|
    ensures var (s1, p) := Take(s, size, window);
            Cover(s1.retry, pos) + Covers(p, pos) + (if pos < s.offset then 1 else 0)
            == Cover(s.retry, pos) + if pos < s1.offset then 1 else 0
  {}

  lemma StepKeepsPartition(n: Net, t: Step, pos: nat)
    requires Enabled(n, t) && PartitionAt(n, pos)
    ensures PartitionAt(Next(n, t), pos)
  {
    match t {
      case Cut(size, window) =>
        TakeMovesCover(n.sender, size, window, pos);
        CoverAppend(n.outbound, Take(n.sender, size, window).1, pos);
      case Deliver(i) =>
        CoverWithout(n.outbound, i, pos);
        CoverAppend(n.arrived, n.outbound[i], pos);
      case Acknowledge(i) =>
        CoverWithout(n.arrived, i, pos);
        CoverAppend(n.acked, n.arrived[i], pos);
      case Reject(i) =>
        CoverWithout(n.outbound, i, pos);
        CoverAppend(n.sender.retry, n.outbound[i], pos);
      case RejectArrived(i) =>
        CoverWithout(n.arrived, i, pos);
        CoverAppend(n.sender.retry, n.arrived[i], pos);
      case _ =>
    }
  }

  lemma {:induction false} SenderPartition(n: Net, steps: seq<Step>, m: Net, pos: nat)
    requires Run(n, steps, m) && PartitionAt(n, pos)
    ensures PartitionAt(m, pos)
    decreases |steps|
  {
    if steps != [] {
      StepKeepsPartition(n, steps[0], pos);
      SenderPartition(Next(n, steps[0]), steps[1..], m, pos);
    }
  }

  // ----- completeness

  /** Reading empties the sorter and ends at the limit. */
  ghost predicate DrainsTo(s: seq<Piece>, readOffset: nat, limit: nat) {
    if s == [] then readOffset == limit
    else s[0].offset == readOffset && DrainsTo(s[1..], s[0].End(), limit)
  }

  ghost predicate NonEmpty(s: seq<Piece>) { forall i :: 0 <= i < |s| ==> s[i].data != [] }

  ghost predicate CoversOnce(s: seq<Piece>, from: nat, limit: nat) {
    forall pos: nat :: Cover(s, pos) == if from <= pos < limit then 1 else 0
  }

  /** The sorter hands out everything up to the limit and is left empty if and only if its
      pieces contain each byte in between exactly once, and nothing else. */
  lemma {:induction false} DrainsIffCoveredOnce(s: seq<Piece>, readOffset: nat, limit: nat)
    requires Sorted(s) && NonEmpty(s) && readOffset <= limit
    ensures DrainsTo(s, readOffset, limit) <==> CoversOnce(s, readOffset, limit)
  {
    if s == [] {
      if readOffset < limit { assert Cover(s, readOffset) == 0; }
    } else {
      var p, rest := s[0], s[1..];
      if DrainsTo(s, readOffset, limit) {
        DrainGrows(rest, p.End(), limit);
        DrainsIffCoveredOnce(rest, p.End(), limit);
        forall pos: nat ensures Cover(s, pos) == if readOffset <= pos < limit then 1 else 0 {
          assert Cover(rest, pos) == if p.End() <= pos < limit then 1 else 0;
        }
      } else if CoversOnce(s, readOffset, limit) {
        assert Covers(p, p.offset) == 1 && Cover(s, p.offset) >= 1;
        assert Covers(p, p.End() - 1) == 1 && Cover(s, p.End() - 1) >= 1;
        if readOffset < p.offset {
          NoCoverBelow(s, readOffset);
        }
        forall pos: nat ensures Cover(rest, pos) == if p.End() <= pos < limit then 1 else 0 {
          assert Cover(s, pos) == if readOffset <= pos < limit then 1 else 0;
        }
        assert CoversOnce(rest, p.End(), limit);
        DrainsIffCoveredOnce(rest, p.End(), limit);
        assert false;
      }
    }
  }

  lemma {:induction false} DrainGrows(s: seq<Piece>, readOffset: nat, limit: nat)
    requires DrainsTo(s, readOffset, limit)
    ensures readOffset <= limit
  {
    if s != [] { DrainGrows(s[1..], s[0].End(), limit); }
  }

  lemma {:induction false} NoCoverBelow(s: seq<Piece>, pos: nat)
    requires Sorted(s) && (s != [] ==> pos < s[0].offset)
    ensures Cover(s, pos) == 0
  {
    if s != [] { NoCoverBelow(s[1..], pos); }
  }

  lemma {:induction false} DrainIsTrue(s: seq<Piece>, readOffset: nat, limit: nat, written: Bytes)
    requires AllTrue(s, written, limit) && DrainsTo(s, readOffset, limit) && limit <= |written|
    ensures readOffset <= limit && Drain(s, readOffset) == written[readOffset..limit]
  {
    if s != [] {
      assert TrueTo(s[0], written, limit);
      DrainIsTrue(s[1..], s[0].End(), limit, written);
    }
  }

  /** Clean: the receiver never sees a packet that is then rejected, nor sees one twice. */
  ghost predicate Clean(steps: seq<Step>) {
    forall i :: 0 <= i < |steps| ==> !steps[i].RejectArrived? && !steps[i].Replay?
  }

  /** Each byte that reached the receiver is read, or in the sorter, exactly once. */
  ghost predicate ReceivedAt(n: Net, pos: nat) {
    Cover(n.sorter, pos) + (if pos < n.readOffset then 1 else 0) == Cover(n.arrived, pos) + Cover(n.acked, pos)
  }

  lemma CleanStepKeepsReceived(n: Net, t: Step, pos: nat)
    requires Enabled(n, t) && ReceivedAt(n, pos) && !t.RejectArrived? && !t.Replay?
    ensures ReceivedAt(Next(n, t), pos)
  {
    match t {
      case Deliver(i) =>
        CoverAppend(n.arrived, n.outbound[i], pos);
        CoverInsert(n.sorter, n.outbound[i], pos);
      case Acknowledge(i) =>
        CoverWithout(n.arrived, i, pos);
        CoverAppend(n.acked, n.arrived[i], pos);
      case _ =>
    }
  }

  lemma {:induction false} CleanRunKeepsReceived(n: Net, steps: seq<Step>, m: Net, pos: nat)
    requires Run(n, steps, m) && Clean(steps) && ReceivedAt(n, pos)
    ensures ReceivedAt(m, pos)
    decreases |steps|
  {
    if steps != [] {
      CleanStepKeepsReceived(n, steps[0], pos);
      CleanRunKeepsReceived(Next(n, steps[0]), steps[1..], m, pos);
    }
  }

  lemma {:induction false} RunKeepsSorted(n: Net, steps: seq<Step>, m: Net)
    requires Run(n, steps, m) && Sorted(n.sorter)
    ensures Sorted(m.sorter)
    decreases |steps|
  {
    if steps != [] {
      match steps[0] {
        case Deliver(i) => InsertSorts(n.sorter, n.outbound[i]);
        case Replay(i) => InsertSorts(n.sorter, n.history[i]);
        case _ =>
      }
      RunKeepsSorted(Next(n, steps[0]), steps[1..], m);
    }
  }

  ghost predicate NothingOpen(m: Net) { m.outbound == [] && m.arrived == [] && m.sender.retry == [] }

  lemma SorterIsTrue(steps: seq<Step>, m: Net)
    requires Run(START, steps, m)
    ensures Safe(m) && Sorted(m.sorter) && NonEmpty(m.sorter)
    ensures forall i :: 0 <= i < |m.sorter| ==> m.sorter[i].End() <= m.sender.offset
  {
    RunIsSafe(START, steps, m);
    RunKeepsSorted(START, steps, m);
    forall i | 0 <= i < |m.sorter| ensures m.sorter[i].data != [] && m.sorter[i].End() <= m.sender.offset {
      assert TrueTo(m.sorter[i], m.sender.written, m.sender.offset);
    }
  }

  lemma CleanRunDrains(steps: seq<Step>, m: Net)
    requires Run(START, steps, m) && NothingOpen(m) && Clean(steps)
    ensures DrainsTo(m.sorter, m.readOffset, m.sender.offset)
  {
    SorterIsTrue(steps, m);
    forall pos: nat ensures Cover(m.sorter, pos) == if m.readOffset <= pos < m.sender.offset then 1 else 0 {
      SenderPartition(START, steps, m, pos);
      CleanRunKeepsReceived(START, steps, m, pos);
    }
    DrainsIffCoveredOnce(m.sorter, m.readOffset, m.sender.offset);
  }

  // ----- why cleanness is needed

  /** How often a byte reached the receiver without counting as one that arrived. */
  ghost function Surplus(n: Net, pos: nat): int {
    Cover(n.sorter, pos) + (if pos < n.readOffset then 1 else 0) - Cover(n.arrived, pos) - Cover(n.acked, pos)
  }

  /** The frame that a step repeats or takes back. */
  ghost function Repeated(n: Net, t: Step): Option<Piece>
    requires Enabled(n, t)
  {
    match t
    case RejectArrived(i) => Some(n.arrived[i])
    case Replay(i) => Some(n.history[i])
    case _ => None
  }

  lemma StepAddsSurplus(n: Net, t: Step, pos: nat)
    requires Enabled(n, t)
    ensures Surplus(Next(n, t), pos) ==
            Surplus(n, pos) + if Repeated(n, t).Some? then Covers(Repeated(n, t).value, pos) else 0
  {
    match t {
      case Deliver(i) =>
        CoverAppend(n.arrived, n.outbound[i], pos);
        CoverInsert(n.sorter, n.outbound[i], pos);
      case Acknowledge(i) =>
        CoverWithout(n.arrived, i, pos);
        CoverAppend(n.acked, n.arrived[i], pos);
      case RejectArrived(i) => CoverWithout(n.arrived, i, pos);
      case Replay(i) => CoverInsert(n.sorter, n.history[i], pos);
      case _ =>
    }
  }

  lemma {:induction false} SurplusGrows(n: Net, steps: seq<Step>, m: Net, pos: nat)
    requires Run(n, steps, m)
    ensures Surplus(m, pos) >= Surplus(n, pos)
    decreases |steps|
  {
    if steps != [] {
      StepAddsSurplus(n, steps[0], pos);
      SurplusGrows(Next(n, steps[0]), steps[1..], m, pos);
    }
  }

  /** A run that is not clean leaves a byte that reached the receiver too often. */
  lemma {:induction false} UncleanLeavesSurplus(n: Net, steps: seq<Step>, m: Net) returns (pos: nat)
    requires Run(n, steps, m) && Safe(n) && !Clean(steps)
    ensures Surplus(m, pos) > Surplus(n, pos)
    decreases |steps|
  {
    var t, next := steps[0], Next(n, steps[0]);
    if Repeated(n, t).Some? {
      var p := Repeated(n, t).value;
      assert TrueTo(p, n.sender.written, n.sender.offset);
      pos := p.offset;
      StepAddsSurplus(n, t, pos);
      SurplusGrows(next, steps[1..], m, pos);
    } else {
      StepIsSafe(n, t);
      assert !Clean(steps[1..]) by {
        if Clean(steps[1..]) {
          forall i | 0 <= i < |steps| ensures !steps[i].RejectArrived? && !steps[i].Replay? {
            assert i > 0 ==> steps[i] == steps[1..][i - 1];
          }
        }
      }
      pos := UncleanLeavesSurplus(next, steps[1..], m);
      StepAddsSurplus(n, t, pos);
    }
  }

  /** With nothing in flight and nothing to resend, the receiver can read every byte that was cut and
      its sorter is empty then, if and only if no packet that reached it was rejected or repeated. */
  lemma Completeness(steps: seq<Step>, m: Net)
    requires Run(START, steps, m) && NothingOpen(m)
    ensures m.sender.offset <= |m.sender.written|
    ensures DrainsTo(m.sorter, m.readOffset, m.sender.offset) <==> Clean(steps)
    ensures Clean(steps) ==> m.output + Drain(m.sorter, m.readOffset) == m.sender.written[..m.sender.offset]
  {
    SorterIsTrue(steps, m);
    var w, o := m.sender.written, m.sender.offset;
    if Clean(steps) {
      CleanRunDrains(steps, m);
      DrainIsTrue(m.sorter, m.readOffset, o, w);
      assert w[..m.readOffset] + w[m.readOffset..o] == w[..o];
    } else if DrainsTo(m.sorter, m.readOffset, o) {
      var pos := UncleanLeavesSurplus(START, steps, m);
      SenderPartition(START, steps, m, pos);
      DrainsIffCoveredOnce(m.sorter, m.readOffset, o);
      assert false;
    }
  }

  // ----- and what happens without it

  /** Reading comes to a stop in front of a piece that starts below the read offset. */
  ghost predicate Blocked(s: seq<Piece>, readOffset: nat) {
    s != [] && (s[0].offset < readOffset || (s[0].offset == readOffset && Blocked(s[1..], s[0].End())))
  }

  /** Where every byte is there at least once, reading either finds all of them or is blocked. */
  lemma {:induction false} DrainsOrBlocked(s: seq<Piece>, readOffset: nat, limit: nat)
    requires Sorted(s) && NonEmpty(s) && readOffset <= limit
    requires forall i :: 0 <= i < |s| ==> s[i].End() <= limit
    requires forall pos: nat :: readOffset <= pos < limit ==> Cover(s, pos) > 0
    ensures DrainsTo(s, readOffset, limit) || Blocked(s, readOffset)
  {
    if s == [] {
      assert Cover(s, readOffset) == 0;
    } else if s[0].offset == readOffset {
      var p, rest := s[0], s[1..];
      forall pos: nat | p.End() <= pos < limit ensures Cover(rest, pos) > 0 {
        assert Cover(s, pos) > 0;
      }
      DrainsOrBlocked(rest, p.End(), limit);
    } else if s[0].offset > readOffset {
      assert Cover(s, readOffset) > 0;
      NoCoverBelow(s, readOffset);
      assert false;
    }
  }

  lemma {:induction false} DrainedIsNotBlocked(s: seq<Piece>, readOffset: nat, limit: nat)
    requires DrainsTo(s, readOffset, limit)
    ensures !Blocked(s, readOffset)
  {
    if s != [] { DrainedIsNotBlocked(s[1..], s[0].End(), limit); }
  }

  /** With nothing in flight and nothing to resend, the stream is blocked if and only if a packet
      that reached the receiver was rejected or repeated. */
  lemma BlockedIffUnclean(steps: seq<Step>, m: Net)
    requires Run(START, steps, m) && NothingOpen(m)
    ensures Blocked(m.sorter, m.readOffset) <==> !Clean(steps)
  {
    Completeness(steps, m);
    SorterIsTrue(steps, m);
    forall pos: nat | m.readOffset <= pos < m.sender.offset ensures Cover(m.sorter, pos) > 0 {
      SenderPartition(START, steps, m, pos);
      SurplusGrows(START, steps, m, pos);
    }
    DrainsOrBlocked(m.sorter, m.readOffset, m.sender.offset);
    if Clean(steps) { DrainedIsNotBlocked(m.sorter, m.readOffset, m.sender.offset); }
  }

  /** How far reading gets with what is in the sorter. */
  ghost function Reach(s: seq<Piece>, readOffset: nat): nat { readOffset + |Drain(s, readOffset)| }

  /** No further piece helps. */
  lemma {:induction false} InsertStaysBlocked(s: seq<Piece>, p: Piece, readOffset: nat)
    requires Sorted(s) && Blocked(s, readOffset)
    ensures Blocked(Insert(s, p), readOffset) && Reach(Insert(s, p), readOffset) <= Reach(s, readOffset)
  {
    if s[0].offset <= p.offset {
      if s[0].offset == readOffset { InsertStaysBlocked(s[1..], p, s[0].End()); }
    }
  }

  /** A blocked stream stays blocked: whatever happens, no byte is ever read beyond those that
      could be read already. */
  lemma {:induction false} BlockedForever(n: Net, steps: seq<Step>, m: Net)
    requires Run(n, steps, m) && Sorted(n.sorter) && Blocked(n.sorter, n.readOffset)
    ensures Blocked(m.sorter, m.readOffset) && m.readOffset <= Reach(n.sorter, n.readOffset)
    ensures Reach(m.sorter, m.readOffset) <= Reach(n.sorter, n.readOffset)
    decreases |steps|
  {
    if steps != [] {
      match steps[0] {
        case Deliver(i) =>
          InsertSorts(n.sorter, n.outbound[i]);
          InsertStaysBlocked(n.sorter, n.outbound[i], n.readOffset);
        case Replay(i) =>
          InsertSorts(n.sorter, n.history[i]);
          InsertStaysBlocked(n.sorter, n.history[i], n.readOffset);
        case _ =>
      }
      BlockedForever(Next(n, steps[0]), steps[1..], m);
    }
  }

  /** A piece below the read offset at the head of the sorter. */
  ghost predicate Stuck(n: Net) { n.sorter != [] && n.sorter[0].offset < n.readOffset }

  /** Once stuck, nothing is ever read again, whatever else happens. */
  lemma {:induction false} StuckForever(n: Net, steps: seq<Step>, m: Net)
    requires Run(n, steps, m) && Stuck(n)
    ensures Stuck(m) && m.output == n.output && m.readOffset == n.readOffset
    decreases |steps|
  {
    if steps != [] { StuckForever(Next(n, steps[0]), steps[1..], m); }
  }

  /** The states of a run in which a frame is pushed, read, rejected with its packet, and
      then sent and pushed again. */
  ghost function Blocking(b: Byte, i: nat): Net {
    var p := Piece(0, [b]);
    if i == 0 then START
    else if i == 1 then START.(sender := Sender([b], 0, []))
    else if i == 2 then Net(Sender([b], 1, []), [p], [], [], [p], [], 0, [])
    else if i == 3 then Net(Sender([b], 1, []), [], [p], [], [p], [p], 0, [])
    else if i == 4 then Net(Sender([b], 1, []), [], [p], [], [p], [], 1, [b])
    else if i == 5 then Net(Sender([b], 1, [p]), [], [], [], [p], [], 1, [b])
    else if i == 6 then Net(Sender([b], 1, []), [p], [], [], [p, p], [], 1, [b])
    else Net(Sender([b], 1, []), [], [p], [], [p, p], [p], 1, [b])
  }

  const BLOCKING_STEPS: seq<Step> := [Cut(1, 1), Deliver(0), Read, RejectArrived(0), Cut(1, 1), Deliver(0)]

  lemma BlockingStep(b: Byte, i: nat)
    requires i < 6
    ensures Enabled(Blocking(b, i + 1), BLOCKING_STEPS[i])
    ensures Next(Blocking(b, i + 1), BLOCKING_STEPS[i]) == Blocking(b, i + 2)
  {
    assert [b][0..1] == [b];
  }

  lemma {:induction false} BlockingRun(b: Byte, i: nat)
    requires i <= 6
    ensures Run(Blocking(b, i + 1), BLOCKING_STEPS[i..], Blocking(b, 7))
    decreases 6 - i
  {
    if i < 6 {
      BlockingStep(b, i);
      BlockingRun(b, i + 1);
      assert BLOCKING_STEPS[i..][1..] == BLOCKING_STEPS[i + 1..];
    }
  }

  /** That run blocks the stream. */
  lemma RejectAfterDeliveryBlocks(b: Byte)
    ensures Run(START, [Write([b])] + BLOCKING_STEPS, Blocking(b, 7)) && Stuck(Blocking(b, 7))
  {
    BlockingRun(b, 0);
    assert ([Write([b])] + BLOCKING_STEPS)[1..] == BLOCKING_STEPS[0..];
    assert Next(START, Write([b])) == Blocking(b, 1);
  }
}
