/** The receiving side of a connection's money. A prepare is checked and held in one turn,
    may then wait for the application, and is settled or declined in a later turn. */
module IncomingMoney {
  import opened Arith
  import opened Long64
  import opened Maps
  import opened MultiplyDivide
  import opened PacketAssembly
  import opened Rationals
  import opened Wrappers

  datatype StreamIn = StreamIn(received: U64, receiveMax: U64, open: bool)

  /** One part of a packet's money and the stream that gets it. */
  datatype Split = Split(streamId: nat, amount: U64)

  /** The allowance of one percent above a stream's limit. */
  const RECEIVE_EXTRA: Rational := Fraction(101, 100)

  // ----- sharing one packet among its frames

  ghost function Splits(amount: U64, frames: seq<MoneyFrame>, total: U64): (splits: seq<Split>)
    requires total > 0
    ensures |splits| == |frames|
  {
    if frames == [] then []
    else [Split(frames[0].streamId, Floor(amount, frames[0].shares, total))] + Splits(amount, frames[1..], total)
  }

  ghost function SumSplits(splits: seq<Split>): nat {
    if splits == [] then 0 else splits[0].amount + SumSplits(splits[1..])
  }

  /** One frame's part is never more than its share, and for totals up to 2^63 it is the floor of it. */
  lemma ShareOfPacket(amount: U64, shares: U64, total: U64)
    requires shares <= total && 0 < total
    ensures Floor(amount, shares, total) <= amount && Floor(amount, shares, total) * total <= amount * shares
    ensures total <= TWO63 ==> amount * shares < Floor(amount, shares, total) * total + total
  {
    var f, n := Floor(amount, shares, total), amount * shares;
    MulMono(shares, total, amount);
    MulMono(amount, MAX, total);
    NeverExceeds(amount, shares, total, n);
    if f > amount { MulMonoStrict(amount, f, total); }
    if total <= TWO63 { ExactWhenFits(amount, shares, total, n); }
  }

  /** Nothing is created by sharing. */
  lemma {:induction false} SplitsStayWithin(amount: U64, frames: seq<MoneyFrame>, total: U64)
    requires TotalShares(frames) <= total && 0 < total
    ensures SumSplits(Splits(amount, frames, total)) * total <= amount * TotalShares(frames)
  {
    if frames != [] {
      var f, later := Floor(amount, frames[0].shares, total), SumSplits(Splits(amount, frames[1..], total));
      ShareOfPacket(amount, frames[0].shares, total);
      SplitsStayWithin(amount, frames[1..], total);
      assert Splits(amount, frames, total)[1..] == Splits(amount, frames[1..], total);
      AddParts(amount, frames[0].shares, TotalShares(frames[1..]), f, later, total);
    }
  }

  lemma AddParts(amount: nat, s: nat, t: nat, f: nat, g: nat, total: nat)
    requires f * total <= amount * s && g * total <= amount * t
    ensures (f + g) * total <= amount * (s + t)
  {
    assert (f + g) * total == f * total + g * total;
    assert amount * (s + t) == amount * s + amount * t;
  }

  /** For totals up to 2^63 less than one unit per frame is lost. */
  lemma {:induction false} SplitsLoseLittle(amount: U64, frames: seq<MoneyFrame>, total: U64)
    requires TotalShares(frames) <= total && 0 < total <= TWO63
    ensures amount * TotalShares(frames) <=
            SumSplits(Splits(amount, frames, total)) * total + |frames| * (total - 1)
  {
    if frames != [] {
      var f := Floor(amount, frames[0].shares, total);
      ShareOfPacket(amount, frames[0].shares, total);
      SplitsLoseLittle(amount, frames[1..], total);
      assert Splits(amount, frames, total)[1..] == Splits(amount, frames[1..], total);
      AddRows(amount, frames[0].shares, TotalShares(frames[1..]), f,
              SumSplits(Splits(amount, frames[1..], total)), total, |frames| - 1);
    }
  }

  lemma AddRows(amount: nat, s: nat, t: nat, f: nat, g: nat, total: nat, n: nat)
    requires amount * s <= f * total + total - 1
    requires amount * t <= g * total + n * (total - 1)
    ensures amount * (s + t) <= (f + g) * total + (n + 1) * (total - 1)
  {
    assert (f + g) * total == f * total + g * total;
    assert amount * (s + t) == amount * s + amount * t;
    assert (n + 1) * (total - 1) == n * (total - 1) + (total - 1);
  }

  /** For every packet the parts together are at most the packet. If its shares total at most 2^63,
      fewer units remain undistributed than there are frames. */
  lemma ProportionalSplit(amount: U64, frames: seq<MoneyFrame>, total: U64)
    requires total == TotalShares(frames) && 0 < total
    ensures SumSplits(Splits(amount, frames, total)) <= amount
    ensures total <= TWO63 ==> amount - SumSplits(Splits(amount, frames, total)) < |frames|
  {
    var sum := SumSplits(Splits(amount, frames, total));
    SplitsStayWithin(amount, frames, total);
    assert (amount + 1) * total == amount * total + total;
    MulCancel(sum, amount + 1, total);
    if total <= TWO63 {
      SplitsLoseLittle(amount, frames, total);
      LessThanOneEach(amount, sum, |frames|, total);
    }
  }

  lemma LessThanOneEach(amount: nat, sum: nat, n: nat, total: nat)
    requires n > 0 && total > 0 && sum <= amount && amount * total <= sum * total + n * (total - 1)
    ensures amount - sum < n
  {
    assert n * (total - 1) == n * total - n;
    assert (amount - sum) * total == amount * total - sum * total;
    MulCancel(amount - sum, n, total);
  }

  ghost predicate SplitsWell(total: U64)
    requires total > 0
  {
    forall amount: U64, frames: seq<MoneyFrame> {:trigger Splits(amount, frames, total)} ::
      TotalShares(frames) == total ==> amount - |frames| < SumSplits(Splits(amount, frames, total)) <= amount
  }

  /** The bound on the total is exact: with any larger one a packet of two units vanishes. */
  lemma SplitLimit(total: U64)
    requires total > 0
    ensures SplitsWell(total) <==> total <= TWO63
  {
    if total <= TWO63 {
      forall amount: U64, frames: seq<MoneyFrame> | TotalShares(frames) == total
        ensures amount - |frames| < SumSplits(Splits(amount, frames, total)) <= amount
      {
        ProportionalSplit(amount, frames, total);
      }
    } else {
      var f, g := MoneyFrame(0, total - 1), MoneyFrame(0, 1);
      assert [f, g][1..] == [g] && [g][1..] == [];
      assert TotalShares([g]) == 1 && TotalShares([f, g]) == total;
      TwoUnitsVanish(total);
      assert Splits(2, [g], total) == [Split(0, 0)] && SumSplits([Split(0, 0)]) == 0;
      assert Splits(2, [f, g], total) == [Split(0, 0), Split(0, 0)];
      assert [Split(0, 0), Split(0, 0)][1..] == [Split(0, 0)];
      assert SumSplits(Splits(2, [f, g], total)) == 0;
    }
  }

  lemma TwoUnitsVanish(total: U64)
    requires total > TWO63
    ensures Floor(2, total - 1, total) == 0 && Floor(2, 1, total) == 0
  {
    DoubledRemainderWraps(total);
    DivisionIsUnique(1, 0, 1, total);
    OneTimesTwo(total);
  }

  lemma OneTimesTwo(c: U64)
    requires c > 2
    ensures Loop(2, 0, 0, 0, 1, c) == QuoRem(0, 2)
  {
    assert NextBit(0, 1, c) == QuoRem(0, 2) && AddBit(0, 0, 0, 2, c) == QuoRem(0, 2);
    var next := NextBit(0, 2, c);
    assert Loop(0, 0, 2, next.quo, next.rem, c) == QuoRem(0, 2);
    assert Loop(1, 0, 0, 0, 2, c) == QuoRem(0, 2);
  }

  lemma {:induction false} SplitOfFrame(amount: U64, frames: seq<MoneyFrame>, total: U64, i: nat)
    requires total > 0 && i < |frames|
    ensures Splits(amount, frames, total)[i] == Split(frames[i].streamId, Floor(amount, frames[i].shares, total))
  {
    if i > 0 { SplitOfFrame(amount, frames[1..], total, i - 1); }
  }

  function Saturated(n: nat): U64 { if n > MAX then MAX else n }

  /** One percent of an amount, rounded up. */
  function Extra(amount: nat): nat { (amount + 99) / 100 }

  function Cap(amount: nat): nat { amount + Extra(amount) }

  // ----- the checks of a prepare

  function CanReceive(s: StreamIn): U64 {
    if s.receiveMax < s.received then 0 else CheckedSubtract(s.receiveMax, s.received).value
  }

  function Allowance(s: StreamIn): U64 { MultiplyByLongCeil(RECEIVE_EXTRA, CanReceive(s)) }

  /** The first failing check of the loop over the money frames. */
  function CheckFrames(streams: map<nat, StreamIn>, amount: U64, frames: seq<MoneyFrame>, total: U64): Option<Error> {
    if frames == [] then None
    else if total == 0 then Some(DivisionByZero)
    else if frames[0].streamId !in streams then Some(NoSuchStream)
    else if Allowance(streams[frames[0].streamId]) < Floor(amount, frames[0].shares, total)
    then Some(FinalApplicationError)
    else if !streams[frames[0].streamId].open then Some(FinalApplicationError)
    else CheckFrames(streams, amount, frames[1..], total)
  }

  /** A prepare that passed its checks and is held. */
  datatype Pending = Pending(amount: U64, splits: seq<Split>)

  /** `pending` are the suspended prepares; `settled` is the unbounded sum of all amounts
      that were fulfilled. */
  datatype Receiver = Receiver(total: U64, hold: U64, streams: map<nat, StreamIn>,
                               pending: map<nat, Pending>, settled: nat)

  const IDLE: Receiver := Receiver(0, 0, map[], map[], 0)

  /** The connection-wide overflow check of `addIncomingHold`: the first of the two checked
      additions is overwritten by the second. */
  function HoldIncoming(r: Receiver, value: U64): Result<U64> {
    var first := CheckedAdd(r.total, r.hold);
    var result := CheckedAdd(first.value, value);
    if result.wrapped then Err(BadRequest) else Ok(result.value)
  }

  ghost function PrepareError(r: Receiver, amount: U64, minimum: U64, frames: seq<MoneyFrame>): Option<Error> {
    if minimum > amount then Some(FinalApplicationError)
    else if TotalShares(frames) > MAX then Some(TotalSharesOverflow)
    else
      var failed := CheckFrames(r.streams, amount, frames, TotalShares(frames));
      if failed.Some? then failed
      else if HoldIncoming(r, amount).Err? then Some(BadRequest)
      else None
  }

  lemma {:induction false} CheckedFramesExist(streams: map<nat, StreamIn>, amount: U64, frames: seq<MoneyFrame>,
                                              total: U64)
    requires CheckFrames(streams, amount, frames, total) == None
    ensures frames != [] ==> total > 0
    ensures forall i :: 0 <= i < |frames| ==>
              && frames[i].streamId in streams
              && streams[frames[i].streamId].open
              && Floor(amount, frames[i].shares, total) <= Allowance(streams[frames[i].streamId])
  {
    if frames != [] {
      CheckedFramesExist(streams, amount, frames[1..], total);
      forall i | 0 < i < |frames| ensures frames[i] == frames[1..][i - 1] {}
    }
  }

  /** What is left of the limit, one percent of that more, and nothing above the limit. */
  function Room(s: StreamIn): U64 { if s.received > s.receiveMax then 0 else Saturated(Cap(s.receiveMax - s.received)) }

  /** With the allowance of one percent, rounded up, and cut to 64 bits. */
  lemma ExtraIsAdded(room: U64)
    ensures MultiplyByLongCeil(RECEIVE_EXTRA, room) == Saturated(Cap(room))
  {
    var n: nat := room * 101;
    SaturatesForSmallRatio(room, 101, 100);
    CeilMeaning(room, 101, 100, n);
    CeilIsCap(room, Ceil(room, 101, 100));
  }

  lemma CeilIsCap(room: nat, q: nat)
    ensures room * 101 <= q * 100 < room * 101 + 100 ==> q == Cap(room)
    ensures room * 101 <= MAX * 100 <==> Cap(room) <= MAX
  {}

  lemma AllowanceIsRoom(s: StreamIn)
    ensures Allowance(s) == Room(s)
  {
    CheckedSubtractExact(s.receiveMax, s.received);
    ExtraIsAdded(CanReceive(s));
  }

  ghost predicate FramePasses(streams: map<nat, StreamIn>, amount: U64, f: MoneyFrame, total: U64)
    requires total > 0
  {
    f.streamId in streams && streams[f.streamId].open && Floor(amount, f.shares, total) <= Room(streams[f.streamId])
  }

  ghost predicate FramesPass(streams: map<nat, StreamIn>, amount: U64, frames: seq<MoneyFrame>, total: U64) {
    frames == [] || (total > 0 && forall i :: 0 <= i < |frames| ==> FramePasses(streams, amount, frames[i], total))
  }

  lemma {:induction false} ChecksPassIff(streams: map<nat, StreamIn>, amount: U64, frames: seq<MoneyFrame>, total: U64)
    ensures CheckFrames(streams, amount, frames, total) == None <==> FramesPass(streams, amount, frames, total)
  {
    if frames != [] && total > 0 && frames[0].streamId in streams {
      AllowanceIsRoom(streams[frames[0].streamId]);
      ChecksPassIff(streams, amount, frames[1..], total);
      forall i | 0 < i < |frames| ensures frames[i] == frames[1..][i - 1] {}
    }
  }

  /** The loop stops at the first frame that does not pass. */
  lemma {:induction false} FirstFailure(streams: map<nat, StreamIn>, amount: U64, frames: seq<MoneyFrame>, total: U64,
                                        i: nat)
    requires total > 0 && i < |frames| && !FramePasses(streams, amount, frames[i], total)
    requires forall j :: 0 <= j < i ==> FramePasses(streams, amount, frames[j], total)
    ensures CheckFrames(streams, amount, frames, total) ==
            Some(if frames[i].streamId in streams then FinalApplicationError else NoSuchStream)
  {
    if frames[0].streamId in streams { AllowanceIsRoom(streams[frames[0].streamId]); }
    if i > 0 {
      assert FramePasses(streams, amount, frames[0], total);
      forall j | 0 <= j < i - 1 ensures FramePasses(streams, amount, frames[1..][j], total) {
        assert FramePasses(streams, amount, frames[j + 1], total);
      }
      FirstFailure(streams, amount, frames[1..], total, i - 1);
    }
  }

  ghost function SplitsOf(amount: U64, frames: seq<MoneyFrame>): seq<Split>
    requires TotalShares(frames) <= MAX && (frames != [] ==> TotalShares(frames) > 0)
  {
    if frames == [] then [] else Splits(amount, frames, TotalShares(frames))
  }

  ghost function Begin(r: Receiver, id: nat, amount: U64, minimum: U64, frames: seq<MoneyFrame>): Result<Receiver> {
    var error := PrepareError(r, amount, minimum, frames);
    if error.Some? then Err(error.value)
    else
      CheckedFramesExist(r.streams, amount, frames, TotalShares(frames));
      var p := Pending(amount, SplitsOf(amount, frames));
      Ok(r.(hold := HoldIncoming(r, amount).value, pending := r.pending[id := p]))
  }

  function AddTo(streams: map<nat, StreamIn>, s: Split): map<nat, StreamIn> {
    if s.streamId !in streams then streams
    else
      var stream := streams[s.streamId];
      streams[s.streamId := stream.(received := CheckedAdd(stream.received, s.amount).value)]
  }

  function AddAll(streams: map<nat, StreamIn>, splits: seq<Split>): map<nat, StreamIn> {
    if splits == [] then streams else AddAll(AddTo(streams, splits[0]), splits[1..])
  }

  ghost function Settle(r: Receiver, id: nat): Receiver
    requires id in r.pending
  {
    var p := r.pending[id];
    Receiver(CheckedAdd(r.total, p.amount).value, CheckedSubtract(r.hold, p.amount).value,
             AddAll(r.streams, p.splits), r.pending - {id}, r.settled + p.amount)
  }

  ghost function Decline(r: Receiver, id: nat): Receiver
    requires id in r.pending
  {
    r.(hold := CheckedSubtract(r.hold, r.pending[id].amount).value, pending := r.pending - {id})
  }

  // ----- the invariant over interleaved prepares

  ghost function Amounts(pending: map<nat, Pending>): map<nat, nat> {
    map k | k in pending :: pending[k].amount
  }

  ghost function Received(streams: map<nat, StreamIn>): map<nat, nat> {
    map k | k in streams :: streams[k].received
  }

  ghost predicate SplitsFit(p: Pending, streams: map<nat, StreamIn>) {
    SumSplits(p.splits) <= p.amount && forall i :: 0 <= i < |p.splits| ==> p.splits[i].streamId in streams
  }

  /** The hold covers everything pending, the total has room for all of it, and the total is
      exactly what was fulfilled. */
  ghost predicate Sound(r: Receiver) {
    && SumMap(Amounts(r.pending)) <= r.hold
    && r.total + SumMap(Amounts(r.pending)) <= MAX
    && r.total == r.settled
  }

  /** The streams together never hold more than the connection. */
  ghost predicate Covered(r: Receiver) {
    && SumMap(Received(r.streams)) <= r.total
    && forall k :: k in r.pending ==> SplitsFit(r.pending[k], r.streams)
  }

  /** The hold that is stored contains the total received as well. It is refused exactly when
      a positive amount does not fit on top of both. */
  lemma HoldIncomingStores(r: Receiver, value: U64)
    ensures HoldIncoming(r, value).Err? <==> value > 0 && r.total + r.hold + value > MAX
    ensures HoldIncoming(r, value).Ok? ==>
              HoldIncoming(r, value).value == if r.total + r.hold + value > MAX then MAX else r.total + r.hold + value
  {}

  ghost predicate HoldFits(r: Receiver, amount: U64) { amount == 0 || r.total + r.hold + amount <= MAX }

  /** A prepare is accepted if and only if it brings the minimum, its shares have a total, each of its frames
      names an open stream with room for its part, and the connection-wide check passes. */
  lemma AcceptedIff(r: Receiver, id: nat, amount: U64, minimum: U64, frames: seq<MoneyFrame>)
    ensures Begin(r, id, amount, minimum, frames).Ok? <==>
            && minimum <= amount && TotalShares(frames) <= MAX
            && FramesPass(r.streams, amount, frames, TotalShares(frames))
            && HoldFits(r, amount)
  {
    if TotalShares(frames) <= MAX { ChecksPassIff(r.streams, amount, frames, TotalShares(frames)); }
    HoldIncomingStores(r, amount);
  }

  /** And otherwise the first of these that fails decides the error. */
  lemma RefusedBecause(r: Receiver, id: nat, amount: U64, minimum: U64, frames: seq<MoneyFrame>)
    ensures var begun := Begin(r, id, amount, minimum, frames);
            if minimum > amount then begun == Err(FinalApplicationError)
            else if TotalShares(frames) > MAX then begun == Err(TotalSharesOverflow)
            else if frames != [] && TotalShares(frames) == 0 then begun == Err(DivisionByZero)
            else if !FramesPass(r.streams, amount, frames, TotalShares(frames)) then
              begun == Err(FinalApplicationError) || begun == Err(NoSuchStream)
            else !HoldFits(r, amount) ==> begun == Err(BadRequest)
  {
    AcceptedIff(r, id, amount, minimum, frames);
    if TotalShares(frames) <= MAX {
      ChecksPassIff(r.streams, amount, frames, TotalShares(frames));
      if !FramesPass(r.streams, amount, frames, TotalShares(frames)) && TotalShares(frames) > 0 {
        var i := FirstFailing(r.streams, amount, frames, TotalShares(frames));
        FirstFailure(r.streams, amount, frames, TotalShares(frames), i);
      }
    }
  }

  lemma {:induction false} FirstFailing(streams: map<nat, StreamIn>, amount: U64, frames: seq<MoneyFrame>, total: U64)
    returns (i: nat)
    requires total > 0 && !FramesPass(streams, amount, frames, total)
    ensures i < |frames| && !FramePasses(streams, amount, frames[i], total)
    ensures forall j :: 0 <= j < i ==> FramePasses(streams, amount, frames[j], total)
  {
    i := 0;
    while FramePasses(streams, amount, frames[i], total)
      invariant i < |frames|
      invariant forall j :: 0 <= j < i ==> FramePasses(streams, amount, frames[j], total)
      decreases |frames| - i
    {
      i := i + 1;
    }
  }

  lemma BeginIsSound(r: Receiver, id: nat, amount: U64, minimum: U64, frames: seq<MoneyFrame>)
    requires Sound(r) && id !in r.pending && Begin(r, id, amount, minimum, frames).Ok?
    ensures Sound(Begin(r, id, amount, minimum, frames).value)
  {
    HoldingIsSound(r, id, Begin(r, id, amount, minimum, frames).value.pending[id]);
  }

  lemma HoldingIsSound(r: Receiver, id: nat, p: Pending)
    requires Sound(r) && id !in r.pending && HoldIncoming(r, p.amount).Ok?
    ensures Sound(r.(hold := HoldIncoming(r, p.amount).value, pending := r.pending[id := p]))
  {
    HoldIncomingStores(r, p.amount);
    SumMapAdd(Amounts(r.pending), id, p.amount);
    assert Amounts(r.pending[id := p]) == Amounts(r.pending)[id := p.amount];
  }

  lemma BeginIsCovered(r: Receiver, id: nat, amount: U64, minimum: U64, frames: seq<MoneyFrame>)
    requires Covered(r) && Begin(r, id, amount, minimum, frames).Ok?
    ensures Covered(Begin(r, id, amount, minimum, frames).value)
  {
    CheckedFramesExist(r.streams, amount, frames, TotalShares(frames));
    if frames != [] { PendingFits(r.streams, amount, frames, TotalShares(frames)); }
    assert SplitsFit(Pending(amount, SplitsOf(amount, frames)), r.streams);
  }

  lemma PendingFits(streams: map<nat, StreamIn>, amount: U64, frames: seq<MoneyFrame>, total: U64)
    requires frames != [] && total == TotalShares(frames) && 0 < total
    requires forall i :: 0 <= i < |frames| ==> frames[i].streamId in streams
    ensures SplitsFit(Pending(amount, Splits(amount, frames, total)), streams)
  {
    ProportionalSplit(amount, frames, total);
    var splits := Splits(amount, frames, total);
    forall i | 0 <= i < |splits| ensures splits[i].streamId in streams {
      SplitOfFrame(amount, frames, total, i);
    }
  }

  /** Taking one pending prepare out, by settling or declining it. */
  lemma RemovePending(r: Receiver, id: nat)
    requires Sound(r) && id in r.pending
    ensures var p := r.pending[id];
            && SumMap(Amounts(r.pending)) == p.amount + SumMap(Amounts(r.pending - {id}))
            && CheckedSubtract(r.hold, p.amount) == Checked(r.hold - p.amount, false)
            && CheckedAdd(r.total, p.amount) == Checked(r.total + p.amount, false)
  {
    SumMapWithout(Amounts(r.pending), id);
    assert Amounts(r.pending) - {id} == Amounts(r.pending - {id});
    CheckedSubtractExact(r.hold, r.pending[id].amount);
  }

  lemma {:induction false} AddAllSums(streams: map<nat, StreamIn>, splits: seq<Split>)
    requires forall i :: 0 <= i < |splits| ==> splits[i].streamId in streams
    requires SumMap(Received(streams)) + SumSplits(splits) <= MAX
    ensures AddAll(streams, splits).Keys == streams.Keys
    ensures SumMap(Received(AddAll(streams, splits))) == SumMap(Received(streams)) + SumSplits(splits)
  {
    if splits != [] {
      var s := splits[0];
      var stream, next := streams[s.streamId], AddTo(streams, s);
      EachIsBelowSum(Received(streams), s.streamId);
      SumMapUpdate(Received(streams), s.streamId, stream.received + s.amount);
      assert Received(next) == Received(streams)[s.streamId := stream.received + s.amount];
      forall i | 0 <= i < |splits| - 1 ensures splits[1..][i].streamId in next {
        assert splits[1..][i] == splits[i + 1];
      }
      AddAllSums(next, splits[1..]);
    }
  }

  /** What a packet brings to one stream. */
  ghost function PartFor(splits: seq<Split>, k: nat): nat {
    if splits == [] then 0 else (if splits[0].streamId == k then splits[0].amount else 0) + PartFor(splits[1..], k)
  }

  /** Each stream gets its parts, saturating, and nothing else about it changes. */
  lemma {:induction false} AddAllAdds(streams: map<nat, StreamIn>, splits: seq<Split>, k: nat)
    requires k in streams
    ensures AddAll(streams, splits).Keys == streams.Keys
    ensures AddAll(streams, splits)[k] ==
            streams[k].(received := Saturated(streams[k].received + PartFor(splits, k)))
  {
    if splits != [] { AddAllAdds(AddTo(streams, splits[0]), splits[1..], k); }
  }

  lemma {:induction false} PartIsBelowSum(splits: seq<Split>, k: nat)
    ensures PartFor(splits, k) <= SumSplits(splits)
  {
    if splits != [] { PartIsBelowSum(splits[1..], k); }
  }

  /** What the suspended prepares will bring to one stream. */
  ghost function Parts(pending: map<nat, Pending>, k: nat): map<nat, nat> {
    map id | id in pending :: PartFor(pending[id].splits, k)
  }

  ghost function Owed(pending: map<nat, Pending>, k: nat): nat { SumMap(Parts(pending, k)) }

  lemma OwedWithout(pending: map<nat, Pending>, id: nat, k: nat)
    requires id in pending
    ensures Owed(pending, k) == PartFor(pending[id].splits, k) + Owed(pending - {id}, k)
  {
    SumMapWithout(Parts(pending, k), id);
    assert Parts(pending, k) - {id} == Parts(pending - {id}, k);
  }

  lemma PartIsOwed(pending: map<nat, Pending>, id: nat, k: nat)
    requires id in pending
    ensures PartFor(pending[id].splits, k) <= Owed(pending, k)
  {
    OwedWithout(pending, id, k);
  }

  lemma OwedWith(pending: map<nat, Pending>, id: nat, p: Pending, k: nat)
    requires id !in pending
    ensures Owed(pending[id := p], k) == Owed(pending, k) + PartFor(p.splits, k)
  {
    OwedWithout(pending[id := p], id, k);
    assert pending[id := p] - {id} == pending;
  }

  /** There is room on every stream for all that is owed to it. */
  lemma OwedFits(r: Receiver, k: nat)
    requires Sound(r) && Covered(r) && k in r.streams
    ensures r.streams[k].received + Owed(r.pending, k) <= r.total + SumMap(Amounts(r.pending)) <= MAX
  {
    EachIsBelowSum(Received(r.streams), k);
    forall id | id in r.pending ensures Parts(r.pending, k)[id] <= Amounts(r.pending)[id] {
      assert SplitsFit(r.pending[id], r.streams);
      PartIsBelowSum(r.pending[id].splits, k);
    }
    SumMapMono(Parts(r.pending, k), Amounts(r.pending));
  }

  /** Settling neither saturates the total nor underflows the hold. */
  lemma SettleIsSound(r: Receiver, id: nat)
    requires Sound(r) && id in r.pending
    ensures Sound(Settle(r, id))
    ensures Settle(r, id).total == r.total + r.pending[id].amount
    ensures Settle(r, id).hold == r.hold - r.pending[id].amount
  {
    RemovePending(r, id);
  }

  lemma SettleIsCovered(r: Receiver, id: nat)
    requires Sound(r) && Covered(r) && id in r.pending
    ensures Covered(Settle(r, id))
  {
    RemovePending(r, id);
    var p := r.pending[id];
    assert SplitsFit(p, r.streams);
    AddAllSums(r.streams, p.splits);
    forall k | k in r.pending - {id} ensures SplitsFit(r.pending[k], AddAll(r.streams, p.splits)) {
      assert SplitsFit(r.pending[k], r.streams);
    }
  }

  lemma DeclineIsSound(r: Receiver, id: nat)
    requires Sound(r) && id in r.pending
    ensures Sound(Decline(r, id)) && Decline(r, id).total == r.total
  {
    RemovePending(r, id);
  }

  datatype Event =
    | Prepared(id: nat, amount: U64, minimum: U64, frames: seq<MoneyFrame>)
    | Fulfilled(id: nat)
    | Declined(id: nat)
    | Opened(streamId: nat)
    | Closed(streamId: nat)
    | Raised(streamId: nat, receiveMax: U64)

  function SetReceiveMax(s: StreamIn, limit: U64): Result<StreamIn> {
    if !s.open then Err(StreamClosed)
    else if s.received > limit || s.receiveMax > limit then Err(LimitTooLow)
    else Ok(s.(receiveMax := limit))
  }

  ghost predicate Enabled(r: Receiver, e: Event) {
    match e
    case Prepared(id, _, _, _) => id !in r.pending
    case Fulfilled(id) => id in r.pending
    case Declined(id) => id in r.pending
    case Opened(id) => id !in r.streams
    case Closed(id) => id in r.streams
    case Raised(id, _) => id in r.streams
  }

  ghost function Next(r: Receiver, e: Event): Receiver
    requires Enabled(r, e)
  {
    match e
    case Prepared(id, amount, minimum, frames) =>
      (match Begin(r, id, amount, minimum, frames) case Ok(r1) => r1 case Err(_) => r)
    case Fulfilled(id) => Settle(r, id)
    case Declined(id) => Decline(r, id)
    case Opened(id) => r.(streams := r.streams[id := StreamIn(0, 0, true)])
    case Closed(id) => r.(streams := r.streams[id := r.streams[id].(open := false)])
    case Raised(id, limit) =>
      (match SetReceiveMax(r.streams[id], limit) case Ok(s) => r.(streams := r.streams[id := s]) case Err(_) => r)
  }

  lemma StepIsSound(r: Receiver, e: Event)
    requires Sound(r) && Enabled(r, e)
    ensures Sound(Next(r, e))
    ensures Next(r, e).total == r.total + if e.Fulfilled? then r.pending[e.id].amount else 0
  {
    match e {
      case Prepared(id, amount, minimum, frames) =>
        if Begin(r, id, amount, minimum, frames).Ok? { BeginIsSound(r, id, amount, minimum, frames); }
      case Fulfilled(id) => SettleIsSound(r, id);
      case Declined(id) => DeclineIsSound(r, id);
      case _ =>
    }
  }

  lemma StepIsCovered(r: Receiver, e: Event)
    requires Sound(r) && Covered(r) && Enabled(r, e)
    ensures Covered(Next(r, e))
  {
    match e {
      case Prepared(id, amount, minimum, frames) =>
        if Begin(r, id, amount, minimum, frames).Ok? { BeginIsCovered(r, id, amount, minimum, frames); }
      case Fulfilled(id) => SettleIsCovered(r, id);
      case Declined(id) =>
      case Opened(id) => OnlyLimitsChange(r, id, StreamIn(0, 0, true));
      case Closed(id) => OnlyLimitsChange(r, id, r.streams[id].(open := false));
      case Raised(id, limit) =>
        var raised := SetReceiveMax(r.streams[id], limit);
        if raised.Ok? { OnlyLimitsChange(r, id, raised.value); }
    }
  }

  lemma OnlyLimitsChange(r: Receiver, id: nat, s: StreamIn)
    requires Covered(r) && s.received == if id in r.streams then r.streams[id].received else 0
    ensures Covered(r.(streams := r.streams[id := s]))
  {
    var m := Received(r.streams);
    assert Received(r.streams[id := s]) == m[id := s.received];
    if id in m { SumMapUpdate(m, id, m[id]); } else { SumMapAdd(m, id, 0); }
    forall k | k in r.pending ensures SplitsFit(r.pending[k], r.streams[id := s]) {
      assert SplitsFit(r.pending[k], r.streams);
    }
  }

  ghost predicate Run(r: Receiver, events: seq<Event>, last: Receiver)
    decreases |events|
  {
    if events == [] then last == r else Enabled(r, events[0]) && Run(Next(r, events[0]), events[1..], last)
  }

  lemma {:induction false} RunIsSound(r: Receiver, events: seq<Event>, last: Receiver)
    requires Sound(r) && Run(r, events, last)
    ensures Sound(last)
    ensures Covered(r) ==> Covered(last)
    decreases |events|
  {
    if events != [] {
      StepIsSound(r, events[0]);
      if Covered(r) { StepIsCovered(r, events[0]); }
      RunIsSound(Next(r, events[0]), events[1..], last);
    }
  }

  /** However the prepares of a connection overlap, the total received is the exact sum of the
      fulfilled amounts and has room for all that is pending. */
  lemma IncomingIsSound(events: seq<Event>, last: Receiver)
    requires Run(IDLE, events, last)
    ensures last.total == last.settled
    ensures last.total + SumMap(Amounts(last.pending)) <= MAX
    ensures SumMap(Amounts(last.pending)) <= last.hold
  {
    RunIsSound(IDLE, events, last);
  }

  /** Whatever shares the peer chooses, the streams never together show more than the connection
      received. */
  lemma StreamsAreCovered(events: seq<Event>, last: Receiver)
    requires Run(IDLE, events, last)
    ensures SumMap(Received(last.streams)) <= last.total
  {
    RunIsSound(IDLE, events, last);
  }

  lemma PartAdds(streams: map<nat, StreamIn>, splits: seq<Split>, k: nat)
    requires k in streams && streams[k].received + PartFor(splits, k) <= MAX
    ensures k in AddAll(streams, splits)
    ensures AddAll(streams, splits)[k].received == streams[k].received + PartFor(splits, k)
  {
    AddAllAdds(streams, splits, k);
  }

  lemma SettleAddsExactly(r: Receiver, id: nat, k: nat)
    requires id in r.pending && k in r.streams && r.streams[k].received + Owed(r.pending, k) <= MAX
    ensures k in Settle(r, id).streams
    ensures Settle(r, id).streams[k].received == r.streams[k].received + PartFor(r.pending[id].splits, k)
  {
    PartIsOwed(r.pending, id, k);
    PartAdds(r.streams, r.pending[id].splits, k);
  }

  /** Nor does any stream's total ever saturate: there is room for all that is pending for it, and
      settling a prepare adds exactly its part. */
  lemma NoStreamSaturates(events: seq<Event>, last: Receiver, id: nat, k: nat)
    requires Run(IDLE, events, last) && k in last.streams && id in last.pending
    ensures last.streams[k].received + Owed(last.pending, k) <= MAX
    ensures k in Settle(last, id).streams
    ensures Settle(last, id).streams[k].received ==
            last.streams[k].received + PartFor(last.pending[id].splits, k)
  {
    RunIsSound(IDLE, events, last);
    OwedFits(last, k);
    SettleAddsExactly(last, id, k);
  }

  /** What a stream has received never shrinks. */
  lemma {:induction false} AddAllGrows(streams: map<nat, StreamIn>, splits: seq<Split>, k: nat)
    requires k in streams
    ensures k in AddAll(streams, splits) && streams[k].received <= AddAll(streams, splits)[k].received
  {
    if splits != [] { AddAllGrows(AddTo(streams, splits[0]), splits[1..], k); }
  }

  lemma ReceivedGrows(r: Receiver, e: Event, k: nat)
    requires Enabled(r, e) && k in r.streams
    ensures k in Next(r, e).streams && r.streams[k].received <= Next(r, e).streams[k].received
  {
    if e.Fulfilled? { AddAllGrows(r.streams, r.pending[e.id].splits, k); }
  }

  // ----- money is refused although it would fit

  /** What the stored hold holds beyond the pending amounts. */
  ghost function Carried(r: Receiver): int { r.hold - SumMap(Amounts(r.pending)) }

  ghost predicate Accepts(r: Receiver, e: Event) {
    e.Prepared? && Begin(r, e.id, e.amount, e.minimum, e.frames).Ok?
  }

  /** An accepted prepare leaves the total behind in the hold, as far as that fits. */
  ghost function Surcharge(r: Receiver, e: Event): int {
    if !Accepts(r, e) then 0
    else if r.total + r.hold + e.amount > MAX then MAX - r.hold - e.amount
    else r.total
  }

  lemma StepCarries(r: Receiver, e: Event)
    requires Sound(r) && Enabled(r, e)
    ensures Carried(Next(r, e)) == Carried(r) + Surcharge(r, e) && Surcharge(r, e) >= 0
    ensures Carried(r) == 0 ==> (Surcharge(r, e) == 0 <==> !Accepts(r, e) || r.total == 0)
  {
    match e {
      case Prepared(id, amount, minimum, frames) =>
        if Accepts(r, e) {
          var p := Begin(r, id, amount, minimum, frames).value.pending[id];
          HoldIncomingStores(r, amount);
          SumMapAdd(Amounts(r.pending), id, amount);
          assert Amounts(r.pending[id := p]) == Amounts(r.pending)[id := amount];
        }
      case Fulfilled(id) => RemovePending(r, id);
      case Declined(id) => RemovePending(r, id);
      case _ =>
    }
  }

  ghost function Surcharges(r: Receiver, events: seq<Event>): int
    decreases |events|
  {
    if events == [] || !Enabled(r, events[0]) then 0
    else Surcharge(r, events[0]) + Surcharges(Next(r, events[0]), events[1..])
  }

  /** No prepare was accepted after money had been received. */
  ghost predicate NoneAfterMoney(r: Receiver, events: seq<Event>)
    decreases |events|
  {
    events != [] && Enabled(r, events[0]) ==>
      && (Accepts(r, events[0]) ==> r.total == 0)
      && NoneAfterMoney(Next(r, events[0]), events[1..])
  }

  lemma {:induction false} RunCarries(r: Receiver, events: seq<Event>, last: Receiver)
    requires Sound(r) && Run(r, events, last)
    ensures Carried(last) == Carried(r) + Surcharges(r, events) && Surcharges(r, events) >= 0
    ensures Carried(r) == 0 ==> (Surcharges(r, events) == 0 <==> NoneAfterMoney(r, events))
    decreases |events|
  {
    if events != [] {
      StepCarries(r, events[0]);
      StepIsSound(r, events[0]);
      RunCarries(Next(r, events[0]), events[1..], last);
    }
  }

  /** The hold is the pending amounts plus, for each prepare ever accepted, what had been received
      until then. Settling and declining take nothing of that back. */
  lemma HoldOverRun(events: seq<Event>, last: Receiver)
    requires Run(IDLE, events, last)
    ensures last.hold == SumMap(Amounts(last.pending)) + Surcharges(IDLE, events)
  {
    RunCarries(IDLE, events, last);
  }

  ghost predicate FitsOn(r: Receiver, amount: U64) { r.total + SumMap(Amounts(r.pending)) + amount <= MAX }

  /** A payment that passes the other checks is refused for an overflow exactly if it does not fit on
      top of what is carried as well. */
  lemma RefusedForOverflow(r: Receiver, amount: U64, minimum: U64, frames: seq<MoneyFrame>)
    requires minimum <= amount && TotalShares(frames) <= MAX
    requires CheckFrames(r.streams, amount, frames, TotalShares(frames)) == None
    ensures Begin(r, 0, amount, minimum, frames).Err? <==>
            amount > 0 && r.total + SumMap(Amounts(r.pending)) + Carried(r) + amount > MAX
  {
    HoldIncomingStores(r, amount);
  }

  lemma FittingIsHeldNow(r: Receiver)
    requires Sound(r)
    ensures (forall amount: U64 :: FitsOn(r, amount) ==> HoldIncoming(r, amount).Ok?)
            <==> Carried(r) == 0 || !FitsOn(r, 1)
  {
    var room := MAX - r.total - SumMap(Amounts(r.pending));
    if Carried(r) > 0 {
      HoldIncomingStores(r, room);
      assert FitsOn(r, room);
    }
    forall amount: U64 | FitsOn(r, amount) && (Carried(r) == 0 || room == 0) ensures HoldIncoming(r, amount).Ok? {
      HoldIncomingStores(r, amount);
    }
  }

  /** Every payment that fits can be held if and only if no prepare was accepted after money had been
      received, unless nothing fits any more. */
  lemma FittingIsHeld(events: seq<Event>, last: Receiver)
    requires Run(IDLE, events, last)
    ensures (forall amount: U64 :: FitsOn(last, amount) ==> HoldIncoming(last, amount).Ok?)
            <==> NoneAfterMoney(IDLE, events) || !FitsOn(last, 1)
  {
    RunCarries(IDLE, events, last);
    RunIsSound(IDLE, events, last);
    FittingIsHeldNow(last);
  }

  /** One packet without frames, accepted and settled. */
  ghost function Settled(amount: U64): seq<Event> { [Prepared(0, amount, 0, []), Fulfilled(0)] }

  lemma SettledRun(r: Receiver, amount: U64)
    requires r.pending == map[] && r.total + r.hold + amount <= MAX
    ensures Run(r, Settled(amount),
                r.(total := r.total + amount, hold := r.total + r.hold, settled := r.settled + amount))
  {
    var p := Pending(amount, []);
    var r1 := r.(hold := r.total + r.hold + amount, pending := map[0 := p]);
    var r2 := r.(total := r.total + amount, hold := r.total + r.hold, settled := r.settled + amount);
    assert Next(r, Prepared(0, amount, 0, [])) == r1;
    assert Next(r1, Fulfilled(0)) == r2 by { assert r1.pending - {0} == map[]; }
    assert Settled(amount)[1..] == [Fulfilled(0)] && [Fulfilled(0)][1..] == [];
    assert Run(r2, [], r2);
    assert Run(r1, [Fulfilled(0)], r2);
  }

  lemma {:induction false} RunThenRun(r: Receiver, events: seq<Event>, m: Receiver, more: seq<Event>, last: Receiver)
    requires Run(r, events, m) && Run(m, more, last)
    ensures Run(r, events + more, last)
    decreases |events|
  {
    if events == [] {
      assert events + more == more;
    } else {
      RunThenRun(Next(r, events[0]), events[1..], m, more, last);
      assert (events + more)[1..] == events[1..] + more;
    }
  }

  /** A payment and then n empty packets. */
  ghost function PaidThenEmpty(amount: U64, n: nat): seq<Event> {
    if n == 0 then Settled(amount) else PaidThenEmpty(amount, n - 1) + Settled(0)
  }

  lemma {:induction false} PaidThenEmptyRun(amount: U64, n: nat)
    requires n * amount <= MAX
    ensures Run(IDLE, PaidThenEmpty(amount, n), Receiver(amount, n * amount, map[], map[], amount))
  {
    if n == 0 {
      SettledRun(IDLE, amount);
    } else {
      assert n * amount == (n - 1) * amount + amount;
      PaidThenEmptyRun(amount, n - 1);
      var r := Receiver(amount, (n - 1) * amount, map[], map[], amount);
      SettledRun(r, 0);
      RunThenRun(IDLE, PaidThenEmpty(amount, n - 1), r, Settled(0), r.(hold := n * amount));
    }
  }

  /** An input: after 2^62 units and three empty packets the next unit is refused, with three quarters
      of the range still free. */
  lemma SpuriousOverflow()
    ensures var r := Receiver(0x4000_0000_0000_0000, 0xC000_0000_0000_0000, map[], map[], 0x4000_0000_0000_0000);
            && Run(IDLE, PaidThenEmpty(0x4000_0000_0000_0000, 3), r)
            && FitsOn(r, 0x8000_0000_0000_0000) && Begin(r, 0, 1, 0, []) == Err(BadRequest)
  {
    PaidThenEmptyRun(0x4000_0000_0000_0000, 3);
    assert SumMap(Amounts(map[])) == 0;
  }

  // ----- the connection's fields

  class IncomingConnection {
    var totalReceived: U64
    var incomingHold: U64
    var streams: map<nat, StreamIn>
    ghost var pending: map<nat, Pending>
    ghost var settled: nat

    ghost function State(): Receiver
      reads this
    {
      Receiver(totalReceived, incomingHold, streams, pending, settled)
    }

    constructor ()
      ensures State() == IDLE
    {
      totalReceived, incomingHold, streams, pending, settled := 0, 0, map[], map[], 0;
    }

    method AddIncomingHold(value: U64) returns (ok: bool)
      modifies this`incomingHold
      ensures match HoldIncoming(old(State()), value)
              case Ok(h) => ok && incomingHold == h
              case Err(_) => !ok && incomingHold == old(incomingHold)
    {
      var result := CheckedAdd(totalReceived, incomingHold);
      result := CheckedAdd(result.value, value);
      if result.wrapped {
        return false;
      }
      incomingHold := result.value;
      return true;
    }

    /** The first turn of a prepare, up to where the application is asked. */
    method BeginPrepare(ghost id: nat, amount: U64, minimum: U64, frames: seq<MoneyFrame>)
      returns (r: Result<seq<Split>>)
      modifies this`incomingHold, this`pending
      ensures match Begin(old(State()), id, amount, minimum, frames)
              case Ok(s) => r.Ok? && State() == s && Pending(amount, r.value) == s.pending[id]
              case Err(e) => r == Err(e) && State() == old(State())
    {
      if minimum > amount {
        return Err(FinalApplicationError);
      }
      var totalMoneyShares := 0;
      for i := 0 to |frames|
        invariant 0 <= totalMoneyShares <= MAX
        invariant totalMoneyShares + TotalShares(frames[i..]) == TotalShares(frames)
      {
        assert frames[i..][1..] == frames[i + 1..];
        var result := CheckedAdd(totalMoneyShares, frames[i].shares);
        if result.wrapped {
          return Err(TotalSharesOverflow);
        }
        totalMoneyShares := result.value;
      }
      var amountsToReceive := CheckAndSplit(amount, frames, totalMoneyShares);
      if amountsToReceive.Err? {
        return amountsToReceive;
      }
      var ok := AddIncomingHold(amount);
      if !ok {
        return Err(BadRequest);
      }
      pending := pending[id := Pending(amount, amountsToReceive.value)];
      return amountsToReceive;
    }

    method CheckAndSplit(amount: U64, frames: seq<MoneyFrame>, total: U64) returns (r: Result<seq<Split>>)
      requires total == TotalShares(frames)
      ensures match CheckFrames(streams, amount, frames, total)
              case Some(e) => r == Err(e)
              case None => (frames != [] ==> total > 0) && r == Ok(SplitsOf(amount, frames))
    {
      var splits := [];
      for i := 0 to |frames|
        invariant CheckFrames(streams, amount, frames, total) == CheckFrames(streams, amount, frames[i..], total)
        invariant if i == 0 then splits == [] else total > 0
        invariant total > 0 ==> Splits(amount, frames, total) == splits + Splits(amount, frames[i..], total)
      {
        assert frames[i..][1..] == frames[i + 1..] && frames[i..][0] == frames[i];
        if total == 0 {
          return Err(DivisionByZero);
        }
        var streamAmount := Floor(amount, frames[i].shares, total);
        if frames[i].streamId !in streams {
          return Err(NoSuchStream);
        }
        var stream := streams[frames[i].streamId];
        if Allowance(stream) < streamAmount {
          return Err(FinalApplicationError);
        }
        if !stream.open {
          return Err(FinalApplicationError);
        }
        splits := splits + [Split(frames[i].streamId, streamAmount)];
      }
      assert frames[|frames|..] == [] && splits + [] == splits;
      return Ok(splits);
    }

    /** The second turn, when the application agrees. */
    method FulfillPrepare(ghost id: nat, amount: U64, splits: seq<Split>)
      requires id in pending && pending[id] == Pending(amount, splits)
      modifies this
      ensures State() == Settle(old(State()), id)
    {
      for i := 0 to |splits|
        invariant AddAll(streams, splits[i..]) == AddAll(old(streams), splits)
        invariant State() == old(State()).(streams := streams)
      {
        assert splits[i..][1..] == splits[i + 1..];
        streams := AddTo(streams, splits[i]);
      }
      incomingHold := CheckedSubtract(incomingHold, amount).value;
      totalReceived := CheckedAdd(totalReceived, amount).value;
      pending := pending - {id};
      settled := settled + amount;
    }

    /** The second turn, when the application declines. */
    method DeclinePrepare(ghost id: nat, amount: U64)
      requires id in pending && pending[id].amount == amount
      modifies this`incomingHold, this`pending
      ensures State() == Decline(old(State()), id)
    {
      incomingHold := CheckedSubtract(incomingHold, amount).value;
      pending := pending - {id};
    }
  }
}
