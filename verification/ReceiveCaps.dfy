/** A stream's limit on what it receives, with the allowance of one percent: which packets, and which
    overlapping prepares, keep it. */
module ReceiveCaps {
  import opened Arith
  import opened IncomingMoney
  import opened Long64
  import opened Maps
  import opened MultiplyDivide
  import opened PacketAssembly
  import opened Wrappers

  ghost predicate WithinCap(s: StreamIn) { s.received <= Cap(s.receiveMax) }

  /** A stream that gets one part of a packet settled at once stays below its cap. */
  lemma SplitStaysWithinCap(s: StreamIn, amount: U64)
    requires WithinCap(s) && amount <= Allowance(s)
    ensures WithinCap(s.(received := Saturated(s.received + amount)))
  {
    AllowanceIsRoom(s);
  }

  ghost predicate AllWithinCap(streams: map<nat, StreamIn>) { forall k :: k in streams ==> WithinCap(streams[k]) }

  // ----- what a packet's frames ask for one stream

  /** The largest of the frames that name a stream. */
  ghost function LargestFor(frames: seq<MoneyFrame>, k: nat): U64 {
    if frames == [] then 0
    else
      var later := LargestFor(frames[1..], k);
      if frames[0].streamId == k && frames[0].shares > later then frames[0].shares else later
  }

  lemma {:induction false} LargestIsBelow(frames: seq<MoneyFrame>, k: nat)
    ensures LargestFor(frames, k) <= SharesFor(frames, k) <= TotalShares(frames)
    ensures LargestFor(frames, k) == 0 ==> SharesFor(frames, k) == 0
    ensures forall i :: 0 <= i < |frames| && frames[i].streamId == k ==> frames[i].shares <= LargestFor(frames, k)
  {
    if frames != [] {
      LargestIsBelow(frames[1..], k);
      forall i | 0 < i < |frames| ensures frames[i] == frames[1..][i - 1] {}
    }
  }

  lemma {:induction false} LargestFrame(frames: seq<MoneyFrame>, k: nat) returns (i: nat)
    requires LargestFor(frames, k) > 0
    ensures i < |frames| && frames[i] == MoneyFrame(k, LargestFor(frames, k))
  {
    if frames[0] == MoneyFrame(k, LargestFor(frames, k)) {
      i := 0;
    } else {
      i := LargestFrame(frames[1..], k);
      i := i + 1;
    }
  }

  lemma {:induction false} TwoPaidExceedLargest(frames: seq<MoneyFrame>, i: nat, j: nat)
    requires i < j < |frames| && frames[i].streamId == frames[j].streamId
    requires frames[i].shares > 0 && frames[j].shares > 0
    ensures LargestFor(frames, frames[i].streamId) < SharesFor(frames, frames[i].streamId)
  {
    var k := frames[i].streamId;
    LargestIsBelow(frames[1..], k);
    if i > 0 {
      TwoPaidExceedLargest(frames[1..], i - 1, j - 1);
    } else {
      assert frames[1..][j - 1] == frames[j];
    }
  }

  /** Frames without shares do no harm. */
  ghost predicate OnePaidFramePerStream(frames: seq<MoneyFrame>) {
    forall i, j :: 0 <= i < j < |frames| && frames[i].streamId == frames[j].streamId ==>
      frames[i].shares == 0 || frames[j].shares == 0
  }

  lemma {:induction false} OnePaidIsLargest(frames: seq<MoneyFrame>, k: nat)
    requires OnePaidFramePerStream(frames)
    ensures LargestFor(frames, k) == SharesFor(frames, k)
  {
    if frames != [] {
      OnePaidIsLargest(frames[1..], k);
      LargestIsBelow(frames[1..], k);
      if LargestFor(frames[1..], k) > 0 {
        var i := LargestFrame(frames[1..], k);
        assert frames[i + 1] == frames[1..][i];
      }
    }
  }

  /** At most one frame with shares; and where all shares total 2^63, two frames of one share each. */
  ghost predicate Harmless(frames: seq<MoneyFrame>, k: nat) {
    || LargestFor(frames, k) == SharesFor(frames, k)
    || (TotalShares(frames) == TWO63 && LargestFor(frames, k) == 1 && SharesFor(frames, k) == 2)
  }

  ghost predicate AllHarmless(frames: seq<MoneyFrame>) { forall k: nat :: Harmless(frames, k) }

  /** For totals below 2^63 that is one frame with shares per stream. */
  lemma HarmlessIsOnePaid(frames: seq<MoneyFrame>)
    ensures OnePaidFramePerStream(frames) ==> AllHarmless(frames)
    ensures AllHarmless(frames) && TotalShares(frames) != TWO63 ==> OnePaidFramePerStream(frames)
  {
    if OnePaidFramePerStream(frames) {
      forall k: nat ensures Harmless(frames, k) { OnePaidIsLargest(frames, k); }
    } else {
      var i, j :| 0 <= i < j < |frames| && frames[i].streamId == frames[j].streamId &&
                  frames[i].shares > 0 && frames[j].shares > 0;
      TwoPaidExceedLargest(frames, i, j);
      assert TotalShares(frames) != TWO63 ==> !Harmless(frames, frames[i].streamId);
    }
  }

  // ----- a harmless packet that is accepted in one turn

  lemma {:induction false} LoopOfNothing(a: U64, c: U64)
    requires c > 0
    ensures Loop(a, 0, 0, 0, 0, c) == QuoRem(0, 0)
  {
    if a > 0 { LoopOfNothing(a / 2, c); }
  }

  lemma FloorOfNothing(amount: U64, total: U64)
    requires total > 0
    ensures Floor(amount, 0, total) == 0
  {
    DivisionIsUnique(0, 0, 0, total);
    LoopOfNothing(amount, total);
  }

  /** A stream with one paid frame gets the part of that frame. */
  lemma {:induction false} LonePart(amount: U64, frames: seq<MoneyFrame>, total: U64, k: nat)
    requires total > 0 && LargestFor(frames, k) == SharesFor(frames, k)
    ensures PartFor(Splits(amount, frames, total), k) == Floor(amount, LargestFor(frames, k), total)
  {
    FloorOfNothing(amount, total);
    if frames != [] {
      LargestIsBelow(frames[1..], k);
      LonePart(amount, frames[1..], total, k);
      assert Splits(amount, frames, total)[1..] == Splits(amount, frames[1..], total);
    }
  }

  lemma OneMoreTime(n: nat, unit: nat)
    ensures (1 + n) * unit == unit + n * unit
  {}

  /** A stream whose frames have one share each gets as many equal parts. */
  lemma {:induction false} UnitParts(amount: U64, frames: seq<MoneyFrame>, total: U64, k: nat)
    requires total > 0 && LargestFor(frames, k) <= 1
    ensures PartFor(Splits(amount, frames, total), k) == SharesFor(frames, k) * Floor(amount, 1, total)
  {
    FloorOfNothing(amount, total);
    if frames != [] {
      var unit, later := Floor(amount, 1, total), SharesFor(frames[1..], k);
      UnitParts(amount, frames[1..], total, k);
      assert Splits(amount, frames, total)[1..] == Splits(amount, frames[1..], total);
      OneMoreTime(later, unit);
    }
  }

  /** One unit each: the smallest room that lets one part pass is enough for two. */
  lemma TwoUnitsFit(s: StreamIn, part: U64)
    requires WithinCap(s) && part <= 1 && part <= Allowance(s)
    ensures WithinCap(s.(received := Saturated(s.received + 2 * part)))
  {
    AllowanceIsRoom(s);
  }

  /** The parts that passed their checks keep the stream within its cap. */
  lemma HarmlessPartStaysWithinCap(s: StreamIn, amount: U64, frames: seq<MoneyFrame>, k: nat)
    requires WithinCap(s) && Harmless(frames, k) && 0 < TotalShares(frames) <= MAX
    requires Floor(amount, LargestFor(frames, k), TotalShares(frames)) <= Allowance(s)
    ensures WithinCap(s.(received := Saturated(s.received + PartFor(Splits(amount, frames, TotalShares(frames)), k))))
  {
    var total := TotalShares(frames);
    if LargestFor(frames, k) == SharesFor(frames, k) {
      LonePart(amount, frames, total, k);
      SplitStaysWithinCap(s, Floor(amount, LargestFor(frames, k), total));
    } else {
      UnitParts(amount, frames, total, k);
      ShareOfPacket(amount, 1, total);
      TwoUnitsFit(s, Floor(amount, 1, total));
    }
  }

  lemma {:induction false} KeysStay(streams: map<nat, StreamIn>, splits: seq<Split>)
    ensures AddAll(streams, splits).Keys == streams.Keys
  {
    if splits != [] { KeysStay(AddTo(streams, splits[0]), splits[1..]); }
  }

  lemma HarmlessSplitsStayWithinCap(streams: map<nat, StreamIn>, amount: U64, frames: seq<MoneyFrame>)
    requires AllWithinCap(streams) && AllHarmless(frames) && 0 < TotalShares(frames) <= MAX
    requires CheckFrames(streams, amount, frames, TotalShares(frames)) == None
    ensures AllWithinCap(AddAll(streams, Splits(amount, frames, TotalShares(frames))))
  {
    var splits := Splits(amount, frames, TotalShares(frames));
    KeysStay(streams, splits);
    CheckedFramesExist(streams, amount, frames, TotalShares(frames));
    forall k | k in streams ensures WithinCap(AddAll(streams, splits)[k]) {
      AddAllAdds(streams, splits, k);
      FloorOfNothing(amount, TotalShares(frames));
      if LargestFor(frames, k) > 0 { var i := LargestFrame(frames, k); }
      assert Harmless(frames, k);
      HarmlessPartStaysWithinCap(streams[k], amount, frames, k);
    }
  }

  /** Accepted in one go, a packet whose frames are harmless keeps every stream within its limit plus one
      percent. */
  lemma HarmlessPacketStaysWithinCap(r: Receiver, amount: U64, minimum: U64, frames: seq<MoneyFrame>)
    requires AllWithinCap(r.streams) && AllHarmless(frames)
    requires Begin(r, 0, amount, minimum, frames).Ok?
    ensures AllWithinCap(Settle(Begin(r, 0, amount, minimum, frames).value, 0).streams)
  {
    CheckedFramesExist(r.streams, amount, frames, TotalShares(frames));
    if frames != [] { HarmlessSplitsStayWithinCap(r.streams, amount, frames); }
  }

  lemma AtomicPacketStaysWithinCap(r: Receiver, amount: U64, minimum: U64, frames: seq<MoneyFrame>)
    requires AllWithinCap(r.streams) && OnePaidFramePerStream(frames)
    requires Begin(r, 0, amount, minimum, frames).Ok?
    ensures AllWithinCap(Settle(Begin(r, 0, amount, minimum, frames).value, 0).streams)
  {
    HarmlessIsOnePaid(frames);
    HarmlessPacketStaysWithinCap(r, amount, minimum, frames);
  }

  datatype AtomicEvent =
    | Packet(amount: U64, minimum: U64, frames: seq<MoneyFrame>)
    | Other(event: Event)

  ghost function NextAtomic(r: Receiver, e: AtomicEvent): Receiver
    requires e.Other? ==> Enabled(r, e.event)
  {
    match e
    case Packet(amount, minimum, frames) =>
      (match Begin(r, 0, amount, minimum, frames) case Ok(r1) => Settle(r1, 0) case Err(_) => r)
    case Other(event) => Next(r, event)
  }

  ghost predicate AtomicRun(r: Receiver, events: seq<AtomicEvent>, last: Receiver)
    decreases |events|
  {
    if events == [] then last == r
    else
      && (match events[0]
          case Packet(_, _, frames) => AllHarmless(frames)
          case Other(event) => (event.Opened? || event.Closed? || event.Raised?) && Enabled(r, event))
      && AtomicRun(NextAtomic(r, events[0]), events[1..], last)
  }

  /** Over whole runs, with limits raised and streams opened or closed in between. */
  lemma {:induction false} ReceiveCap(r: Receiver, events: seq<AtomicEvent>, last: Receiver)
    requires AllWithinCap(r.streams) && AtomicRun(r, events, last)
    ensures AllWithinCap(last.streams)
    decreases |events|
  {
    if events != [] {
      match events[0] {
        case Packet(amount, minimum, frames) =>
          if Begin(r, 0, amount, minimum, frames).Ok? { HarmlessPacketStaysWithinCap(r, amount, minimum, frames); }
        case Other(_) =>
      }
      ReceiveCap(NextAtomic(r, events[0]), events[1..], last);
    }
  }

  // ----- no other packet is safe

  /** A packet of the total or more gives each frame its shares at least. */
  lemma PartCoversShares(amount: U64, shares: U64, total: U64)
    requires 0 < total <= TWO63 && total <= amount && shares <= total
    ensures Floor(amount, shares, total) >= shares
  {
    ShareOfPacket(amount, shares, total);
    MulMono(total, amount, shares);
    MulCancel(shares, Floor(amount, shares, total) + 1, total);
  }

  lemma {:induction false} PartsCoverShares(amount: U64, frames: seq<MoneyFrame>, total: U64, k: nat)
    requires 0 < total <= TWO63 && total <= amount && TotalShares(frames) <= total
    ensures PartFor(Splits(amount, frames, total), k) >= SharesFor(frames, k)
  {
    if frames != [] {
      PartCoversShares(amount, frames[0].shares, total);
      PartsCoverShares(amount, frames[1..], total, k);
      assert Splits(amount, frames, total)[1..] == Splits(amount, frames[1..], total);
    }
  }

  /** And what one frame gets on top of its shares comes on top for its stream. */
  lemma {:induction false} PartsExceedShares(amount: U64, frames: seq<MoneyFrame>, total: U64, i: nat, more: nat)
    requires 0 < total <= TWO63 && total <= amount && TotalShares(frames) <= total && i < |frames|
    requires Floor(amount, frames[i].shares, total) >= frames[i].shares + more
    ensures PartFor(Splits(amount, frames, total), frames[i].streamId) >= SharesFor(frames, frames[i].streamId) + more
  {
    assert Splits(amount, frames, total)[1..] == Splits(amount, frames[1..], total);
    if i > 0 {
      PartCoversShares(amount, frames[0].shares, total);
      PartsExceedShares(amount, frames[1..], total, i - 1, more);
    } else {
      PartsCoverShares(amount, frames[1..], total, frames[0].streamId);
    }
  }

  lemma WholeShare(shares: U64, total: U64)
    requires 0 < total <= TWO63 && shares <= total
    ensures Floor(total, shares, total) == shares
  {
    var n := total * shares;
    MulMonoStrict(shares, TWO64, total);
    ExactQuotient(total, shares, total, n);
    DivisionIsUnique(n, shares, 0, total);
  }

  lemma QuotientBetween(n: nat, f: nat, q: nat, c: nat)
    requires f * c <= n < f * c + c
    ensures n < q * c + c ==> f <= q
    ensures q * c <= n ==> q <= f
  {
    if f > q { MulMonoStrict(q, f, c); }
    if q > f { MulMonoStrict(f, q, c); }
  }

  lemma OneMoreProduct(shares: nat, largest: nat, total: nat, d: nat)
    requires shares <= largest <= total && total <= d * largest < total + largest
    ensures (total + d) * shares < (largest + 1) * total + total
    ensures shares == largest ==> (largest + 1) * total <= (total + d) * shares
  {
    MulMono(shares, largest, total + d);
    assert largest * (total + d) == largest * total + d * largest;
    assert shares * (total + d) == (total + d) * shares;
    assert (largest + 1) * total == largest * total + total;
  }

  lemma RoundedUp(largest: nat, total: nat) returns (d: nat)
    requires 0 < largest <= total <= TWO63 && (largest >= 2 || total < TWO63)
    ensures total <= d * largest < total + largest && total + d <= MAX
  {
    d := (total + largest - 1) / largest;
    DivMod(total + largest - 1, largest);
    if largest >= 2 { MulMono(2, largest, d); }
    assert largest * d == d * largest;
  }

  lemma OneMorePart(amount: U64, shares: U64, largest: U64, total: U64, d: nat)
    requires shares <= largest <= total <= TWO63 && 0 < total && amount == total + d
    requires total <= d * largest < total + largest
    ensures Floor(amount, shares, total) <= largest + 1
    ensures shares == largest ==> Floor(amount, shares, total) == largest + 1
  {
    ShareOfPacket(amount, shares, total);
    OneMoreProduct(shares, largest, total, d);
    QuotientBetween(amount * shares, Floor(amount, shares, total), largest + 1, total);
  }

  /** Just so much on top of the total that a frame with `largest` shares gets one unit more. */
  lemma OneMore(largest: U64, total: U64) returns (amount: U64)
    requires 0 < largest <= total <= TWO63 && (largest >= 2 || total < TWO63)
    ensures total <= amount && Floor(amount, largest, total) == largest + 1
    ensures forall shares: U64 :: shares <= largest ==> Floor(amount, shares, total) <= largest + 1
  {
    var d := RoundedUp(largest, total);
    amount := total + d;
    OneMorePart(amount, largest, largest, total, d);
    forall shares: U64 | shares <= largest ensures Floor(amount, shares, total) <= largest + 1 {
      OneMorePart(amount, shares, largest, total, d);
    }
  }

  /** A limit whose cap is v or v + 1. */
  function LimitFor(v: nat): nat { if v == 0 then 0 else 100 * (v - 1) / 101 + 1 }

  lemma CapOfLimit(v: nat)
    requires v > 0
    ensures v <= Cap(LimitFor(v)) <= v + 1 && LimitFor(v) <= v
  {}

  /** Nothing received yet; one stream has a limit, the others take anything. */
  ghost function OneLimited(frames: seq<MoneyFrame>, k: nat, limit: U64): Receiver {
    var ids := set i | 0 <= i < |frames| :: frames[i].streamId;
    IDLE.(streams := map id | id in ids :: StreamIn(0, if id == k then limit else MAX, true))
  }

  ghost predicate KeepsCap(frames: seq<MoneyFrame>) {
    forall r: Receiver, amount: U64, minimum: U64 {:trigger Begin(r, 0, amount, minimum, frames)} ::
      AllWithinCap(r.streams) && Begin(r, 0, amount, minimum, frames).Ok? ==>
        AllWithinCap(Settle(Begin(r, 0, amount, minimum, frames).value, 0).streams)
  }

  lemma BreaksTheCap(streams: map<nat, StreamIn>, splits: seq<Split>, k: nat)
    requires k in streams && Cap(streams[k].receiveMax) < PartFor(splits, k) <= MAX
    ensures !AllWithinCap(AddAll(streams, splits))
  {
    AddAllAdds(streams, splits, k);
    assert !WithinCap(AddAll(streams, splits)[k]);
  }

  lemma PassingPacketBreaksTheCap(r: Receiver, amount: U64, frames: seq<MoneyFrame>, k: nat)
    requires AllWithinCap(r.streams) && r.total == 0 && r.hold == 0 && k in r.streams
    requires TotalShares(frames) <= MAX && (frames != [] ==> TotalShares(frames) > 0)
    requires CheckFrames(r.streams, amount, frames, TotalShares(frames)) == None
    requires Cap(r.streams[k].receiveMax) < PartFor(SplitsOf(amount, frames), k) <= MAX
    ensures !KeepsCap(frames)
  {
    assert Begin(r, 0, amount, 0, frames).Ok?;
    BreaksTheCap(r.streams, SplitsOf(amount, frames), k);
  }

  /** A packet whose parts for stream k just pass the check of its limit, but are too much together. */
  lemma OverfullPacketBreaksTheCap(frames: seq<MoneyFrame>, k: nat, amount: U64, limit: U64)
    requires 0 < TotalShares(frames) <= TWO63 && LargestFor(frames, k) > 0
    requires forall i :: 0 <= i < |frames| && frames[i].streamId == k ==>
               Floor(amount, frames[i].shares, TotalShares(frames)) <= Cap(limit)
    requires Cap(limit) < PartFor(Splits(amount, frames, TotalShares(frames)), k)
    ensures !KeepsCap(frames)
  {
    var r := OneLimited(frames, k, limit);
    var j := LargestFrame(frames, k);
    assert frames[j].streamId in r.streams;
    ChecksPassIff(r.streams, amount, frames, TotalShares(frames));
    ProportionalSplit(amount, frames, TotalShares(frames));
    PartIsBelowSum(Splits(amount, frames, TotalShares(frames)), k);
    PassingPacketBreaksTheCap(r, amount, frames, k);
  }

  /** As many units as there are shares, where a cap lies between the largest frame and all of them. */
  lemma WholePacketBreaksTheCap(frames: seq<MoneyFrame>, k: nat, limit: U64)
    requires 0 < TotalShares(frames) <= TWO63
    requires 0 < LargestFor(frames, k) <= Cap(limit) < SharesFor(frames, k)
    ensures !KeepsCap(frames)
  {
    var total := TotalShares(frames);
    LargestIsBelow(frames, k);
    forall i | 0 <= i < |frames| && frames[i].streamId == k
      ensures Floor(total, frames[i].shares, total) <= Cap(limit)
    {
      WholeShare(frames[i].shares, total);
    }
    PartsCoverShares(total, frames, total, k);
    OverfullPacketBreaksTheCap(frames, k, total, limit);
  }

  /** No cap equals the largest share, so its frame gets one unit more. */
  lemma LargerPacketBreaksTheCap(frames: seq<MoneyFrame>, k: nat, limit: U64)
    requires 0 < TotalShares(frames) <= TWO63 && (LargestFor(frames, k) >= 2 || TotalShares(frames) < TWO63)
    requires 0 < LargestFor(frames, k) < SharesFor(frames, k) && Cap(limit) == LargestFor(frames, k) + 1
    ensures !KeepsCap(frames)
  {
    LargestIsBelow(frames, k);
    var amount := OneMore(LargestFor(frames, k), TotalShares(frames));
    var j := LargestFrame(frames, k);
    PartsExceedShares(amount, frames, TotalShares(frames), j, 1);
    OverfullPacketBreaksTheCap(frames, k, amount, limit);
  }

  lemma HarmfulPacketBreaksTheCap(frames: seq<MoneyFrame>, k: nat)
    requires TotalShares(frames) <= TWO63 && !Harmless(frames, k)
    ensures !KeepsCap(frames)
  {
    LargestIsBelow(frames, k);
    var largest := LargestFor(frames, k);
    if largest == 1 && TotalShares(frames) == TWO63 {
      WholePacketBreaksTheCap(frames, k, 1);
    } else {
      var limit := LimitFor(largest);
      CapOfLimit(largest);
      if Cap(limit) == largest {
        WholePacketBreaksTheCap(frames, k, limit);
      } else {
        LargerPacketBreaksTheCap(frames, k, limit);
      }
    }
  }

  /** For every list of frames whose shares total at most 2^63: it keeps the cap whatever the receiver and
      the amount, if and only if each stream has at most one frame with shares, or exactly two of one share
      each where the total is 2^63. */
  lemma CapIsKept(frames: seq<MoneyFrame>)
    requires TotalShares(frames) <= TWO63
    ensures KeepsCap(frames) <==> AllHarmless(frames)
    ensures TotalShares(frames) < TWO63 ==> (KeepsCap(frames) <==> OnePaidFramePerStream(frames))
  {
    HarmlessIsOnePaid(frames);
    if AllHarmless(frames) {
      forall r: Receiver, amount: U64, minimum: U64
        | AllWithinCap(r.streams) && Begin(r, 0, amount, minimum, frames).Ok?
        ensures AllWithinCap(Settle(Begin(r, 0, amount, minimum, frames).value, 0).streams)
      {
        HarmlessPacketStaysWithinCap(r, amount, minimum, frames);
      }
    } else {
      var k: nat :| !Harmless(frames, k);
      HarmfulPacketBreaksTheCap(frames, k);
    }
  }

  /** An input: two frames for one stream are both checked against the same total. */
  lemma TwoFramesBreakTheCap()
    ensures var r := IDLE.(streams := map[1 := StreamIn(0, 100, true)]);
            var begun := Begin(r, 0, 200, 0, [MoneyFrame(1, 1), MoneyFrame(1, 1)]);
            && begun.Ok? && Settle(begun.value, 0).streams == map[1 := StreamIn(200, 100, true)]
            && !AllWithinCap(map[1 := StreamIn(200, 100, true)])
  {
    var s := StreamIn(0, 100, true);
    var r, f := IDLE.(streams := map[1 := s]), MoneyFrame(1, 1);
    ExactWhenFits(200, 1, 2, 200);
    assert Floor(200, 1, 2) == 100;
    ExactWhenFits(100, 101, 100, 10100);
    assert Allowance(s) == 101;
    assert TotalShares([f]) == 1 && TotalShares([f, f]) == 2 by { assert [f, f][1..] == [f]; }
    assert CheckFrames(r.streams, 200, [], 2) == None;
    assert CheckFrames(r.streams, 200, [f], 2) == None;
    assert CheckFrames(r.streams, 200, [f, f], 2) == None by { assert [f, f][1..] == [f]; }
    var part := Split(1, 100);
    assert Splits(200, [f], 2) == [part];
    assert Splits(200, [f, f], 2) == [part, part];
    var once, twice := map[1 := s.(received := 100)], map[1 := s.(received := 200)];
    assert AddAll(once, [part]) == AddAll(twice, []) == twice;
    assert AddTo(r.streams, part) == once && [part, part][1..] == [part];
    assert AddAll(r.streams, [part, part]) == AddAll(once, [part]);
    assert !WithinCap(twice[1]);
  }

  // ----- prepares that overlap

  ghost predicate OnlyOutcomes(events: seq<Event>) {
    forall i :: 0 <= i < |events| ==> events[i].Fulfilled? || events[i].Declined?
  }

  /** Whatever is settled or declined, in whatever order. */
  ghost predicate SettlesWithinCap(r: Receiver) {
    forall events: seq<Event>, last: Receiver {:trigger Run(r, events, last)} ::
      Run(r, events, last) && OnlyOutcomes(events) ==> AllWithinCap(last.streams)
  }

  /** A stream as it is once everything owed to it has been settled. */
  ghost function Final(r: Receiver, k: nat): StreamIn
    requires k in r.streams
  {
    r.streams[k].(received := Saturated(r.streams[k].received + Owed(r.pending, k)))
  }

  ghost predicate OwedWithinCap(r: Receiver) { forall k :: k in r.streams ==> WithinCap(Final(r, k)) }

  lemma SettleKeepsFinal(r: Receiver, id: nat, k: nat)
    requires id in r.pending && k in r.streams
    ensures k in Settle(r, id).streams && Final(Settle(r, id), k) == Final(r, k)
  {
    AddAllAdds(r.streams, r.pending[id].splits, k);
    OwedWithout(r.pending, id, k);
  }

  lemma DeclineLowersFinal(r: Receiver, id: nat, k: nat)
    requires id in r.pending && k in r.streams
    ensures Final(Decline(r, id), k).received <= Final(r, k).received
    ensures Final(Decline(r, id), k).receiveMax == Final(r, k).receiveMax
  {
    OwedWithout(r.pending, id, k);
  }

  lemma OutcomeKeepsOwed(r: Receiver, e: Event)
    requires OwedWithinCap(r) && Enabled(r, e) && (e.Fulfilled? || e.Declined?)
    ensures OwedWithinCap(Next(r, e))
  {
    if e.Fulfilled? { KeysStay(r.streams, r.pending[e.id].splits); }
    forall k | k in r.streams ensures k in Next(r, e).streams && WithinCap(Final(Next(r, e), k)) {
      assert WithinCap(Final(r, k));
      if e.Fulfilled? { SettleKeepsFinal(r, e.id, k); } else { DeclineLowersFinal(r, e.id, k); }
    }
  }

  lemma {:induction false} OutcomesStayWithinCap(r: Receiver, events: seq<Event>, last: Receiver)
    requires OwedWithinCap(r) && Run(r, events, last) && OnlyOutcomes(events)
    ensures AllWithinCap(last.streams)
    decreases |events|
  {
    if events != [] {
      OutcomeKeepsOwed(r, events[0]);
      OutcomesStayWithinCap(Next(r, events[0]), events[1..], last);
    } else {
      forall k | k in r.streams ensures WithinCap(r.streams[k]) { assert WithinCap(Final(r, k)); }
    }
  }

  /** Settling everything gives each stream all that is owed to it. */
  lemma {:induction false} SettleAll(r: Receiver, k: nat) returns (events: seq<Event>, last: Receiver)
    requires k in r.streams
    ensures Run(r, events, last) && OnlyOutcomes(events)
    ensures k in last.streams && last.streams[k] == Final(r, k)
    decreases |r.pending|
  {
    if r.pending == map[] {
      events, last := [], r;
    } else {
      var id :| id in r.pending;
      SettleKeepsFinal(r, id, k);
      assert |(r.pending - {id}).Keys| == |r.pending.Keys - {id}|;
      var more;
      more, last := SettleAll(Settle(r, id), k);
      events := [Fulfilled(id)] + more;
      assert events[1..] == more;
    }
  }

  /** Every order of settling what is pending keeps the cap if and only if each stream has room for all
      that is owed to it. */
  lemma OverlapIsSafe(r: Receiver)
    ensures SettlesWithinCap(r) <==> OwedWithinCap(r)
  {
    if OwedWithinCap(r) {
      forall events: seq<Event>, last: Receiver | Run(r, events, last) && OnlyOutcomes(events)
        ensures AllWithinCap(last.streams)
      {
        OutcomesStayWithinCap(r, events, last);
      }
    }
    if SettlesWithinCap(r) {
      forall k | k in r.streams ensures WithinCap(Final(r, k)) {
        var events, last := SettleAll(r, k);
        assert WithinCap(last.streams[k]);
      }
    }
  }

  // ----- whole runs with overlapping prepares

  /** What is pending was split among streams that exist. */
  ghost predicate SplitsAreKnown(r: Receiver) {
    forall id, k :: id in r.pending && k !in r.streams ==> PartFor(r.pending[id].splits, k) == 0
  }

  /** Can be checked before a prepare is held: its parts fit on top of what is received and owed. */
  ghost predicate HasRoom(r: Receiver, amount: U64, frames: seq<MoneyFrame>)
    requires TotalShares(frames) <= MAX && (frames != [] ==> TotalShares(frames) > 0)
  {
    forall k :: k in r.streams ==>
      WithinCap(r.streams[k].(received :=
        Saturated(r.streams[k].received + Owed(r.pending, k) + PartFor(SplitsOf(amount, frames), k))))
  }

  ghost predicate Roomy(r: Receiver, e: Event) {
    Accepts(r, e) ==>
      && TotalShares(e.frames) <= MAX && (e.frames != [] ==> TotalShares(e.frames) > 0)
      && HasRoom(r, e.amount, e.frames)
  }

  /** Holding a prepare keeps the promise if and only if there is room for its parts. */
  lemma HoldingIsSafe(r: Receiver, e: Event)
    requires Enabled(r, e) && Accepts(r, e)
    ensures OwedWithinCap(Next(r, e)) <==> Roomy(r, e)
  {
    CheckedFramesExist(r.streams, e.amount, e.frames, TotalShares(e.frames));
    var n, parts := Next(r, e), SplitsOf(e.amount, e.frames);
    forall k | k in r.streams
      ensures Final(n, k) == r.streams[k].(received :=
                Saturated(r.streams[k].received + Owed(r.pending, k) + PartFor(parts, k)))
    {
      OwedWith(r.pending, e.id, Pending(e.amount, parts), k);
    }
  }

  lemma {:induction false} NoPartForOthers(amount: U64, frames: seq<MoneyFrame>, total: U64, k: nat)
    requires total > 0 && forall i :: 0 <= i < |frames| ==> frames[i].streamId != k
    ensures PartFor(Splits(amount, frames, total), k) == 0
  {
    if frames != [] {
      forall i | 0 <= i < |frames| - 1 ensures frames[1..][i] == frames[i + 1] {}
      NoPartForOthers(amount, frames[1..], total, k);
      assert Splits(amount, frames, total)[1..] == Splits(amount, frames[1..], total);
    }
  }

  lemma StepKeepsKnown(r: Receiver, e: Event)
    requires SplitsAreKnown(r) && Enabled(r, e)
    ensures SplitsAreKnown(Next(r, e))
  {
    if e.Fulfilled? { KeysStay(r.streams, r.pending[e.id].splits); }
    if Accepts(r, e) && e.frames != [] {
      CheckedFramesExist(r.streams, e.amount, e.frames, TotalShares(e.frames));
      forall k | k !in r.streams ensures PartFor(Next(r, e).pending[e.id].splits, k) == 0 {
        NoPartForOthers(e.amount, e.frames, TotalShares(e.frames), k);
      }
    }
  }

  lemma {:induction false} NothingOwed(m: map<nat, nat>)
    requires forall id :: id in m ==> m[id] == 0
    ensures SumMap(m) == 0
    decreases |m|
  {
    if m != map[] {
      var id :| id in m && SumMap(m) == m[id] + SumMap(m - {id});
      NothingOwed(m - {id});
    }
  }

  /** Opening or closing a stream and raising a limit keep the promise. */
  lemma LimitEventKeepsOwed(r: Receiver, e: Event)
    requires OwedWithinCap(r) && SplitsAreKnown(r) && Enabled(r, e) && (e.Opened? || e.Closed? || e.Raised?)
    ensures OwedWithinCap(Next(r, e))
  {
    var n := Next(r, e);
    forall k | k in n.streams ensures WithinCap(Final(n, k)) {
      if k in r.streams { assert WithinCap(Final(r, k)); } else { NothingOwed(Parts(r.pending, k)); }
    }
  }

  lemma StepIsSafe(r: Receiver, e: Event)
    requires OwedWithinCap(r) && SplitsAreKnown(r) && Enabled(r, e)
    ensures OwedWithinCap(Next(r, e)) <==> Roomy(r, e)
  {
    if Accepts(r, e) {
      HoldingIsSafe(r, e);
    } else if e.Fulfilled? || e.Declined? {
      OutcomeKeepsOwed(r, e);
    } else if !e.Prepared? {
      LimitEventKeepsOwed(r, e);
    }
  }

  ghost predicate RoomyRun(r: Receiver, events: seq<Event>)
    decreases |events|
  {
    events != [] && Enabled(r, events[0]) ==> Roomy(r, events[0]) && RoomyRun(Next(r, events[0]), events[1..])
  }

  ghost predicate AlwaysSettlesWithinCap(r: Receiver, events: seq<Event>)
    decreases |events|
  {
    && SettlesWithinCap(r)
    && (events != [] && Enabled(r, events[0]) ==> AlwaysSettlesWithinCap(Next(r, events[0]), events[1..]))
  }

  lemma {:induction false} RunIsSafe(r: Receiver, events: seq<Event>, last: Receiver)
    requires OwedWithinCap(r) && SplitsAreKnown(r) && Run(r, events, last)
    ensures AlwaysSettlesWithinCap(r, events) <==> RoomyRun(r, events)
    decreases |events|
  {
    OverlapIsSafe(r);
    if events != [] {
      StepIsSafe(r, events[0]);
      StepKeepsKnown(r, events[0]);
      OverlapIsSafe(Next(r, events[0]));
      if Roomy(r, events[0]) { RunIsSafe(Next(r, events[0]), events[1..], last); }
    }
  }

  /** Over every run with overlapping prepares: the cap is kept, at every moment and in whatever order the
      pending prepares are settled, if and only if each prepare that was held had room. */
  lemma OverlappingRunIsSafe(events: seq<Event>, last: Receiver)
    requires Run(IDLE, events, last)
    ensures AlwaysSettlesWithinCap(IDLE, events) <==> RoomyRun(IDLE, events)
  {
    RunIsSafe(IDLE, events, last);
  }

  /** The states of a run in which two prepares of 100 units are held for a stream with a limit of 100, and
      then settled. */
  ghost function Overlap(i: nat): Receiver {
    var p := Pending(100, [Split(1, 100)]);
    if i == 0 then Receiver(0, 0, map[1 := StreamIn(0, 100, true)], map[], 0)
    else if i == 1 then Receiver(0, 100, map[1 := StreamIn(0, 100, true)], map[1 := p], 0)
    else if i == 2 then Receiver(0, 200, map[1 := StreamIn(0, 100, true)], map[1 := p, 2 := p], 0)
    else if i == 3 then Receiver(100, 100, map[1 := StreamIn(100, 100, true)], map[2 := p], 100)
    else Receiver(200, 0, map[1 := StreamIn(200, 100, true)], map[], 200)
  }

  lemma PreparePasses(r: Receiver, id: nat, amount: U64, frames: seq<MoneyFrame>)
    requires id !in r.pending && TotalShares(frames) <= MAX && (frames != [] ==> TotalShares(frames) > 0)
    requires CheckFrames(r.streams, amount, frames, TotalShares(frames)) == None && HoldIncoming(r, amount).Ok?
    ensures Next(r, Prepared(id, amount, 0, frames)) ==
            r.(hold := HoldIncoming(r, amount).value,
               pending := r.pending[id := Pending(amount, SplitsOf(amount, frames))])
  {}

  lemma OverlapHolds(i: nat)
    requires i < 2
    ensures Enabled(Overlap(i), Prepared(i + 1, 100, 0, [MoneyFrame(1, 1)]))
    ensures Next(Overlap(i), Prepared(i + 1, 100, 0, [MoneyFrame(1, 1)])) == Overlap(i + 1)
  {
    OneFrameOfHundred(StreamIn(0, 100, true), MoneyFrame(1, 1));
    PreparePasses(Overlap(i), i + 1, 100, [MoneyFrame(1, 1)]);
  }

  lemma OverlapSettles(i: nat)
    requires i < 2
    ensures Enabled(Overlap(i + 2), Fulfilled(i + 1)) && Settle(Overlap(i + 2), i + 1) == Overlap(i + 3)
  {
    AddOne(Overlap(i + 2).streams, Split(1, 100));
    assert Overlap(i + 2).pending - {i + 1} == Overlap(i + 3).pending;
  }

  /** An input: a second prepare that arrives while the first is suspended is checked against the same
      total, too. */
  lemma OverlapBreaksTheCap()
    ensures var events := [Prepared(1, 100, 0, [MoneyFrame(1, 1)]), Prepared(2, 100, 0, [MoneyFrame(1, 1)]),
                           Fulfilled(1), Fulfilled(2)];
            Run(Overlap(0), events, Overlap(4)) && AllWithinCap(Overlap(0).streams) && !AllWithinCap(Overlap(4).streams)
  {
    var e1, e2 := Prepared(1, 100, 0, [MoneyFrame(1, 1)]), Prepared(2, 100, 0, [MoneyFrame(1, 1)]);
    OverlapHolds(0);
    OverlapHolds(1);
    OverlapSettles(0);
    OverlapSettles(1);
    assert Run(Overlap(4), [], Overlap(4));
    assert Run(Overlap(3), [Fulfilled(2)], Overlap(4));
    assert Run(Overlap(2), [Fulfilled(1), Fulfilled(2)], Overlap(4));
    assert Run(Overlap(1), [e2, Fulfilled(1), Fulfilled(2)], Overlap(4));
    assert Run(Overlap(0), [e1, e2, Fulfilled(1), Fulfilled(2)], Overlap(4));
    assert !WithinCap(Overlap(4).streams[1]);
  }

  lemma OneFrameOfHundred(s: StreamIn, f: MoneyFrame)
    requires s == StreamIn(0, 100, true) && f == MoneyFrame(1, 1)
    ensures TotalShares([f]) == 1 && CheckFrames(map[1 := s], 100, [f], 1) == None
    ensures SplitsOf(100, [f]) == [Split(1, 100)]
  {
    ExactWhenFits(100, 1, 1, 100);
    ExactWhenFits(100, 101, 100, 10100);
    assert Floor(100, 1, 1) == 100 && Allowance(s) == 101;
    assert [f][1..] == [];
    assert CheckFrames(map[1 := s], 100, [], 1) == None;
    var none: seq<MoneyFrame> := [];
    assert Splits(100, none, 1) == [];
  }

  lemma AddOne(streams: map<nat, StreamIn>, s: Split)
    ensures AddAll(streams, [s]) == AddTo(streams, s)
  {}

  // ----- what limits and closing do

  /** A limit is raised to what an open stream asks for unless it lies below the old limit or what was
      received; nothing else moves it, and only closing closes. */
  lemma LimitsOnlyRise(r: Receiver, e: Event, k: nat)
    requires Enabled(r, e) && k in r.streams
    ensures k in Next(r, e).streams
    ensures var s, n := r.streams[k], Next(r, e).streams[k];
            && n.receiveMax == (if e.Raised? && e.streamId == k && s.open &&
                                   e.receiveMax >= Max(s.received, s.receiveMax)
                                then e.receiveMax else s.receiveMax)
            && n.open == (s.open && e != Closed(k))
  {
    if e.Fulfilled? { AddAllAdds(r.streams, r.pending[e.id].splits, k); }
  }

  /** No limit was raised, and nothing is received or pending. */
  ghost predicate Untouched(r: Receiver) {
    && (forall k :: k in r.streams ==> r.streams[k].received == 0 && r.streams[k].receiveMax == 0)
    && (forall id, k :: id in r.pending ==> PartFor(r.pending[id].splits, k) == 0)
  }

  lemma {:induction false} ZeroParts(amount: U64, frames: seq<MoneyFrame>, total: U64, k: nat)
    requires total > 0 && forall i :: 0 <= i < |frames| ==> Floor(amount, frames[i].shares, total) == 0
    ensures PartFor(Splits(amount, frames, total), k) == 0
  {
    if frames != [] {
      forall i | 0 <= i < |frames| - 1 ensures frames[1..][i] == frames[i + 1] {}
      ZeroParts(amount, frames[1..], total, k);
      assert Splits(amount, frames, total)[1..] == Splits(amount, frames[1..], total);
    }
  }

  lemma SettleStaysUntouched(r: Receiver, id: nat)
    requires Untouched(r) && id in r.pending
    ensures Untouched(Settle(r, id))
  {
    KeysStay(r.streams, r.pending[id].splits);
    forall k | k in r.streams ensures AddAll(r.streams, r.pending[id].splits)[k] == r.streams[k] {
      AddAllAdds(r.streams, r.pending[id].splits, k);
    }
  }

  /** Without a limit there is room for parts of nothing only. */
  lemma NoRoomNoPart(r: Receiver, amount: U64, frames: seq<MoneyFrame>, total: U64, k: nat)
    requires Untouched(r) && total > 0 && FramesPass(r.streams, amount, frames, total)
    ensures PartFor(Splits(amount, frames, total), k) == 0
  {
    forall i | 0 <= i < |frames| ensures Floor(amount, frames[i].shares, total) == 0 {
      assert FramePasses(r.streams, amount, frames[i], total);
    }
    ZeroParts(amount, frames, total, k);
  }

  lemma HoldStaysUntouched(r: Receiver, e: Event)
    requires Untouched(r) && Enabled(r, e) && Accepts(r, e)
    ensures Untouched(Next(r, e))
  {
    AcceptedIff(r, e.id, e.amount, e.minimum, e.frames);
    if e.frames != [] {
      forall k: nat ensures PartFor(Splits(e.amount, e.frames, TotalShares(e.frames)), k) == 0 {
        NoRoomNoPart(r, e.amount, e.frames, TotalShares(e.frames), k);
      }
    }
  }

  lemma StepStaysUntouched(r: Receiver, e: Event)
    requires Untouched(r) && Enabled(r, e) && !e.Raised?
    ensures Untouched(Next(r, e))
  {
    if e.Fulfilled? {
      SettleStaysUntouched(r, e.id);
    } else if Accepts(r, e) {
      HoldStaysUntouched(r, e);
    }
  }

  lemma {:induction false} RunStaysUntouched(r: Receiver, events: seq<Event>, last: Receiver)
    requires Untouched(r) && Run(r, events, last) && forall i :: 0 <= i < |events| ==> !events[i].Raised?
    ensures Untouched(last)
    decreases |events|
  {
    if events != [] {
      StepStaysUntouched(r, events[0]);
      forall i | 0 <= i < |events| - 1 ensures !events[1..][i].Raised? { assert events[1..][i] == events[i + 1]; }
      RunStaysUntouched(Next(r, events[0]), events[1..], last);
    }
  }

  /** No stream receives anything before its limit is raised. */
  lemma NothingWithoutLimit(events: seq<Event>, last: Receiver, k: nat)
    requires Run(IDLE, events, last) && k in last.streams && forall i :: 0 <= i < |events| ==> !events[i].Raised?
    ensures last.streams[k].received == 0
  {
    RunStaysUntouched(IDLE, events, last);
  }

  lemma ClosedStepBringsNothing(r: Receiver, e: Event, k: nat)
    requires Enabled(r, e) && k in r.streams && !r.streams[k].open
    ensures k in Next(r, e).streams && Final(Next(r, e), k).received <= Final(r, k).received
  {
    if Accepts(r, e) {
      AcceptedIff(r, e.id, e.amount, e.minimum, e.frames);
      var parts := SplitsOf(e.amount, e.frames);
      if e.frames != [] {
        forall i | 0 <= i < |e.frames| ensures e.frames[i].streamId != k {
          assert FramePasses(r.streams, e.amount, e.frames[i], TotalShares(e.frames));
        }
        NoPartForOthers(e.amount, e.frames, TotalShares(e.frames), k);
      }
      OwedWith(r.pending, e.id, Pending(e.amount, parts), k);
    } else if e.Fulfilled? {
      SettleKeepsFinal(r, e.id, k);
    } else if e.Declined? {
      DeclineLowersFinal(r, e.id, k);
    }
  }

  /** A closed stream stays closed and gets at most what is pending for it already. */
  lemma {:induction false} ClosedGetsNothingNew(r: Receiver, events: seq<Event>, last: Receiver, k: nat)
    requires Run(r, events, last) && k in r.streams && !r.streams[k].open
    ensures k in last.streams && !last.streams[k].open
    ensures Final(last, k).received <= Final(r, k).received
    decreases |events|
  {
    if events != [] {
      LimitsOnlyRise(r, events[0], k);
      ClosedStepBringsNothing(r, events[0], k);
      ClosedGetsNothingNew(Next(r, events[0]), events[1..], last, k);
    }
  }

  // ----- a first payment

  lemma WholePart(k: nat, amount: U64)
    ensures TotalShares([MoneyFrame(k, 1)]) == 1 && Floor(amount, 1, 1) == amount
    ensures Splits(amount, [MoneyFrame(k, 1)], 1) == [Split(k, amount)]
  {
    WholeShareOfOne(amount);
    assert [MoneyFrame(k, 1)][1..] == [];
    var none: seq<MoneyFrame> := [];
    assert Splits(amount, none, 1) == [];
  }

  lemma WholeShareOfOne(amount: U64)
    ensures Floor(amount, 1, 1) == amount
  {
    ExactWhenFits(amount, 1, 1, amount);
  }

  /** A stream with a limit takes a payment for which there is room, and has it then. */
  lemma PaymentIsTaken(r: Receiver, id: nat, k: nat, amount: U64) returns (last: Receiver)
    requires id !in r.pending && k in r.streams && r.streams[k].open
    requires amount <= Room(r.streams[k]) && HoldFits(r, amount)
    ensures Run(r, [Prepared(id, amount, amount, [MoneyFrame(k, 1)]), Fulfilled(id)], last)
    ensures k in last.streams && last.streams[k].received == Saturated(r.streams[k].received + amount)
  {
    var e := Prepared(id, amount, amount, [MoneyFrame(k, 1)]);
    WholePart(k, amount);
    assert FramePasses(r.streams, amount, [MoneyFrame(k, 1)][0], 1);
    AcceptedIff(r, id, amount, amount, [MoneyFrame(k, 1)]);
    var r1 := Next(r, e);
    last := Settle(r1, id);
    AddOne(r.streams, Split(k, amount));
    TwoEvents(r, e, Fulfilled(id));
  }

  lemma TwoEvents(r: Receiver, e: Event, f: Event)
    requires Enabled(r, e) && Enabled(Next(r, e), f)
    ensures Run(r, [e, f], Next(Next(r, e), f))
  {
    var last := Next(Next(r, e), f);
    assert [e, f][1..] == [f] && [f][1..] == [];
    assert Run(last, [], last);
    assert Run(Next(r, e), [f], last);
  }

  /** A stream is opened and given a limit, and then takes any amount up to it. */
  lemma NewStreamTakesPayment(r: Receiver, id: nat, k: nat, limit: U64, amount: U64) returns (last: Receiver)
    requires id !in r.pending && k !in r.streams && amount <= limit && HoldFits(r, amount)
    ensures Run(r, [Opened(k), Raised(k, limit)] +
                   [Prepared(id, amount, amount, [MoneyFrame(k, 1)]), Fulfilled(id)], last)
    ensures k in last.streams && last.streams[k].received == amount
  {
    var r1 := Next(r, Opened(k));
    var r2 := Next(r1, Raised(k, limit));
    TwoEvents(r, Opened(k), Raised(k, limit));
    last := PaymentIsTaken(r2, id, k, amount);
    RunThenRun(r, [Opened(k), Raised(k, limit)], r2,
               [Prepared(id, amount, amount, [MoneyFrame(k, 1)]), Fulfilled(id)], last);
  }
}
