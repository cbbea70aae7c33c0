/** Loading money from several streams into one packet. */
module PacketAssembly {
  import opened Arith
  import opened HoldLedgers
  import opened Long64
  import opened Maps
  import opened MultiplyDivide
  import opened Rationals
  import opened Sequences
  import opened Wrappers

  datatype MoneyFrame = MoneyFrame(streamId: nat, shares: U64)

  datatype View = View(ledger: Ledger, remote: Remote)

  /** The most one packet may carry: the congestion test amount, and for rates above one what
      still converts into 64 bits. */
  function PacketLimit(testMaximum: U64, rate: Rational): U64
    requires rate.a > 0
  {
    if GreaterThanOne(rate) then Min(testMaximum, MultiplyByLong(Fraction(rate.b, rate.a), MAX)) else testMaximum
  }

  lemma ClampIs(rate: Rational, clamp: U64)
    requires GreaterThanOne(rate) && rate.a <= TWO63 && clamp == MultiplyByLong(Fraction(rate.b, rate.a), MAX)
    ensures clamp * rate.a <= MAX * rate.b < (clamp + 1) * rate.a
  {
    assert MAX * rate.b < TWO64 * rate.a;
    ConversionFloors(Fraction(rate.b, rate.a), MAX);
    assert (clamp + 1) * rate.a == clamp * rate.a + rate.a;
  }

  lemma BelowClamp(amount: nat, clamp: nat, a: nat, n: nat)
    requires clamp * a <= n < (clamp + 1) * a
    ensures amount <= clamp <==> amount * a <= n
  {
    if amount <= clamp { MulMono(amount, clamp, a); } else { MulMono(clamp + 1, amount, a); }
  }

  lemma AtMostOneFits(rate: Rational, amount: U64)
    requires !GreaterThanOne(rate)
    ensures amount * rate.a <= MAX * rate.b
  {
    MulMono(rate.a, rate.b, amount);
    MulMono(amount, MAX, rate.b);
  }

  /** A packet never exceeds the congestion test amount. It may carry all of it where its converted value
      fits in 64 bits, and otherwise the largest amount for which that holds. */
  lemma PacketLimitIs(testMaximum: U64, rate: Rational)
    requires rate.a > 0
    ensures PacketLimit(testMaximum, rate) <= testMaximum
    ensures rate.a <= TWO63 && testMaximum * rate.a <= MAX * rate.b ==> PacketLimit(testMaximum, rate) == testMaximum
    ensures rate.a <= TWO63 && testMaximum * rate.a > MAX * rate.b ==>
              PacketLimit(testMaximum, rate) * rate.a <= MAX * rate.b < (PacketLimit(testMaximum, rate) + 1) * rate.a
  {
    if GreaterThanOne(rate) {
      if rate.a <= TWO63 {
        var clamp := MultiplyByLong(Fraction(rate.b, rate.a), MAX);
        ClampIs(rate, clamp);
        BelowClamp(testMaximum, clamp, rate.a, MAX * rate.b);
      }
    } else {
      AtMostOneFits(rate, testMaximum);
    }
  }

  /** The source amount that fills what the receiver says it can still take. */
  function MaxSource(r: Remote, rate: Rational): U64
    requires rate.a > 0
  {
    MultiplyByLongCeil(Fraction(rate.b, rate.a), CheckedSubtract(r.receiveMax, r.received).value)
  }

  function Share(v: View, limit: U64, rate: Rational): (share: U64)
    requires rate.a > 0
    ensures share <= limit && share <= Available(v.ledger)
  {
    if v.remote.sentEnd then 0
    else
      var amount := Min(Available(v.ledger), limit);
      if MaxSource(v.remote, rate) < amount then MaxSource(v.remote, rate) else amount
  }

  /** Streams are served in order, each from what the earlier ones left. */
  function Shares(views: seq<View>, limit: U64, rate: Rational): (shares: seq<U64>)
    requires rate.a > 0
    ensures |shares| == |views|
  {
    if views == [] then [] else
      var share := Share(views[0], limit, rate);
      [share] + Shares(views[1..], limit - share, rate)
  }

  /** The shares of a packet together stay within its limit. */
  lemma {:induction false} SharesStayWithin(views: seq<View>, limit: U64, rate: Rational)
    requires rate.a > 0
    ensures SumSeq(Shares(views, limit, rate)) <= limit
  {
    if views != [] {
      var share := Share(views[0], limit, rate);
      SharesStayWithin(views[1..], limit - share, rate);
      assert Shares(views, limit, rate)[1..] == Shares(views[1..], limit - share, rate);
    }
  }

  /** No stream gives more than it has, nor more than its receiver can take, and the packet
      is filled: either every stream gives all it can, or the limit is used up. */
  lemma {:induction false} SharesAreMaximal(views: seq<View>, limit: U64, rate: Rational, i: nat)
    requires rate.a > 0 && i < |views|
    ensures var shares := Shares(views, limit, rate);
            var most := if views[i].remote.sentEnd then 0
                        else Min(Available(views[i].ledger), MaxSource(views[i].remote, rate));
            shares[i] <= most && (shares[i] == most || SumSeq(shares[..i + 1]) == limit)
  {
    var share := Share(views[0], limit, rate);
    var rest := Shares(views[1..], limit - share, rate);
    var shares := Shares(views, limit, rate);
    if i > 0 {
      SharesAreMaximal(views[1..], limit - share, rate, i - 1);
      assert shares[..i + 1][1..] == rest[..i];
    } else {
      assert shares[..1] == [share] && [share][1..] == [];
    }
  }

  lemma {:induction false} NothingLeft(views: seq<View>, rate: Rational, i: nat)
    requires rate.a > 0 && i < |views|
    ensures Shares(views, 0, rate)[i] == 0
  {
    if i > 0 { NothingLeft(views[1..], rate, i - 1); }
  }

  ghost function FrameOf(id: nat, share: U64): seq<MoneyFrame> {
    if share > 0 then [MoneyFrame(id, share)] else []
  }

  ghost function Frames(ids: seq<nat>, shares: seq<U64>): seq<MoneyFrame>
    requires |ids| == |shares|
  {
    if ids == [] then [] else FrameOf(ids[0], shares[0]) + Frames(ids[1..], shares[1..])
  }

  lemma {:induction false} FramesConcat(ids: seq<nat>, shares: seq<U64>, ids1: seq<nat>, shares1: seq<U64>)
    requires |ids| == |shares| && |ids1| == |shares1|
    ensures Frames(ids + ids1, shares + shares1) == Frames(ids, shares) + Frames(ids1, shares1)
  {
    var allIds, allShares := ids + ids1, shares + shares1;
    if ids == [] {
      assert allIds == ids1 && allShares == shares1;
    } else {
      FramesConcat(ids[1..], shares[1..], ids1, shares1);
      assert allIds[1..] == ids[1..] + ids1 && allShares[1..] == shares[1..] + shares1;
      Associate(FrameOf(ids[0], shares[0]), Frames(ids[1..], shares[1..]), Frames(ids1, shares1));
    }
  }

  lemma FramesAppend(ids: seq<nat>, shares: seq<U64>, id: nat, share: U64)
    requires |ids| == |shares|
    ensures Frames(ids + [id], shares + [share]) == Frames(ids, shares) + FrameOf(id, share)
  {
    FramesConcat(ids, shares, [id], [share]);
    assert [id][1..] == [] && [share][1..] == [];
    assert FrameOf(id, share) + [] == FrameOf(id, share);
  }

  lemma {:induction false} NoFrames(ids: seq<nat>, shares: seq<U64>)
    requires |ids| == |shares| && forall i :: 0 <= i < |shares| ==> shares[i] == 0
    ensures Frames(ids, shares) == [] && SumSeq(shares) == 0
  {
    if ids != [] { NoFrames(ids[1..], shares[1..]); }
  }

  /** The unbounded sum of all shares. */
  ghost function TotalShares(frames: seq<MoneyFrame>): nat {
    if frames == [] then 0 else frames[0].shares + TotalShares(frames[1..])
  }

  /** All shares that a packet's frames give one stream. */
  ghost function SharesFor(frames: seq<MoneyFrame>, k: nat): nat {
    if frames == [] then 0
    else (if frames[0].streamId == k then frames[0].shares else 0) + SharesFor(frames[1..], k)
  }

  /** The frames name the streams that gave the shares. */
  lemma {:induction false} FramesNameStreams(ids: seq<nat>, shares: seq<U64>, k: nat)
    requires |ids| == |shares| && forall i, j :: 0 <= i < j < |ids| ==> ids[i] != ids[j]
    ensures k !in ids ==> SharesFor(Frames(ids, shares), k) == 0
    ensures forall i :: 0 <= i < |ids| && ids[i] == k ==> SharesFor(Frames(ids, shares), k) == shares[i]
  {
    if ids != [] {
      FramesNameStreams(ids[1..], shares[1..], k);
      var later := Frames(ids[1..], shares[1..]);
      assert FrameOf(ids[0], shares[0]) + later ==
             if shares[0] > 0 then [MoneyFrame(ids[0], shares[0])] + later else later;
      assert ([MoneyFrame(ids[0], shares[0])] + later)[1..] == later;
      forall i | 0 < i < |ids| ensures ids[i] == ids[1..][i - 1] && shares[i] == shares[1..][i - 1] {}
    }
  }

  /** The frames of a packet carry the whole amount. */
  lemma {:induction false} FramesCarryShares(ids: seq<nat>, shares: seq<U64>)
    requires |ids| == |shares|
    ensures TotalShares(Frames(ids, shares)) == SumSeq(shares)
  {
    if ids != [] {
      FramesCarryShares(ids[1..], shares[1..]);
      var later := Frames(ids[1..], shares[1..]);
      assert FrameOf(ids[0], shares[0]) + later ==
             if shares[0] > 0 then [MoneyFrame(ids[0], shares[0])] + later else later;
    }
  }

  // ----- the loop over the stream objects

  ghost function IdsOf(streams: seq<MoneyStream>): (ids: seq<nat>)
    ensures |ids| == |streams|
  {
    seq(|streams|, i requires 0 <= i < |streams| => streams[i].id)
  }

  ghost function ViewsOf(streams: seq<MoneyStream>): (views: seq<View>)
    reads streams
    ensures |views| == |streams|
  {
    seq(|streams|, i requires 0 <= i < |streams| reads streams => View(streams[i].State(), streams[i].remote))
  }

  /** Every stream holds its share under the packet's sequence number. */
  ghost function HoldAll(views: seq<View>, sequence: nat, shares: seq<U64>): (after: seq<Ledger>)
    requires |views| == |shares|
    ensures |after| == |views|
  {
    seq(|views|, i requires 0 <= i < |views| => Hold(views[i].ledger, sequence, Some(shares[i])))
  }

  /** The first i streams hold their shares already. */
  ghost predicate Loaded(streams: seq<MoneyStream>, views: seq<View>, after: seq<Ledger>, i: int)
    requires |streams| == |views| == |after|
    reads streams
  {
    forall j :: 0 <= j < |streams| ==>
      && streams[j].State() == (if j < i then after[j] else views[j].ledger)
      && streams[j].remote == views[j].remote
  }

  method LoadStream(stream: MoneyStream, sequence: nat, limit: U64, rate: Rational) returns (share: U64)
    requires rate.a > 0
    modifies stream`outgoingHeldAmount, stream`holds
    ensures share == Share(View(old(stream.State()), stream.remote), limit, rate)
    ensures stream.State() == Hold(old(stream.State()), sequence, Some(share))
  {
    if stream.remote.sentEnd {
      return 0;
    }
    share := Min(stream.GetAmountAvailableToSend(), limit);
    var maxSourceAmount := MaxSource(stream.remote, rate);
    if maxSourceAmount < share {
      share := maxSourceAmount;
    }
    if share > 0 {
      var held := stream.HoldOutgoing(sequence, Some(share));
    }
  }

  method LoadNext(streams: seq<MoneyStream>, i: nat, sequence: nat, limit: U64, rate: Rational,
                  ghost views: seq<View>, ghost packetLimit: U64, ghost shares: seq<U64>, ghost after: seq<Ledger>)
    returns (share: U64)
    requires rate.a > 0 && i < |streams| == |views| && shares == Shares(views, packetLimit, rate)
    requires after == HoldAll(views, sequence, shares)
    requires limit + SumSeq(shares[..i]) == packetLimit
    requires forall j, k :: 0 <= j < k < |streams| ==> streams[j] != streams[k]
    requires Loaded(streams, views, after, i)
    modifies streams[i]
    ensures share == shares[i] <= limit
    ensures Loaded(streams, views, after, i + 1)
  {
    SharesFrom(views, packetLimit, rate, i, limit);
    share := LoadStream(streams[i], sequence, limit, rate);
  }

  /** The first i shares are in the packet, and the rest of its limit is left. */
  ghost predicate SoFar(ids: seq<nat>, shares: seq<U64>, limit: U64, i: int,
                        frames: seq<MoneyFrame>, amount: nat, left: nat) {
    && 0 <= i <= |ids| == |shares|
    && frames == Frames(ids[..i], shares[..i])
    && amount == SumSeq(shares[..i]) && amount + left == limit
  }

  lemma NextFrame(ids: seq<nat>, shares: seq<U64>, limit: U64, i: nat,
                  frames: seq<MoneyFrame>, amount: nat, left: nat)
    requires SoFar(ids, shares, limit, i, frames, amount, left) && i < |ids| && shares[i] <= left
    ensures if shares[i] > 0
            then SoFar(ids, shares, limit, i + 1, frames + [MoneyFrame(ids[i], shares[i])], amount + shares[i],
                       left - shares[i])
            else SoFar(ids, shares, limit, i + 1, frames, amount, left)
  {
    PrefixStep(ids, shares, i);
  }

  /** The loop of the source over the connection's streams. */
  method LoadMoney(streams: seq<MoneyStream>, sequence: nat, testMaximum: U64, rate: Rational)
    returns (frames: seq<MoneyFrame>, amountToSend: U64)
    requires rate.a > 0
    requires forall i, j :: 0 <= i < j < |streams| ==> streams[i] != streams[j]
    modifies streams
    ensures var views := old(ViewsOf(streams));
            var shares := Shares(views, PacketLimit(testMaximum, rate), rate);
            && frames == Frames(IdsOf(streams), shares)
            && amountToSend == SumSeq(shares) <= testMaximum
            && Loaded(streams, views, HoldAll(views, sequence, shares), |streams|)
  {
    var maxAmountFromNextStream := PacketLimit(testMaximum, rate);
    ghost var views, ids, limit := ViewsOf(streams), IdsOf(streams), maxAmountFromNextStream;
    ghost var shares := Shares(views, limit, rate);
    ghost var after := HoldAll(views, sequence, shares);
    frames, amountToSend := [], 0;
    var i := 0;
    while i < |streams| && maxAmountFromNextStream != 0
      invariant 0 <= i <= |streams| && Loaded(streams, views, after, i)
      invariant SoFar(ids, shares, limit, i, frames, amountToSend, maxAmountFromNextStream)
    {
      var share := LoadNext(streams, i, sequence, maxAmountFromNextStream, rate, views, limit, shares, after);
      NextFrame(ids, shares, limit, i, frames, amountToSend, maxAmountFromNextStream);
      if share > 0 {
        frames := frames + [MoneyFrame(streams[i].id, share)];
        amountToSend := Add(amountToSend, share);
        maxAmountFromNextStream := Sub(maxAmountFromNextStream, share);
      }
      i := i + 1;
    }
    PacketLimitIs(testMaximum, rate);
    NothingAfter(views, ids, shares, limit, rate, i);
    NothingHeldAfter(streams, views, shares, sequence, i);
  }

  /** What the i-th stream is offered is the limit minus the earlier shares. */
  lemma {:induction false} SharesFrom(views: seq<View>, limit: U64, rate: Rational, i: nat, left: U64)
    requires rate.a > 0 && i < |views|
    requires left + SumSeq(Shares(views, limit, rate)[..i]) == limit
    ensures Shares(views, limit, rate)[i] == Share(views[i], left, rate)
    ensures Shares(views, limit, rate)[i..] == Shares(views[i..], left, rate)
  {
    var shares := Shares(views, limit, rate);
    if i > 0 {
      assert shares[..i][1..] == shares[1..][..i - 1] && shares[..i][0] == shares[0];
      SharesFrom(views[1..], limit - shares[0], rate, i - 1, left);
      assert views[1..][i - 1..] == views[i..] && shares[1..][i - 1..] == shares[i..];
    }
  }

  lemma NothingHeldAfter(streams: seq<MoneyStream>, views: seq<View>, shares: seq<U64>, sequence: nat, i: nat)
    requires i <= |streams| == |views| == |shares|
    requires forall j :: i <= j < |shares| ==> shares[j] == 0
    requires Loaded(streams, views, HoldAll(views, sequence, shares), i)
    ensures Loaded(streams, views, HoldAll(views, sequence, shares), |streams|)
  {}

  lemma PrefixStep(ids: seq<nat>, shares: seq<U64>, i: nat)
    requires i < |ids| == |shares|
    ensures SumSeq(shares[..i + 1]) == SumSeq(shares[..i]) + shares[i]
    ensures Frames(ids[..i + 1], shares[..i + 1]) ==
            if shares[i] > 0 then Frames(ids[..i], shares[..i]) + [MoneyFrame(ids[i], shares[i])]
            else Frames(ids[..i], shares[..i])
  {
    assert shares[..i + 1] == shares[..i] + [shares[i]] && ids[..i + 1] == ids[..i] + [ids[i]];
    SumSeqAppend(shares[..i], shares[i]);
    FramesAppend(ids[..i], shares[..i], ids[i], shares[i]);
  }

  /** Leaving the loop early loses nothing: the later shares are zero. */
  lemma NothingAfter(views: seq<View>, ids: seq<nat>, shares: seq<U64>, limit: U64, rate: Rational, i: nat)
    requires rate.a > 0 && i <= |views| == |ids| && shares == Shares(views, limit, rate)
    requires i < |views| ==> SumSeq(shares[..i]) == limit
    ensures forall j :: i <= j < |views| ==> shares[j] == 0
    ensures Frames(ids, shares) == Frames(ids[..i], shares[..i]) && SumSeq(shares) == SumSeq(shares[..i])
  {
    if i < |views| {
      SharesFrom(views, limit, rate, i, 0);
      forall j | i <= j < |views| ensures shares[j] == 0 {
        NothingLeft(views[i..], rate, j - i);
        assert shares[i..][j - i] == shares[j];
      }
    }
    ZeroTail(ids, shares, i);
  }

  lemma ZeroTail(ids: seq<nat>, shares: seq<U64>, i: nat)
    requires i <= |ids| == |shares| && forall j :: i <= j < |shares| ==> shares[j] == 0
    ensures Frames(ids, shares) == Frames(ids[..i], shares[..i]) && SumSeq(shares) == SumSeq(shares[..i])
  {
    NoFrames(ids[i..], shares[i..]);
    FramesConcat(ids[..i], shares[..i], ids[i..], shares[i..]);
    SumSeqConcat(shares[..i], shares[i..]);
    assert shares == shares[..i] + shares[i..] && ids == ids[..i] + ids[i..];
  }

  // ----- what the packet's amount means

  ghost function HeldIn(l: Ledger, sequence: nat): nat {
    if sequence in l.holds then l.holds[sequence] else 0
  }

  ghost function HeldUnder(ledgers: seq<Ledger>, sequence: nat): nat {
    if ledgers == [] then 0 else HeldIn(ledgers[0], sequence) + HeldUnder(ledgers[1..], sequence)
  }

  lemma HoldTakesShare(l: Ledger, sequence: nat, share: U64)
    requires sequence !in l.holds && share <= Available(l)
    ensures HeldIn(Hold(l, sequence, Some(share)), sequence) == share
  {}

  /** The holds taken under a new sequence number sum to the packet's amount. */
  lemma {:induction false} HoldsMatchAmount(views: seq<View>, limit: U64, rate: Rational, sequence: nat,
                                            shares: seq<U64>)
    requires rate.a > 0 && shares == Shares(views, limit, rate)
    requires forall i :: 0 <= i < |views| ==> sequence !in views[i].ledger.holds
    ensures HeldUnder(HoldAll(views, sequence, shares), sequence) == SumSeq(shares)
  {
    if views != [] {
      HoldTakesShare(views[0].ledger, sequence, shares[0]);
      HoldsMatchAmount(views[1..], limit - shares[0], rate, sequence, shares[1..]);
      assert HoldAll(views, sequence, shares)[1..] == HoldAll(views[1..], sequence, shares[1..]);
    }
  }

  /** Whatever is loaded stays within 64 bits at the rate, for every rate. */
  lemma LoadedAmountConverts(views: seq<View>, testMaximum: U64, rate: Rational, amount: U64)
    requires 0 < rate.a && amount == SumSeq(Shares(views, PacketLimit(testMaximum, rate), rate))
    ensures amount * rate.a <= MAX * rate.b
    ensures rate.b <= TWO63 ==> Converts(rate, amount)
  {
    SharesStayWithin(views, PacketLimit(testMaximum, rate), rate);
    if GreaterThanOne(rate) {
      ClampStaysWithin(rate, amount);
    } else {
      MulMono(rate.a, rate.b, amount);
      MulMono(amount, MAX, rate.b);
    }
  }

  /** A receiver that reports more than its limit can take nothing, as long as the comparison sees it. */
  lemma NothingLeftToTake(r: Remote, rate: Rational)
    requires 0 < rate.a <= TWO63 && r.received > r.receiveMax && 2 * r.received < TWO64 + r.receiveMax
    ensures MaxSource(r, rate) == 0
  {
    CheckedSubtractExact(r.receiveMax, r.received);
    CeilMeaning(0, rate.b, rate.a, 0);
    MulCancel(MaxSource(r, rate), 1, rate.a);
  }

  /** A stream that gives all its receiver can take sends the least amount that reaches it. */
  lemma MaxSourceReachesLimit(r: Remote, rate: Rational, amount: U64)
    requires 0 < rate.a <= TWO63 && r.received <= r.receiveMax
    requires (r.receiveMax - r.received) * rate.b <= MAX * rate.a && Converts(rate, amount)
    ensures MultiplyByLong(rate, amount) >= r.receiveMax - r.received <==> amount >= MaxSource(r, rate)
  {
    SourceAmountIsLeast(rate, r.receiveMax - r.received, amount);
  }
}
