/** More about whole runs of the two endpoints: what streams learn, how ledgers move, and what becomes of a
    single packet. */
module SystemRuns {
  import opened Arith
  import opened Conservation
  import HL = HoldLedgers
  import IM = IncomingMoney
  import opened Long64
  import opened Maps
  import opened MultiplyDivide
  import opened PacketAssembly
  import opened Rationals
  import opened ReceiveCaps
  import opened Sequences
  import opened Wrappers

  // ----- what the streams learn

  ghost function ReceivedKnown(s: System, i: nat): U64 { if i < |s.streams| then s.streams[i].remote.received else 0 }

  ghost function LimitKnown(s: System, i: nat): U64 { if i < |s.streams| then s.streams[i].remote.receiveMax else MAX }

  /** What the peer's messages said about stream i: how much it had received, and its limit. */
  datatype Message = Message(received: U64, receiveMax: U64)

  ghost function Told(t: Step, i: nat): seq<Message> {
    if t.Learn? && t.i == i then [Message(t.received, t.receiveMax)] else []
  }

  ghost function AllTold(steps: seq<Step>, i: nat): seq<Message> {
    if steps == [] then [] else Told(steps[0], i) + AllTold(steps[1..], i)
  }

  ghost predicate IsLargest(told: seq<Message>, received: U64) {
    && (forall j :: 0 <= j < |told| ==> told[j].received <= received)
    && (received == 0 || exists j :: 0 <= j < |told| && told[j].received == received)
  }

  /** The largest limit since message k, where a limit of 2^64 - 1 counts as none. */
  ghost predicate IsLimit(told: seq<Message>, k: nat, limit: U64) {
    && k <= |told| && (k > 0 ==> told[k - 1].receiveMax == MAX)
    && (forall j :: k <= j < |told| ==> told[j].receiveMax <= limit < MAX)
    && (if k == |told| then limit == MAX else exists j :: k <= j < |told| && told[j].receiveMax == limit)
  }

  lemma LargestGrows(told: seq<Message>, received: U64, m: Message)
    requires IsLargest(told, received)
    ensures IsLargest(told + [m], Max(received, m.received))
  {
    var all := told + [m];
    assert all[|told|] == m;
    if received != 0 {
      var j :| 0 <= j < |told| && told[j].received == received;
      assert all[j].received == received;
    }
  }

  lemma LimitMoves(told: seq<Message>, k: nat, limit: U64, m: Message) returns (k1: nat)
    requires IsLimit(told, k, limit)
    ensures IsLimit(told + [m], k1, if limit == MAX then m.receiveMax else Max(limit, m.receiveMax))
  {
    var all := told + [m];
    assert all[|told|] == m;
    k1 := if m.receiveMax == MAX then |all| else k;
    if k < |told| {
      var j :| k <= j < |told| && told[j].receiveMax == limit;
      assert all[j].receiveMax == limit;
    }
  }

  /** Only a message moves what a stream knows. */
  lemma StepTeaches(s: System, t: Step, i: nat)
    requires Configured(s) && Enabled(s, t)
    ensures Told(t, i) == [] ==>
              ReceivedKnown(Next(s, t), i) == ReceivedKnown(s, i) && LimitKnown(Next(s, t), i) == LimitKnown(s, i)
    ensures Told(t, i) != [] ==>
              && ReceivedKnown(Next(s, t), i) == Max(ReceivedKnown(s, i), t.received)
              && LimitKnown(Next(s, t), i) ==
                 if LimitKnown(s, i) == MAX then t.receiveMax else Max(LimitKnown(s, i), t.receiveMax)
  {}

  lemma {:induction false} RunTeaches(s: System, told: seq<Message>, k: nat, steps: seq<Step>, last: System, i: nat)
    returns (k1: nat)
    requires Run(s, steps, last) && IsLargest(told, ReceivedKnown(s, i)) && IsLimit(told, k, LimitKnown(s, i))
    ensures IsLargest(told + AllTold(steps, i), ReceivedKnown(last, i))
    ensures IsLimit(told + AllTold(steps, i), k1, LimitKnown(last, i))
    decreases |steps|
  {
    if steps == [] {
      k1 := k;
      assert told + AllTold(steps, i) == told;
    } else {
      var t, now, next := steps[0], Told(steps[0], i), k;
      StepTeaches(s, t, i);
      if now != [] {
        LargestGrows(told, ReceivedKnown(s, i), now[0]);
        next := LimitMoves(told, k, LimitKnown(s, i), now[0]);
      } else {
        assert told + now == told;
      }
      k1 := RunTeaches(Next(s, t), told + now, next, steps[1..], last, i);
      Associate(told, now, AllTold(steps[1..], i));
    }
  }

  /** In every run a stream knows the largest amount that any message said was received, and the largest limit
      that was named since the last one of 2^64 - 1, which is also what it starts with. */
  lemma KnowsWhatItWasTold(s: System, steps: seq<Step>, last: System, i: nat)
    requires Start(s) && Run(s, steps, last) && i < |last.streams|
    ensures IsLargest(AllTold(steps, i), last.streams[i].remote.received)
    ensures exists k :: IsLimit(AllTold(steps, i), k, last.streams[i].remote.receiveMax)
  {
    var k := RunTeaches(s, [], 0, steps, last, i);
    assert [] + AllTold(steps, i) == AllTold(steps, i);
  }

  /** Right after a message was composed and read, the stream knows exactly what its peer has. */
  lemma TellThenLearn(s: System, i: nat, receiveMax: U64)
    requires Configured(s) && Informed(s) && i in s.peer.streams && i < |s.streams|
    ensures var told := Next(s, Tell(i));
            var received := s.peer.streams[i].received;
            && Enabled(told, Learn(i, received, receiveMax))
            && Next(told, Learn(i, received, receiveMax)).streams[i].remote.received == received
  {
    assert NoMoreThanReceived(s.peer, i, s.streams[i].remote.received);
  }

  /** Messages can be read at any later time. */
  lemma {:induction false} NoticesStay(s: System, steps: seq<Step>, last: System)
    requires Run(s, steps, last)
    ensures s.notices <= last.notices
    decreases |steps|
  {
    if steps != [] { NoticesStay(Next(s, steps[0]), steps[1..], last); }
  }

  // ----- every ledger follows its own events

  ghost function LedgerOf(s: System, i: nat): HL.Ledger {
    if i < |s.streams| then s.streams[i].ledger else HL.FRESH
  }

  /** What a step does to stream i. */
  ghost function EventsFor(s: System, t: Step, i: nat): seq<HL.Event>
    requires Configured(s) && Enabled(s, t)
  {
    match t
    case SetLimit(j, limit) => if j == i then [HL.Limit(limit)] else []
    case CloseStream(j) => if j == i then [HL.Close] else []
    case Load(_) => [HL.Reserve(s.nextSequence, Some(ShareAt(Next(s, t).flights[s.nextSequence].shares, i)))]
    case Answer(k) => [HL.Pay(k)]
    case Reject(k, removed) => if i in removed then [] else [HL.Undo(k)]
    case _ => []
  }

  ghost function AllEventsFor(s: System, steps: seq<Step>, i: nat): seq<HL.Event>
    decreases |steps|
  {
    if steps == [] || !Configured(s) || !Enabled(s, steps[0]) then []
    else EventsFor(s, steps[0], i) + AllEventsFor(Next(s, steps[0]), steps[1..], i)
  }

  lemma OneEvent(l: HL.Ledger, e: HL.Event)
    ensures HL.Run(l, [e]) == HL.Next(l, e)
  {
    assert HL.Run(HL.Next(l, e), [e][1..]) == HL.Next(l, e);
  }

  lemma OutcomeFollows(s: System, k: nat, pay: bool, removed: set<nat>, i: nat)
    requires Balanced(s) && k in s.flights && s.flights[k].outcome.Open? && i < |s.streams|
    ensures var l := s.streams[i].ledger;
            Resolve(s.streams, s.flights[k].shares, k, pay, removed)[i].ledger ==
            if pay then HL.Execute(l, k) else if i in removed then l else HL.Cancel(l, k)
  {
    OpenIsHeld(s, k);
    assert HoldsShare(s.streams[i].ledger, k, ShareAt(s.flights[k].shares, i));
  }

  lemma LoadFollows(s: System, testMaximum: U64, i: nat)
    requires Configured(s) && Enabled(s, Load(testMaximum))
    ensures LedgerOf(Next(s, Load(testMaximum)), i) ==
            HL.Hold(LedgerOf(s, i), s.nextSequence, Some(ShareAt(SharesLoaded(s, testMaximum), i)))
  {}

  lemma StepFollows(s: System, t: Step, i: nat)
    requires Configured(s) && Balanced(s) && Enabled(s, t)
    ensures LedgerOf(Next(s, t), i) == HL.Run(LedgerOf(s, i), EventsFor(s, t, i))
  {
    var l, events := LedgerOf(s, i), EventsFor(s, t, i);
    if events != [] { OneEvent(l, events[0]); }
    match t {
      case Load(testMaximum) => LoadFollows(s, testMaximum, i);
      case Answer(k) => if i < |s.streams| { OutcomeFollows(s, k, true, {}, i); }
      case Reject(k, removed) => if i < |s.streams| { OutcomeFollows(s, k, false, removed, i); }
      case _ => QuietFollows(s, t, i);
    }
  }

  lemma QuietFollows(s: System, t: Step, i: nat)
    requires Configured(s) && Enabled(s, t) && !t.Load? && !t.Answer? && !t.Reject?
    ensures LedgerOf(Next(s, t), i) ==
            if t.SetLimit? && t.i == i then HL.Next(LedgerOf(s, i), HL.Limit(t.limit))
            else if t == CloseStream(i) then HL.Next(LedgerOf(s, i), HL.Close)
            else LedgerOf(s, i)
  {}

  /** In every run the ledger of a stream is what a new ledger becomes under its limits, the shares that packets
      took from it, and their outcomes. */
  lemma {:induction false} LedgerFollowsEvents(s: System, steps: seq<Step>, last: System, i: nat)
    requires Run(s, steps, last) && Configured(s) && Balanced(s)
    ensures LedgerOf(last, i) == HL.Run(LedgerOf(s, i), AllEventsFor(s, steps, i))
    decreases |steps|
  {
    if steps != [] {
      StepIsBalanced(s, steps[0]);
      StepFollows(s, steps[0], i);
      LedgerFollowsEvents(Next(s, steps[0]), steps[1..], last, i);
      HL.RunThenRun(LedgerOf(s, i), EventsFor(s, steps[0], i),
                             AllEventsFor(Next(s, steps[0]), steps[1..], i));
    }
  }

  // ----- single packets

  /** No packet asks its receiver for more than rate * (1 - slippage) * amount. */
  ghost predicate Fair(s: System) {
    forall k :: k in s.flights ==> s.flights[k].minimum * Scale(s) <= Ideal(s, s.flights[k].amount)
  }

  lemma StepIsFair(s: System, t: Step)
    requires Configured(s) && Fair(s) && Enabled(s, t)
    ensures Fair(Next(s, t)) && Next(s, t).rate == s.rate && Next(s, t).slippage == s.slippage
  {
    if t.Load? {
      var amount := SumSeq(SharesLoaded(s, t.testMaximum));
      SharesStayWithin(s.streams, PacketLimit(t.testMaximum, s.rate), s.rate);
      LoadedAmountConverts(s.streams, t.testMaximum, s.rate, amount);
      MinimumNeverExceeds(s.rate, s.slippage, amount);
    }
  }

  lemma {:induction false} RunIsFair(s: System, steps: seq<Step>, last: System)
    requires Run(s, steps, last) && Fair(s)
    ensures Fair(last)
    decreases |steps|
  {
    if steps != [] {
      StepIsFair(s, steps[0]);
      RunIsFair(Next(s, steps[0]), steps[1..], last);
    }
  }

  ghost function CountAnswers(steps: seq<Step>): nat {
    if steps == [] then 0 else (if steps[0].Answer? then 1 else 0) + CountAnswers(steps[1..])
  }

  lemma {:induction false} AnswersAreCounted(s: System, steps: seq<Step>, last: System)
    requires Run(s, steps, last)
    ensures last.fulfilled == s.fulfilled + CountAnswers(steps)
    decreases |steps|
  {
    if steps != [] { AnswersAreCounted(Next(s, steps[0]), steps[1..], last); }
  }

  ghost function FramesOf(f: Flight): seq<MoneyFrame> { Frames(Ids(|f.shares|), f.shares) }

  function Quotient(n: nat, d: nat): nat
    requires d > 0
  {
    n / d
  }

  /** What reaches stream i of the receiver: the floor of its share of what came in. */
  ghost function PartOf(f: Flight, incoming: U64, i: nat): nat
    requires f.amount > 0
  {
    MulMono(0, ShareAt(f.shares, i), incoming);
    Quotient(incoming * ShareAt(f.shares, i), f.amount)
  }

  lemma {:induction false} LargestIsShare(ids: seq<nat>, shares: seq<U64>, k: nat)
    requires |ids| == |shares| && forall i, j :: 0 <= i < j < |ids| ==> ids[i] != ids[j]
    ensures LargestFor(Frames(ids, shares), k) == SharesFor(Frames(ids, shares), k)
  {
    if ids != [] {
      LargestIsShare(ids[1..], shares[1..], k);
      FramesNameStreams(ids[1..], shares[1..], k);
      var later := Frames(ids[1..], shares[1..]);
      LargestIsBelow(later, k);
      assert FrameOf(ids[0], shares[0]) + later ==
             if shares[0] > 0 then [MoneyFrame(ids[0], shares[0])] + later else later;
      assert ([MoneyFrame(ids[0], shares[0])] + later)[1..] == later;
    }
  }

  /** The part of the one frame that names the stream. */
  lemma FloorIsPart(f: Flight, incoming: U64, i: nat)
    requires 0 < f.amount <= TWO63 && ShareAt(f.shares, i) <= f.amount
    ensures Floor(incoming, ShareAt(f.shares, i), f.amount) == PartOf(f, incoming, i)
  {
    var share := ShareAt(f.shares, i);
    var n := incoming * share;
    MulMono(share, f.amount, incoming);
    MulMonoStrict(incoming, TWO64, f.amount);
    ExactQuotient(incoming, share, f.amount, n);
  }

  lemma ShareIsNamed(f: Flight, i: nat)
    requires f.amount == SumSeq(f.shares)
    ensures TotalShares(FramesOf(f)) == f.amount
    ensures LargestFor(FramesOf(f), i) == SharesFor(FramesOf(f), i) == ShareAt(f.shares, i) <= f.amount
  {
    var ids := Ids(|f.shares|);
    FramesCarryShares(ids, f.shares);
    FramesNameStreams(ids, f.shares, i);
    assert i < |f.shares| ==> ids[i] == i;
    LargestIsShare(ids, f.shares, i);
    LargestIsBelow(FramesOf(f), i);
  }

  lemma PartsReachStreams(f: Flight, incoming: U64, i: nat)
    requires 0 < f.amount <= TWO63 && f.amount == SumSeq(f.shares)
    ensures TotalShares(FramesOf(f)) == f.amount
    ensures IM.PartFor(IM.Splits(incoming, FramesOf(f), f.amount), i) == PartOf(f, incoming, i)
  {
    ShareIsNamed(f, i);
    LonePart(incoming, FramesOf(f), f.amount, i);
    FloorIsPart(f, incoming, i);
  }

  /** The receiver takes a packet. */
  ghost predicate Accepts(s: System, k: nat, incoming: U64)
    requires k in s.flights
  {
    IM.Begin(s.peer, k, incoming, s.flights[k].minimum, FramesOf(s.flights[k])).Ok?
  }

  lemma Arrives(s: System, k: nat, incoming: U64)
    requires Sound(s) && k in s.flights && s.flights[k].receipt.Away? && Accepts(s, k, incoming)
    ensures var n, f := Next(s, Arrive(k, incoming)), s.flights[k];
            && n.flights[k] == f.(receipt := Waiting(incoming)) && k in n.peer.pending
            && n.peer.pending[k].amount == incoming
            && n.peer.total == s.peer.total && n.peer.streams == s.peer.streams
            && n.totalSent == s.totalSent && n.totalDelivered == s.totalDelivered
  {}

  lemma Settles(s: System, k: nat)
    requires Sound(s) && Enabled(s, Finish(k))
    ensures var n, incoming := Next(s, Finish(k)), s.flights[k].receipt.incoming;
            && n.flights[k] == s.flights[k].(receipt := Kept(incoming))
            && n.peer.total == s.peer.total + incoming
            && n.totalSent == s.totalSent && n.totalDelivered == s.totalDelivered
  {
    IM.SettleIsSound(s.peer, k);
  }

  lemma IsAnswered(s: System, k: nat)
    requires Sound(s) && Enabled(s, Answer(k))
    ensures var n, f := Next(s, Answer(k)), s.flights[k];
            && n.flights[k] == f.(outcome := Paid) && n.peer == s.peer
            && n.totalDelivered == s.totalDelivered + f.receipt.incoming && n.totalSent == s.totalSent + f.amount
  {
    AnswerFits(s, k);
  }

  ghost predicate CanGoThrough(s: System, k: nat, incoming: U64) {
    && Sound(s) && k in s.flights && s.flights[k].receipt.Away? && s.flights[k].outcome.Open?
    && s.totalSent + s.flights[k].amount <= MAX && Accepts(s, k, incoming)
  }

  /** A packet that its receiver accepts, settles and answers is counted on both sides. */
  lemma PacketGoesThrough(s: System, k: nat, incoming: U64) returns (last: System)
    requires CanGoThrough(s, k, incoming)
    ensures Run(s, [Arrive(k, incoming), Finish(k), Answer(k)], last)
    ensures last.totalDelivered == s.totalDelivered + incoming && last.peer.total == s.peer.total + incoming
    ensures last.totalSent == s.totalSent + s.flights[k].amount
    ensures k in last.flights && last.flights[k] == s.flights[k].(receipt := Kept(incoming), outcome := Paid)
  {
    Arrives(s, k, incoming);
    StepKeepsAll(s, Arrive(k, incoming));
    var s1 := Next(s, Arrive(k, incoming));
    Settles(s1, k);
    StepKeepsAll(s1, Finish(k));
    var s2 := Next(s1, Finish(k));
    IsAnswered(s2, k);
    last := Next(s2, Answer(k));
    ThreeSteps(s, Arrive(k, incoming), Finish(k), Answer(k));
  }

  lemma ThreeSteps(s: System, t: Step, u: Step, v: Step)
    requires Configured(s) && Enabled(s, t)
    requires Configured(Next(s, t)) && Enabled(Next(s, t), u)
    requires Configured(Next(Next(s, t), u)) && Enabled(Next(Next(s, t), u), v)
    ensures Run(s, [t, u, v], Next(Next(Next(s, t), u), v))
  {
    var s1, s2, s3 := Next(s, t), Next(Next(s, t), u), Next(Next(Next(s, t), u), v);
    assert Run(s3, [], s3);
    assert [v][1..] == [] && Run(s2, [v], s3);
    assert [u, v][1..] == [v] && Run(s1, [u, v], s3);
    assert [t, u, v][1..] == [u, v];
  }

  lemma SettlesParts(r: IM.Receiver, k: nat, i: nat)
    requires k in r.pending && i in r.streams
    ensures i in IM.Settle(r, k).streams
    ensures IM.Settle(r, k).streams[i].received ==
            IM.Saturated(r.streams[i].received + IM.PartFor(r.pending[k].splits, i))
  {
    IM.AddAllAdds(r.streams, r.pending[k].splits, i);
  }

  /** And each stream of the receiver has got the floor of its share then. */
  lemma StreamsGetTheirParts(s: System, k: nat, incoming: U64, i: nat)
    requires CanGoThrough(s, k, incoming) && i in s.peer.streams && 0 < s.flights[k].amount <= TWO63
    ensures var last := Next(Next(s, Arrive(k, incoming)), Finish(k));
            && i in last.peer.streams
            && last.peer.streams[i].received ==
               IM.Saturated(s.peer.streams[i].received + PartOf(s.flights[k], incoming, i))
  {
    PartsReachStreams(s.flights[k], incoming, i);
    Arrives(s, k, incoming);
    SettlesParts(Next(s, Arrive(k, incoming)).peer, k, i);
  }

  /** A packet that is loaded and then rejected leaves every stream as it was. */
  lemma LoadThenReject(s: System, testMaximum: U64)
    requires Configured(s) && Balanced(s) && LedgersSound(s.streams) && Enabled(s, Load(testMaximum))
    ensures Enabled(Next(s, Load(testMaximum)), Reject(s.nextSequence, {}))
    ensures Next(Next(s, Load(testMaximum)), Reject(s.nextSequence, {})).streams == s.streams
  {
    NewIsNotHeld(s);
    HoldsAreUndone(s.streams, s.nextSequence, SharesLoaded(s, testMaximum));
  }

  lemma HoldsAreUndone(streams: seq<View>, k: nat, shares: seq<U64>)
    requires LedgersSound(streams) && |shares| == |streams|
    requires forall i :: 0 <= i < |streams| ==> k !in streams[i].ledger.holds
    ensures Resolve(WithHolds(streams, k, shares), shares, k, false, {}) == streams
  {
    var after := Resolve(WithHolds(streams, k, shares), shares, k, false, {});
    forall i | 0 <= i < |streams| ensures after[i] == streams[i] {
      HL.HoldThenCancel(streams[i].ledger, k, Some(shares[i]), MAX);
    }
  }

  ghost predicate ClosedIn(steps: seq<Step>, i: nat) { CloseStream(i) in steps }

  /** A stream is closed, for packets and for its ledger, exactly if it was closed. */
  lemma {:induction false} OnlyClosingCloses(s: System, steps: seq<Step>, last: System, i: nat)
    requires Run(s, steps, last) && Configured(s)
    ensures i < |last.streams| ==>
              var was := i < |s.streams| && s.streams[i].remote.sentEnd;
              last.streams[i].remote.sentEnd <==> was || ClosedIn(steps, i)
    decreases |steps|
  {
    if steps != [] {
      OnlyClosingCloses(Next(s, steps[0]), steps[1..], last, i);
      assert ClosedIn(steps, i) <==> steps[0] == CloseStream(i) || ClosedIn(steps[1..], i);
      CloseStepCloses(s, steps[0], i);
    }
  }

  lemma CloseStepCloses(s: System, t: Step, i: nat)
    requires Configured(s) && Enabled(s, t)
    ensures |Next(s, t).streams| == |s.streams| + if t.OpenStream? then 1 else 0
    ensures i < |Next(s, t).streams| ==>
              (Next(s, t).streams[i].remote.sentEnd <==>
               (i < |s.streams| && s.streams[i].remote.sentEnd) || t == CloseStream(i))
  {}

  /** A closed stream gives nothing to later packets. */
  lemma {:induction false} ClosedGivesNothing(s: System, steps: seq<Step>, last: System, i: nat, from: nat)
    requires Run(s, steps, last) && Configured(s) && i < |s.streams| && s.streams[i].remote.sentEnd
    requires forall k :: k in s.flights && k >= from ==> ShareAt(s.flights[k].shares, i) == 0
    ensures forall k :: k in last.flights && k >= from ==> ShareAt(last.flights[k].shares, i) == 0
    decreases |steps|
  {
    if steps != [] {
      CloseStepCloses(s, steps[0], i);
      if steps[0].Load? {
        SharesAreMaximal(s.streams, PacketLimit(steps[0].testMaximum, s.rate), s.rate, i);
      }
      ClosedGivesNothing(Next(s, steps[0]), steps[1..], last, i, from);
    }
  }

  // ----- packets that do not go through

  /** A packet that the receiver holds and then declines, and that is rejected, moves no money anywhere. */
  lemma PacketIsDeclined(s: System, k: nat, incoming: U64) returns (last: System)
    requires CanGoThrough(s, k, incoming)
    ensures Run(s, [Arrive(k, incoming), Refuse(k), Reject(k, {})], last)
    ensures last.totalDelivered == s.totalDelivered && last.totalSent == s.totalSent
    ensures last.peer.total == s.peer.total && last.peer.streams == s.peer.streams && k !in last.peer.pending
    ensures k in last.flights && last.flights[k] == s.flights[k].(receipt := Refused, outcome := Undone({}))
  {
    Arrives(s, k, incoming);
    StepKeepsAll(s, Arrive(k, incoming));
    var s1 := Next(s, Arrive(k, incoming));
    IsRefused(s1, k);
    var s2 := Next(s1, Refuse(k));
    last := Next(s2, Reject(k, {}));
    ThreeSteps(s, Arrive(k, incoming), Refuse(k), Reject(k, {}));
  }

  lemma IsRefused(s: System, k: nat)
    requires Sound(s) && Enabled(s, Refuse(k))
    ensures var n := Next(s, Refuse(k));
            && n.flights[k] == s.flights[k].(receipt := Refused)
            && n.peer.total == s.peer.total && n.peer.streams == s.peer.streams && k !in n.peer.pending
            && n.totalSent == s.totalSent && n.totalDelivered == s.totalDelivered
  {}

  /** A fulfill without data: the receiver has the money, the sender does not count it. */
  lemma PacketIsLost(s: System, k: nat, incoming: U64) returns (last: System)
    requires CanGoThrough(s, k, incoming)
    ensures Run(s, [Arrive(k, incoming), Finish(k), Withhold(k)], last)
    ensures last.totalDelivered == s.totalDelivered && last.totalSent == s.totalSent
    ensures last.peer.total == s.peer.total + incoming
    ensures k in last.flights && last.flights[k] == s.flights[k].(receipt := Kept(incoming), outcome := Silent)
  {
    Arrives(s, k, incoming);
    StepKeepsAll(s, Arrive(k, incoming));
    var s1 := Next(s, Arrive(k, incoming));
    Settles(s1, k);
    var s2 := Next(s1, Finish(k));
    last := Next(s2, Withhold(k));
    ThreeSteps(s, Arrive(k, incoming), Finish(k), Withhold(k));
  }

  lemma StepKeepsOutcome(s: System, t: Step, k: nat)
    requires Configured(s) && Enabled(s, t) && k in s.flights && !s.flights[k].outcome.Open? && k < s.nextSequence
    ensures k in Next(s, t).flights && Next(s, t).flights[k].outcome == s.flights[k].outcome
    ensures k < Next(s, t).nextSequence
  {}

  /** An outcome is final. */
  lemma {:induction false} OutcomesAreFinal(s: System, steps: seq<Step>, last: System, k: nat)
    requires Run(s, steps, last) && k in s.flights && !s.flights[k].outcome.Open? && k < s.nextSequence
    ensures k in last.flights && last.flights[k].outcome == s.flights[k].outcome
    decreases |steps|
  {
    if steps != [] {
      StepKeepsOutcome(s, steps[0], k);
      OutcomesAreFinal(Next(s, steps[0]), steps[1..], last, k);
    }
  }

  ghost predicate Numbered(s: System) { forall k: nat :: k in s.flights <==> 1 <= k < s.nextSequence }

  /** Packets are numbered from one on, without gaps. */
  lemma {:induction false} NumbersHaveNoGaps(s: System, steps: seq<Step>, last: System)
    requires Run(s, steps, last) && Numbered(s) && s.nextSequence >= 1
    ensures Numbered(last)
    decreases |steps|
  {
    if steps != [] { NumbersHaveNoGaps(Next(s, steps[0]), steps[1..], last); }
  }

  // ----- the receiver follows its own events

  ghost function PeerEvents(s: System, t: Step): seq<IM.Event>
    requires Enabled(s, t)
  {
    match t
    case Arrive(k, incoming) => [IM.Prepared(k, incoming, s.flights[k].minimum, FramesOf(s.flights[k]))]
    case Finish(k) => [IM.Fulfilled(k)]
    case Refuse(k) => [IM.Declined(k)]
    case PeerEvent(e) => [e]
    case _ => []
  }

  ghost function AllPeerEvents(s: System, steps: seq<Step>): seq<IM.Event>
    decreases |steps|
  {
    if steps == [] || !Configured(s) || !Enabled(s, steps[0]) then []
    else PeerEvents(s, steps[0]) + AllPeerEvents(Next(s, steps[0]), steps[1..])
  }

  lemma OnePeerEvent(r: IM.Receiver, e: IM.Event)
    requires IM.Enabled(r, e)
    ensures IM.Run(r, [e], IM.Next(r, e))
  {
    assert IM.Run(IM.Next(r, e), [e][1..], IM.Next(r, e));
  }

  lemma PeerStepFollows(s: System, t: Step)
    requires Sound(s) && Enabled(s, t)
    ensures IM.Run(s.peer, PeerEvents(s, t), Next(s, t).peer)
  {
    var events := PeerEvents(s, t);
    if events != [] { OnePeerEvent(s.peer, events[0]); }
  }

  /** In every run the receiver is what its arriving packets, decisions, and its own calls make of it. */
  lemma {:induction false} PeerFollowsEvents(s: System, steps: seq<Step>, last: System)
    requires Run(s, steps, last) && Sound(s)
    ensures IM.Run(s.peer, AllPeerEvents(s, steps), last.peer)
    decreases |steps|
  {
    if steps != [] {
      StepKeepsAll(s, steps[0]);
      PeerStepFollows(s, steps[0]);
      PeerFollowsEvents(Next(s, steps[0]), steps[1..], last);
      IM.RunThenRun(s.peer, PeerEvents(s, steps[0]), Next(s, steps[0]).peer,
                    AllPeerEvents(Next(s, steps[0]), steps[1..]), last.peer);
    }
  }
}
