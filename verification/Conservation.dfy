/** A sender and a receiver joined by a connector that may convert amounts at will, reject,
    delay, and lose or withhold responses. */
module Conservation {
  import opened Arith
  import opened HoldLedgers
  import IM = IncomingMoney
  import opened Long64
  import opened Maps
  import opened PacketAssembly
  import opened Rationals
  import SC = SendingConnections
  import opened Sequences
  import opened Wrappers

  /** What the receiver did with a packet. */
  datatype Receipt = Away | Waiting(incoming: U64) | Kept(incoming: U64) | Refused

  /** What the sender concluded. `Silent`: fulfilled without data, so nothing was undone or paid. When a
      packet is undone, some of its streams may not be on record any more. */
  datatype Outcome = Open | Paid | Undone(removed: set<nat>) | Silent

  datatype Flight = Flight(amount: U64, minimum: U64, shares: seq<U64>, receipt: Receipt, outcome: Outcome)

  /** The streams of the sender, live or removed; stream number i is stream i of the peer. */
  datatype System = System(rate: Rational, slippage: Rational,
                           streams: seq<View>, totalSent: U64, totalDelivered: U64, fulfilled: nat,
                           nextSequence: nat, flights: map<nat, Flight>,
                           peer: IM.Receiver, notices: set<(nat, U64)>)

  datatype Step =
    | OpenStream
    | CloseStream(i: nat)
    | SetLimit(i: nat, limit: U64)
    | Load(testMaximum: U64)
    | Arrive(k: nat, incoming: U64)
    | Finish(k: nat)
    | Refuse(k: nat)
    | Answer(k: nat)
    | Reject(k: nat, removed: set<nat>)
    | Withhold(k: nat)
    | PeerEvent(event: IM.Event)
    | Tell(i: nat)
    | Learn(i: nat, received: U64, receiveMax: U64)

  function ShareAt(shares: seq<U64>, i: nat): U64 { if i < |shares| then shares[i] else 0 }

  ghost function Ids(n: nat): (ids: seq<nat>)
    ensures |ids| == n
  {
    seq(n, i => i)
  }

  /** The outcome of packet k, applied to the holds of the streams it took money from. A reject
      does not find streams whose record was removed; their holds stay. */
  ghost function Resolve(streams: seq<View>, shares: seq<U64>, k: nat, pay: bool, removed: set<nat>): (r: seq<View>)
    ensures |r| == |streams|
  {
    seq(|streams|, i requires 0 <= i < |streams| =>
      if ShareAt(shares, i) == 0 || (!pay && i in removed) then streams[i]
      else streams[i].(ledger := if pay then Execute(streams[i].ledger, k) else Cancel(streams[i].ledger, k)))
  }

  ghost function WithHolds(streams: seq<View>, k: nat, shares: seq<U64>): (r: seq<View>)
    requires |streams| == |shares|
    ensures |r| == |streams|
  {
    seq(|streams|, i requires 0 <= i < |streams| => streams[i].(ledger := HoldAll(streams, k, shares)[i]))
  }

  ghost predicate Enabled(s: System, t: Step) {
    match t
    case OpenStream => true
    case CloseStream(i) => i < |s.streams|
    case SetLimit(i, _) => i < |s.streams|
    case Load(_) => s.nextSequence < SC.MAX_PACKETS
    case Arrive(k, _) => k in s.flights && s.flights[k].receipt.Away?
    case Finish(k) => k in s.flights && s.flights[k].receipt.Waiting? && k in s.peer.pending
    case Refuse(k) => k in s.flights && s.flights[k].receipt.Waiting? && k in s.peer.pending
    // no overflow error at the sender
    case Answer(k) => k in s.flights && s.flights[k].receipt.Kept? && s.flights[k].outcome.Open? &&
                      s.totalSent + s.flights[k].amount <= MAX
    case Reject(k, _) => k in s.flights && s.flights[k].outcome.Open?
    case Withhold(k) => k in s.flights && s.flights[k].outcome.Open?
    case PeerEvent(e) => (e.Opened? || e.Closed? || e.Raised?) && IM.Enabled(s.peer, e)
    case Tell(i) => i in s.peer.streams
    case Learn(i, received, _) => i < |s.streams| && (i, received) in s.notices
  }

  ghost function SharesLoaded(s: System, testMaximum: U64): seq<U64>
    requires s.rate.a > 0
  {
    Shares(s.streams, PacketLimit(testMaximum, s.rate), s.rate)
  }

  ghost predicate Configured(s: System) {
    0 < s.rate.a && s.slippage.a <= s.slippage.b
  }

  ghost function LoadPacket(s: System, testMaximum: U64): System
    requires Configured(s)
  {
    var shares := SharesLoaded(s, testMaximum);
    SharesStayWithin(s.streams, PacketLimit(testMaximum, s.rate), s.rate);
    var amount := SumSeq(shares);
    var minimum := MinimumDestination(s.rate, s.slippage, amount).value;
    s.(streams := WithHolds(s.streams, s.nextSequence, shares), nextSequence := s.nextSequence + 1,
       flights := s.flights[s.nextSequence := Flight(amount, minimum, shares, Away, Open)])
  }

  ghost function ArriveAtPeer(s: System, k: nat, incoming: U64): System
    requires k in s.flights
  {
    var f := s.flights[k];
    match IM.Begin(s.peer, k, incoming, f.minimum, Frames(Ids(|f.shares|), f.shares))
    case Ok(peer) => s.(peer := peer, flights := s.flights[k := f.(receipt := Waiting(incoming))])
    case Err(_) => s.(flights := s.flights[k := f.(receipt := Refused)])
  }

  ghost function Next(s: System, t: Step): System
    requires Configured(s) && Enabled(s, t)
  {
    match t
    case OpenStream => s.(streams := s.streams + [View(FRESH, Remote(0, MAX, false))])
    case CloseStream(i) =>
      var v := s.streams[i];
      s.(streams := s.streams[i := View(HoldLedgers.Next(v.ledger, Close), v.remote.(sentEnd := true))])
    case SetLimit(i, limit) =>
      s.(streams := s.streams[i := s.streams[i].(ledger := HoldLedgers.Next(s.streams[i].ledger, Limit(limit)))])
    case Load(testMaximum) => LoadPacket(s, testMaximum)
    case Arrive(k, incoming) => ArriveAtPeer(s, k, incoming)
    case Finish(k) =>
      var f := s.flights[k];
      s.(peer := IM.Settle(s.peer, k), flights := s.flights[k := f.(receipt := Kept(f.receipt.incoming))])
    case Refuse(k) => s.(peer := IM.Decline(s.peer, k), flights := s.flights[k := s.flights[k].(receipt := Refused)])
    case Answer(k) =>
      var f := s.flights[k];
      s.(streams := Resolve(s.streams, f.shares, k, true, {}), flights := s.flights[k := f.(outcome := Paid)],
         totalDelivered := CheckedAdd(s.totalDelivered, f.receipt.incoming).value,
         totalSent := CheckedAdd(s.totalSent, f.amount).value, fulfilled := s.fulfilled + 1)
    case Reject(k, removed) =>
      var f := s.flights[k];
      s.(streams := Resolve(s.streams, f.shares, k, false, removed),
         flights := s.flights[k := f.(outcome := Undone(removed))])
    case Withhold(k) => s.(flights := s.flights[k := s.flights[k].(outcome := Silent)])
    case PeerEvent(e) => s.(peer := IM.Next(s.peer, e))
    case Tell(i) => s.(notices := s.notices + {(i, s.peer.streams[i].received)})
    case Learn(i, received, receiveMax) =>
      var r := s.streams[i].remote;
      var limit := if r.receiveMax == MAX then receiveMax else Max(r.receiveMax, receiveMax);
      s.(streams := s.streams[i := s.streams[i].(remote := Remote(Max(r.received, received), limit, r.sentEnd))])
  }

  ghost predicate Start(s: System) {
    && Configured(s)
    && s.streams == [] && s.totalSent == 0 && s.totalDelivered == 0 && s.fulfilled == 0
    && s.nextSequence == 1 && s.flights == map[] && s.peer == IM.IDLE && s.notices == {}
  }

  ghost predicate Run(s: System, steps: seq<Step>, last: System)
    decreases |steps|
  {
    if steps == [] then last == s
    else Configured(s) && Enabled(s, steps[0]) && Run(Next(s, steps[0]), steps[1..], last)
  }

  // ----- what was received and is not yet known to the sender

  function UnreportedOf(f: Flight): nat { if f.receipt.Kept? && !f.outcome.Paid? then f.receipt.incoming else 0 }

  ghost function Unreported(flights: map<nat, Flight>): map<nat, nat> {
    map k | k in flights :: UnreportedOf(flights[k])
  }

  ghost predicate PendingMatches(s: System) {
    && (forall k :: k in s.peer.pending <==> k in s.flights && s.flights[k].receipt.Waiting?)
    && (forall k :: k in s.peer.pending ==> s.peer.pending[k].amount == s.flights[k].receipt.incoming)
    && (forall k :: k in s.flights ==> k < s.nextSequence)
  }

  /** Delivered so far, as the sender knows it, plus what it was not told is what the
      receiver has. */
  ghost predicate Conserved(s: System) {
    && IM.Sound(s.peer) && PendingMatches(s)
    && s.totalDelivered + SumMap(Unreported(s.flights)) == s.peer.total
  }

  lemma ReportChanges(flights: map<nat, Flight>, k: nat, f: Flight)
    ensures var was := if k in flights then UnreportedOf(flights[k]) else 0;
            SumMap(Unreported(flights[k := f])) + was == SumMap(Unreported(flights)) + UnreportedOf(f)
  {
    assert Unreported(flights[k := f]) == Unreported(flights)[k := UnreportedOf(f)];
    if k in flights {
      SumMapUpdate(Unreported(flights), k, UnreportedOf(f));
    } else {
      SumMapAdd(Unreported(flights), k, UnreportedOf(f));
    }
  }

  lemma LoadConserves(s: System, testMaximum: U64)
    requires Configured(s) && Conserved(s)
    ensures Conserved(LoadPacket(s, testMaximum))
  {
    ReportChanges(s.flights, s.nextSequence, LoadPacket(s, testMaximum).flights[s.nextSequence]);
  }

  lemma ArriveConserves(s: System, k: nat, incoming: U64)
    requires Conserved(s) && k in s.flights && s.flights[k].receipt.Away?
    ensures Conserved(ArriveAtPeer(s, k, incoming))
  {
    var f := s.flights[k];
    var frames := Frames(Ids(|f.shares|), f.shares);
    ReportChanges(s.flights, k, ArriveAtPeer(s, k, incoming).flights[k]);
    if IM.Begin(s.peer, k, incoming, f.minimum, frames).Ok? { IM.BeginIsSound(s.peer, k, incoming, f.minimum, frames); }
  }

  /** The receiver settles or declines: only settling moves money, to what is unreported. */
  lemma DecideConserves(s: System, k: nat, settle: bool)
    requires Conserved(s) && k in s.flights && s.flights[k].receipt.Waiting? && k in s.peer.pending
    ensures var f := s.flights[k].(receipt := if settle then Kept(s.flights[k].receipt.incoming) else Refused);
            s.flights[k].outcome.Paid? ||
            Conserved(s.(peer := if settle then IM.Settle(s.peer, k) else IM.Decline(s.peer, k),
                         flights := s.flights[k := f]))
  {
    var f := s.flights[k].(receipt := if settle then Kept(s.flights[k].receipt.incoming) else Refused);
    ReportChanges(s.flights, k, f);
    if settle { IM.SettleIsSound(s.peer, k); } else { IM.DeclineIsSound(s.peer, k); }
  }

  /** The sender learns an outcome: a payment moves the amount from unreported to delivered. */
  lemma OutcomeConserves(s: System, k: nat, f: Flight, delivered: U64)
    requires Conserved(s) && k in s.flights && f.receipt == s.flights[k].receipt
    requires s.totalDelivered + UnreportedOf(s.flights[k]) == delivered + UnreportedOf(f)
    ensures Conserved(s.(flights := s.flights[k := f], totalDelivered := delivered))
  {
    ReportChanges(s.flights, k, f);
  }

  lemma AnswerFits(s: System, k: nat)
    requires Conserved(s) && k in s.flights && s.flights[k].receipt.Kept? && s.flights[k].outcome.Open?
    ensures s.totalDelivered + s.flights[k].receipt.incoming <= MAX
  {
    EachIsBelowSum(Unreported(s.flights), k);
  }

  /** Only a packet the receiver kept is ever paid. */
  ghost predicate PaidIsKept(s: System) {
    forall k :: k in s.flights && s.flights[k].outcome.Paid? ==> s.flights[k].receipt.Kept?
  }

  lemma ArriveStepConserves(s: System, k: nat, incoming: U64)
    requires Configured(s) && Conserved(s) && PaidIsKept(s) && Enabled(s, Arrive(k, incoming))
    ensures Conserved(Next(s, Arrive(k, incoming))) && PaidIsKept(Next(s, Arrive(k, incoming)))
  {
    ArriveConserves(s, k, incoming);
  }

  lemma FinishConserves(s: System, k: nat)
    requires Configured(s) && Conserved(s) && PaidIsKept(s) && Enabled(s, Finish(k))
    ensures Conserved(Next(s, Finish(k))) && PaidIsKept(Next(s, Finish(k)))
  {
    DecideConserves(s, k, true);
  }

  lemma RefuseConserves(s: System, k: nat)
    requires Configured(s) && Conserved(s) && PaidIsKept(s) && Enabled(s, Refuse(k))
    ensures Conserved(Next(s, Refuse(k))) && PaidIsKept(Next(s, Refuse(k)))
  {
    DecideConserves(s, k, false);
  }

  lemma PeerEventConserves(s: System, e: IM.Event)
    requires Configured(s) && Conserved(s) && PaidIsKept(s) && Enabled(s, PeerEvent(e))
    ensures Conserved(Next(s, PeerEvent(e))) && PaidIsKept(Next(s, PeerEvent(e)))
  {
    IM.StepIsSound(s.peer, e);
  }

  lemma AnswerConserves(s: System, k: nat)
    requires Configured(s) && Conserved(s) && PaidIsKept(s) && Enabled(s, Answer(k))
    ensures Conserved(Next(s, Answer(k))) && PaidIsKept(Next(s, Answer(k)))
  {
    AnswerFits(s, k);
    var f := s.flights[k];
    OutcomeConserves(s, k, f.(outcome := Paid), s.totalDelivered + f.receipt.incoming);
  }

  lemma RejectConserves(s: System, k: nat, removed: set<nat>)
    requires Configured(s) && Conserved(s) && PaidIsKept(s) && Enabled(s, Reject(k, removed))
    ensures Conserved(Next(s, Reject(k, removed))) && PaidIsKept(Next(s, Reject(k, removed)))
  {
    OutcomeConserves(s, k, s.flights[k].(outcome := Undone(removed)), s.totalDelivered);
  }

  lemma WithholdConserves(s: System, k: nat)
    requires Configured(s) && Conserved(s) && PaidIsKept(s) && Enabled(s, Withhold(k))
    ensures Conserved(Next(s, Withhold(k))) && PaidIsKept(Next(s, Withhold(k)))
  {
    OutcomeConserves(s, k, s.flights[k].(outcome := Silent), s.totalDelivered);
  }

  lemma StepConserves(s: System, t: Step)
    requires Configured(s) && Conserved(s) && PaidIsKept(s) && Enabled(s, t)
    ensures Conserved(Next(s, t)) && PaidIsKept(Next(s, t))
  {
    match t {
      case Load(testMaximum) => LoadConserves(s, testMaximum);
      case Arrive(k, incoming) => ArriveStepConserves(s, k, incoming);
      case Finish(k) => FinishConserves(s, k);
      case Refuse(k) => RefuseConserves(s, k);
      case Answer(k) => AnswerConserves(s, k);
      case Reject(k, removed) => RejectConserves(s, k, removed);
      case Withhold(k) => WithholdConserves(s, k);
      case PeerEvent(e) => PeerEventConserves(s, e);
      case _ =>
    }
  }

  // ----- the sender's own books

  ghost function SumSent(streams: seq<View>): nat {
    if streams == [] then 0 else streams[0].ledger.totalSent + SumSent(streams[1..])
  }

  lemma {:induction false} SumSentShifts(before: seq<View>, after: seq<View>, shares: seq<U64>)
    requires |after| == |before| && |shares| <= |before|
    requires forall i :: 0 <= i < |before| ==>
               after[i].ledger.totalSent == before[i].ledger.totalSent + ShareAt(shares, i)
    ensures SumSent(after) == SumSent(before) + SumSeq(shares)
  {
    if before != [] {
      var rest := if shares == [] then [] else shares[1..];
      forall i | 0 <= i < |before| - 1
        ensures after[1..][i].ledger.totalSent == before[1..][i].ledger.totalSent + ShareAt(rest, i)
      {
        assert after[i + 1].ledger.totalSent == before[i + 1].ledger.totalSent + ShareAt(shares, i + 1);
      }
      SumSentShifts(before[1..], after[1..], rest);
    }
  }

  lemma {:induction false} SumSentAppends(streams: seq<View>, v: View)
    ensures SumSent(streams + [v]) == SumSent(streams) + v.ledger.totalSent
  {
    if streams == [] {
      assert (streams + [v])[1..] == [];
    } else {
      SumSentAppends(streams[1..], v);
      assert (streams + [v])[1..] == streams[1..] + [v];
    }
  }

  /** Stream i holds exactly its share of packet k. */
  ghost predicate HoldsShare(l: Ledger, k: nat, share: U64) {
    if share == 0 then k !in l.holds else k in l.holds && l.holds[k] == share
  }

  ghost predicate FlightHeld(streams: seq<View>, k: nat, shares: seq<U64>) {
    |shares| <= |streams| && forall i :: 0 <= i < |streams| ==> HoldsShare(streams[i].ledger, k, ShareAt(shares, i))
  }

  /** Whose money a packet still locks: everybody's while it has no outcome and when it was fulfilled
      without data, and on a reject that of the streams that were not on record any more. */
  ghost predicate Locks(f: Flight, i: nat) {
    match f.outcome
    case Open => true
    case Silent => true
    case Undone(removed) => i in removed
    case Paid => false
  }

  ghost function Due(flights: map<nat, Flight>, k: nat, i: nat): U64 {
    if k in flights && Locks(flights[k], i) then ShareAt(flights[k].shares, i) else 0
  }

  ghost predicate HoldIsDue(streams: seq<View>, flights: map<nat, Flight>, i: nat, k: nat)
    requires i < |streams|
  {
    HoldsShare(streams[i].ledger, k, Due(flights, k, i))
  }

  /** The holds of every stream are exactly what packets still lock. */
  ghost predicate HoldsAreDue(streams: seq<View>, flights: map<nat, Flight>) {
    forall i: nat, k: nat :: i < |streams| ==> HoldIsDue(streams, flights, i, k)
  }

  ghost predicate FlightsKnown(s: System) {
    forall k :: k in s.flights ==>
      && k < s.nextSequence && |s.flights[k].shares| <= |s.streams|
      && s.flights[k].amount == SumSeq(s.flights[k].shares)
  }

  /** Streams hold what packets lock and nothing else, and the connection's total is the sum over
      its streams. */
  ghost predicate Balanced(s: System) {
    HoldsAreDue(s.streams, s.flights) && FlightsKnown(s) && s.totalSent == SumSent(s.streams)
  }

  lemma OpenIsHeld(s: System, k: nat)
    requires Balanced(s) && k in s.flights && s.flights[k].outcome.Open?
    ensures FlightHeld(s.streams, k, s.flights[k].shares)
  {
    forall i | 0 <= i < |s.streams| ensures HoldsShare(s.streams[i].ledger, k, ShareAt(s.flights[k].shares, i)) {
      assert HoldIsDue(s.streams, s.flights, i, k);
    }
  }

  lemma NewIsNotHeld(s: System)
    requires Balanced(s)
    ensures forall i :: 0 <= i < |s.streams| ==> s.nextSequence !in s.streams[i].ledger.holds
  {
    forall i | 0 <= i < |s.streams| ensures s.nextSequence !in s.streams[i].ledger.holds {
      assert HoldIsDue(s.streams, s.flights, i, s.nextSequence);
    }
  }

  /** No stream's total can wrap before the connection's does. */
  lemma {:induction false} EachFitsInTotal(streams: seq<View>, shares: seq<U64>, i: nat)
    requires i < |streams| && |shares| <= |streams|
    ensures streams[i].ledger.totalSent + ShareAt(shares, i) <= SumSent(streams) + SumSeq(shares)
  {
    if i > 0 {
      var rest := if shares == [] then [] else shares[1..];
      EachFitsInTotal(streams[1..], rest, i - 1);
    }
  }

  /** Replacing views one by one, each by a ledger step that pays or releases its share. */
  lemma ResolveMovesShares(streams: seq<View>, k: nat, shares: seq<U64>, pay: bool, removed: set<nat>)
    requires FlightHeld(streams, k, shares)
    requires pay ==> SumSent(streams) + SumSeq(shares) <= MAX
    ensures var after := Resolve(streams, shares, k, pay, removed);
            forall i :: 0 <= i < |streams| ==>
              after[i].ledger.totalSent == streams[i].ledger.totalSent + ShareAt(if pay then shares else [], i)
  {
    var after := Resolve(streams, shares, k, pay, removed);
    forall i | 0 <= i < |streams|
      ensures after[i].ledger.totalSent == streams[i].ledger.totalSent + ShareAt(if pay then shares else [], i)
    {
      assert HoldsShare(streams[i].ledger, k, ShareAt(shares, i));
      if pay { EachFitsInTotal(streams, shares, i); }
    }
  }

  /** An outcome takes away what it unlocks and leaves every other hold. */
  lemma ResolveLeavesDue(streams: seq<View>, flights: map<nat, Flight>, k: nat, f: Flight, pay: bool, removed: set<nat>)
    requires HoldsAreDue(streams, flights) && k in flights && flights[k].outcome.Open?
    requires f.shares == flights[k].shares && f.outcome == if pay then Paid else Undone(removed)
    ensures HoldsAreDue(Resolve(streams, f.shares, k, pay, removed), flights[k := f])
  {
    var after, next := Resolve(streams, f.shares, k, pay, removed), flights[k := f];
    forall i: nat, j: nat | i < |streams| ensures HoldIsDue(after, next, i, j) {
      assert HoldIsDue(streams, flights, i, j) && HoldIsDue(streams, flights, i, k);
    }
  }

  lemma ResolveIsBalanced(s: System, k: nat, f: Flight, pay: bool, removed: set<nat>)
    requires Balanced(s) && k in s.flights && s.flights[k].outcome.Open? && s.flights[k].shares == f.shares
    requires f.amount == s.flights[k].amount && f.outcome == if pay then Paid else Undone(removed)
    requires pay ==> s.totalSent + f.amount <= MAX
    ensures Balanced(s.(streams := Resolve(s.streams, f.shares, k, pay, removed), flights := s.flights[k := f],
                        totalSent := if pay then s.totalSent + f.amount else s.totalSent))
  {
    OpenIsHeld(s, k);
    ResolveLeavesDue(s.streams, s.flights, k, f, pay, removed);
    ResolveMovesShares(s.streams, k, f.shares, pay, removed);
    SumSentShifts(s.streams, Resolve(s.streams, f.shares, k, pay, removed), if pay then f.shares else []);
  }

  /** What happens to a packet at the receiver, or a fulfill without data, changes nothing here. */
  lemma QuietIsBalanced(s: System, k: nat, f: Flight)
    requires Balanced(s) && k in s.flights && f.shares == s.flights[k].shares && f.amount == s.flights[k].amount
    requires f.outcome == s.flights[k].outcome || (s.flights[k].outcome.Open? && f.outcome.Silent?)
    ensures HoldsAreDue(s.streams, s.flights[k := f]) && FlightsKnown(s.(flights := s.flights[k := f]))
  {
    var next := s.flights[k := f];
    forall i: nat, j: nat | i < |s.streams| ensures HoldIsDue(s.streams, next, i, j) {
      assert HoldIsDue(s.streams, s.flights, i, j);
    }
  }

  lemma LoadTakesHolds(streams: seq<View>, flights: map<nat, Flight>, k: nat, f: Flight)
    requires HoldsAreDue(streams, flights) && k !in flights && |f.shares| == |streams| && f.outcome.Open?
    requires forall i :: 0 <= i < |streams| ==> f.shares[i] <= Available(streams[i].ledger)
    ensures HoldsAreDue(WithHolds(streams, k, f.shares), flights[k := f])
  {
    var after, next := WithHolds(streams, k, f.shares), flights[k := f];
    forall i: nat, j: nat | i < |streams| ensures HoldIsDue(after, next, i, j) {
      assert HoldIsDue(streams, flights, i, j);
    }
  }

  lemma {:induction false} SharesAreAvailable(views: seq<View>, limit: U64, rate: Rational, i: nat)
    requires rate.a > 0 && i < |views|
    ensures Shares(views, limit, rate)[i] <= Available(views[i].ledger)
  {
    if i > 0 { SharesAreAvailable(views[1..], limit - Share(views[0], limit, rate), rate, i - 1); }
  }

  lemma LoadIsBalanced(s: System, testMaximum: U64)
    requires Configured(s) && Balanced(s)
    ensures Balanced(LoadPacket(s, testMaximum))
  {
    var shares, k := SharesLoaded(s, testMaximum), s.nextSequence;
    forall i | 0 <= i < |shares| ensures shares[i] <= Available(s.streams[i].ledger) {
      SharesAreAvailable(s.streams, PacketLimit(testMaximum, s.rate), s.rate, i);
    }
    LoadTakesHolds(s.streams, s.flights, k, LoadPacket(s, testMaximum).flights[k]);
    SumSentShifts(s.streams, WithHolds(s.streams, k, shares), []);
  }

  /** Changing one view without touching its holds or what it sent. */
  lemma ViewIsBalanced(s: System, i: nat, v: View)
    requires Balanced(s) && i < |s.streams|
    requires v.ledger.holds == s.streams[i].ledger.holds && v.ledger.totalSent == s.streams[i].ledger.totalSent
    ensures Balanced(s.(streams := s.streams[i := v]))
  {
    SumSentShifts(s.streams, s.streams[i := v], []);
    var after := s.streams[i := v];
    forall m: nat, k: nat | m < |s.streams| ensures HoldIsDue(after, s.flights, m, k) {
      assert HoldIsDue(s.streams, s.flights, m, k);
    }
  }

  lemma OpenStreamIsBalanced(s: System, v: View)
    requires Balanced(s) && v.ledger == FRESH
    ensures Balanced(s.(streams := s.streams + [v]))
  {
    SumSentAppends(s.streams, v);
    forall m: nat, k: nat | m <= |s.streams| ensures HoldIsDue(s.streams + [v], s.flights, m, k) {
      if m < |s.streams| { assert HoldIsDue(s.streams, s.flights, m, k); }
    }
  }

  lemma OutcomeIsBalanced(s: System, t: Step)
    requires Configured(s) && Balanced(s) && Enabled(s, t) && (t.Answer? || t.Reject?)
    ensures Balanced(Next(s, t))
  {
    match t {
      case Answer(k) => ResolveIsBalanced(s, k, s.flights[k].(outcome := Paid), true, {});
      case Reject(k, removed) => ResolveIsBalanced(s, k, s.flights[k].(outcome := Undone(removed)), false, removed);
    }
  }

  lemma StepIsBalanced(s: System, t: Step)
    requires Configured(s) && Balanced(s) && Enabled(s, t)
    ensures Balanced(Next(s, t))
  {
    if t.Arrive? || t.Finish? || t.Refuse? || t.Withhold? { QuietIsBalanced(s, t.k, Next(s, t).flights[t.k]); }
    match t {
      case OpenStream => OpenStreamIsBalanced(s, View(FRESH, Remote(0, MAX, false)));
      case CloseStream(i) => ViewIsBalanced(s, i, Next(s, t).streams[i]);
      case SetLimit(i, _) => ViewIsBalanced(s, i, Next(s, t).streams[i]);
      case Load(testMaximum) => LoadIsBalanced(s, testMaximum);
      case Answer(_) => OutcomeIsBalanced(s, t);
      case Reject(_, _) => OutcomeIsBalanced(s, t);
      case Learn(i, _, _) => ViewIsBalanced(s, i, Next(s, t).streams[i]);
      case _ =>
    }
  }

  // ----- what the streams know of the peer

  ghost predicate NoMoreThanReceived(peer: IM.Receiver, i: nat, amount: nat) {
    amount > 0 ==> i in peer.streams && amount <= peer.streams[i].received
  }

  /** No stream believes its peer has received more than it did. */
  ghost predicate Informed(s: System) {
    && (forall n :: n in s.notices ==> NoMoreThanReceived(s.peer, n.0, n.1))
    && (forall i :: 0 <= i < |s.streams| ==> NoMoreThanReceived(s.peer, i, s.streams[i].remote.received))
  }

  lemma PeerStreamsGrow(s: System, t: Step, i: nat, amount: nat)
    requires Configured(s) && Enabled(s, t) && NoMoreThanReceived(s.peer, i, amount)
    ensures NoMoreThanReceived(Next(s, t).peer, i, amount)
  {
    if amount > 0 {
      match t {
        case Finish(k) => IM.AddAllGrows(s.peer.streams, s.peer.pending[k].splits, i);
        case PeerEvent(e) => IM.ReceivedGrows(s.peer, e, i);
        case _ =>
      }
    }
  }

  lemma StepIsInformed(s: System, t: Step)
    requires Configured(s) && Enabled(s, t) && Informed(s)
    ensures Informed(Next(s, t))
  {
    var n := Next(s, t);
    forall m | m in s.notices ensures NoMoreThanReceived(n.peer, m.0, m.1) {
      PeerStreamsGrow(s, t, m.0, m.1);
    }
    forall i | 0 <= i < |s.streams| ensures NoMoreThanReceived(n.peer, i, s.streams[i].remote.received) {
      PeerStreamsGrow(s, t, i, s.streams[i].remote.received);
    }
    forall i | 0 <= i < |n.streams| ensures NoMoreThanReceived(n.peer, i, n.streams[i].remote.received) {
      if t.Learn? && i == t.i {
        assert NoMoreThanReceived(s.peer, i, t.received) by { assert (i, t.received) in s.notices; }
      }
    }
  }

  // ----- slippage

  ghost function Scale(s: System): int { s.slippage.b * s.rate.b }

  /** rate * (1 - slippage) * amount, times the scale. */
  ghost function Ideal(s: System, amount: nat): int {
    amount * s.rate.a * (s.slippage.b - s.slippage.a)
  }

  ghost predicate FlightKeepsRate(s: System, f: Flight) {
    && Ideal(s, f.amount) < f.minimum * Scale(s) + 2 * Scale(s)
    && (f.receipt.Waiting? || f.receipt.Kept? ==> f.minimum <= f.receipt.incoming)
  }

  /** The two divisions are exact. */
  ghost predicate Divides(s: System) { s.rate.b <= TWO63 && s.slippage.b <= TWO63 }

  /** What was delivered is at most two units per fulfilled packet below the agreed minimum. */
  ghost predicate RateKept(s: System) {
    && Configured(s) && Divides(s)
    && (forall k :: k in s.flights ==> FlightKeepsRate(s, s.flights[k]))
    && Ideal(s, s.totalSent) <= s.totalDelivered * Scale(s) + 2 * s.fulfilled * Scale(s)
  }

  lemma AnswerKeepsRate(sent: nat, amount: nat, delivered: nat, incoming: nat, minimum: nat, n: nat,
                        ra: nat, keep: nat, scale: int)
    requires scale >= 0
    requires sent * ra * keep <= delivered * scale + 2 * n * scale
    requires amount * ra * keep < minimum * scale + 2 * scale && minimum <= incoming
    ensures (sent + amount) * ra * keep <= (delivered + incoming) * scale + 2 * (n + 1) * scale
  {
    MulMono(minimum, incoming, scale);
    assert (sent + amount) * ra == sent * ra + amount * ra;
    assert (sent * ra + amount * ra) * keep == sent * ra * keep + amount * ra * keep;
    assert (delivered + incoming) * scale == delivered * scale + incoming * scale;
    assert 2 * (n + 1) * scale == 2 * n * scale + 2 * scale;
  }

  lemma LoadKeepsRate(s: System, testMaximum: U64)
    requires RateKept(s)
    ensures RateKept(LoadPacket(s, testMaximum))
  {
    var amount := SumSeq(SharesLoaded(s, testMaximum));
    SharesStayWithin(s.streams, PacketLimit(testMaximum, s.rate), s.rate);
    LoadedAmountConverts(s.streams, testMaximum, s.rate, amount);
    MinimumDestinationBound(s.rate, s.slippage, amount);
    assert FlightKeepsRate(s, LoadPacket(s, testMaximum).flights[s.nextSequence]);
  }

  /** Every other step changes one flight at most, and neither its amount nor its minimum. */
  lemma FlightStepKeepsRate(s: System, k: nat, f: Flight, after: System)
    requires RateKept(s) && k in s.flights && FlightKeepsRate(s, f)
    requires after.flights == s.flights[k := f]
    requires after.rate == s.rate && after.slippage == s.slippage
    requires Ideal(s, after.totalSent) <= after.totalDelivered * Scale(s) + 2 * after.fulfilled * Scale(s)
    ensures RateKept(after)
  {}

  lemma ArriveKeepsRate(s: System, k: nat, incoming: U64)
    requires RateKept(s) && k in s.flights && s.flights[k].receipt.Away?
    ensures RateKept(ArriveAtPeer(s, k, incoming))
  {}

  lemma AnswerTotals(s: System, f: Flight)
    requires RateKept(s) && FlightKeepsRate(s, f) && f.receipt.Kept?
    ensures Ideal(s, s.totalSent + f.amount) <=
            (s.totalDelivered + f.receipt.incoming) * Scale(s) + 2 * (s.fulfilled + 1) * Scale(s)
  {
    AnswerKeepsRate(s.totalSent, f.amount, s.totalDelivered, f.receipt.incoming, f.minimum, s.fulfilled,
                    s.rate.a, s.slippage.b - s.slippage.a, Scale(s));
  }

  lemma AnswerStepKeepsRate(s: System, k: nat)
    requires RateKept(s) && Conserved(s) && Enabled(s, Answer(k))
    ensures RateKept(Next(s, Answer(k)))
  {
    AnswerFits(s, k);
    assert FlightKeepsRate(s, s.flights[k]);
    AnswerTotals(s, s.flights[k]);
    FlightStepKeepsRate(s, k, s.flights[k].(outcome := Paid), Next(s, Answer(k)));
  }

  lemma QuietStepKeepsRate(s: System, t: Step)
    requires RateKept(s) && Enabled(s, t) && (t.Finish? || t.Refuse? || t.Reject? || t.Withhold?)
    ensures RateKept(Next(s, t))
  {
    assert FlightKeepsRate(s, s.flights[t.k]);
    FlightStepKeepsRate(s, t.k, Next(s, t).flights[t.k], Next(s, t));
  }

  lemma StepKeepsRate(s: System, t: Step)
    requires RateKept(s) && Conserved(s) && Enabled(s, t)
    ensures RateKept(Next(s, t))
  {
    if t.Finish? || t.Refuse? || t.Reject? || t.Withhold? {
      QuietStepKeepsRate(s, t);
    } else {
      match t {
        case Load(testMaximum) => LoadKeepsRate(s, testMaximum);
        case Arrive(k, incoming) => ArriveKeepsRate(s, k, incoming);
        case Answer(k) => AnswerStepKeepsRate(s, k);
        case _ =>
      }
    }
  }

  // ----- whole runs

  ghost predicate Sound(s: System) {
    Configured(s) && Conserved(s) && PaidIsKept(s) && Balanced(s) && Informed(s)
  }

  lemma StepKeepsAll(s: System, t: Step)
    requires Sound(s) && Enabled(s, t)
    ensures Sound(Next(s, t))
  {
    StepConserves(s, t);
    StepIsBalanced(s, t);
    StepIsInformed(s, t);
  }

  lemma {:induction false} RunKeepsAll(s: System, steps: seq<Step>, last: System)
    requires Run(s, steps, last) && Sound(s)
    ensures Sound(last) && (RateKept(s) ==> RateKept(last))
    decreases |steps|
  {
    if steps != [] {
      StepKeepsAll(s, steps[0]);
      if RateKept(s) { StepKeepsRate(s, steps[0]); }
      RunKeepsAll(Next(s, steps[0]), steps[1..], last);
    }
  }

  lemma StartHolds(s: System)
    requires Start(s)
    ensures Sound(s) && (Divides(s) ==> RateKept(s))
  {}

  /** Two-endpoint conservation, on every run without an overflow error at the sender. */
  lemma MoneyIsConserved(s: System, steps: seq<Step>, last: System)
    requires Start(s) && Run(s, steps, last)
    ensures last.totalDelivered + SumMap(Unreported(last.flights)) == last.peer.total
    ensures last.totalSent == SumSent(last.streams)
    ensures forall i :: 0 <= i < |last.streams| ==>
              NoMoreThanReceived(last.peer, i, last.streams[i].remote.received)
  {
    StartHolds(s);
    RunKeepsAll(s, steps, last);
  }

  /** totalDelivered >= rate * (1 - slippage) * totalSent - 2 * packets, whatever the connector
      converts, rejects or loses; both sides are multiplied by the two denominators. */
  lemma SlippageBound(s: System, steps: seq<Step>, last: System)
    requires Start(s) && Divides(s) && Run(s, steps, last)
    ensures Ideal(last, last.totalSent) <= last.totalDelivered * Scale(last) + 2 * last.fulfilled * Scale(last)
  {
    StartHolds(s);
    RunKeepsAll(s, steps, last);
  }

  /** Holds of open packets: under every sequence number without an outcome the streams hold
      the packet's shares, and no sequence number is ever used again. */
  lemma OpenPacketsAreHeld(s: System, steps: seq<Step>, last: System, k: nat)
    requires Start(s) && Run(s, steps, last) && k in last.flights && last.flights[k].outcome.Open?
    ensures k < last.nextSequence && FlightHeld(last.streams, k, last.flights[k].shares)
  {
    StartHolds(s);
    RunKeepsAll(s, steps, last);
    OpenIsHeld(last, k);
  }

  /** And which money stays locked: a stream holds something under a number exactly if that packet took
      money from it and has no outcome, was fulfilled without data, or was rejected after the stream's
      record had been removed. It holds its share then. */
  lemma HoldsAreExplained(s: System, steps: seq<Step>, last: System, i: nat, k: nat)
    requires Start(s) && Run(s, steps, last) && i < |last.streams|
    ensures var holds := last.streams[i].ledger.holds;
            && (k in holds <==>
                k in last.flights && Locks(last.flights[k], i) && ShareAt(last.flights[k].shares, i) > 0)
            && (k in holds ==> holds[k] == ShareAt(last.flights[k].shares, i))
  {
    StartHolds(s);
    RunKeepsAll(s, steps, last);
    assert HoldIsDue(last.streams, last.flights, i, k);
  }

  // ----- what a stream can spend

  ghost predicate LedgersSound(streams: seq<View>) {
    forall i :: 0 <= i < |streams| ==> HoldLedgers.Sound(streams[i].ledger, MAX)
  }

  /** An accepted limit is guarded. */
  ghost predicate Careful(s: System, t: Step)
    requires Enabled(s, t)
  {
    t.SetLimit? && Accepts(s.streams[t.i].ledger, Limit(t.limit)) ==> Guarded(s.streams[t.i].ledger, t.limit)
  }

  ghost predicate CarefulRun(s: System, steps: seq<Step>)
    decreases |steps|
  {
    steps != [] && Configured(s) && Enabled(s, steps[0]) ==>
      Careful(s, steps[0]) && CarefulRun(Next(s, steps[0]), steps[1..])
  }

  lemma WithHoldsIsSound(streams: seq<View>, k: nat, shares: seq<U64>)
    requires LedgersSound(streams) && |shares| == |streams|
    requires forall i :: 0 <= i < |streams| ==> k !in streams[i].ledger.holds
    ensures LedgersSound(WithHolds(streams, k, shares))
  {
    forall i | 0 <= i < |streams| ensures HoldLedgers.Sound(WithHolds(streams, k, shares)[i].ledger, MAX) {
      HoldLedgers.StepIsSound(streams[i].ledger, Reserve(k, Some(shares[i])), MAX);
    }
  }

  lemma ResolveIsSound(streams: seq<View>, shares: seq<U64>, k: nat, pay: bool, removed: set<nat>)
    requires LedgersSound(streams)
    ensures LedgersSound(Resolve(streams, shares, k, pay, removed))
  {
    forall i | 0 <= i < |streams|
      ensures HoldLedgers.Sound(Resolve(streams, shares, k, pay, removed)[i].ledger, MAX)
    {
      HoldLedgers.StepIsSound(streams[i].ledger, if pay then Pay(k) else Undo(k), MAX);
    }
  }

  lemma StepKeepsLedgersSound(s: System, t: Step)
    requires Configured(s) && Balanced(s) && LedgersSound(s.streams) && Enabled(s, t) && Careful(s, t)
    ensures LedgersSound(Next(s, t).streams)
  {
    match t {
      case SetLimit(i, limit) => HoldLedgers.StepIsSound(s.streams[i].ledger, Limit(limit), MAX);
      case Load(testMaximum) =>
        NewIsNotHeld(s);
        WithHoldsIsSound(s.streams, s.nextSequence, SharesLoaded(s, testMaximum));
      case Answer(k) => ResolveIsSound(s.streams, s.flights[k].shares, k, true, {});
      case Reject(k, removed) => ResolveIsSound(s.streams, s.flights[k].shares, k, false, removed);
      case _ =>
    }
  }

  lemma {:induction false} RunKeepsLedgersSound(s: System, steps: seq<Step>, last: System)
    requires Run(s, steps, last) && CarefulRun(s, steps) && Balanced(s) && LedgersSound(s.streams)
    ensures LedgersSound(last.streams)
    decreases |steps|
  {
    if steps != [] {
      StepIsBalanced(s, steps[0]);
      StepKeepsLedgersSound(s, steps[0]);
      RunKeepsLedgersSound(Next(s, steps[0]), steps[1..], last);
    }
  }

  /** In every run with guarded limits a stream's held amount is the sum of its holds and it never
      finds more to spend than its limit leaves. */
  lemma SpendsWhatIsLeft(s: System, steps: seq<Step>, last: System, i: nat)
    requires Start(s) && Run(s, steps, last) && CarefulRun(s, steps) && i < |last.streams|
    ensures var l := last.streams[i].ledger;
            l.held == SumMap(l.holds) && (!l.closed ==> Available(l) == Unspent(l))
  {
    StartHolds(s);
    RunKeepsLedgersSound(s, steps, last);
    if !last.streams[i].ledger.closed { HoldLedgers.SoundIsAvailable(last.streams[i].ledger, MAX); }
  }
}
