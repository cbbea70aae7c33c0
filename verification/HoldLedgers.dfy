/** The sending side of a stream's money: what was sent, what is held for packets
    without a response, and the limit set by the user. */
module HoldLedgers {
  import opened Long64
  import opened Maps
  import opened Wrappers

  datatype Ledger = Ledger(totalSent: U64, sendMax: U64, held: U64, holds: map<nat, U64>, closed: bool)

  const FRESH: Ledger := Ledger(0, 0, 0, map[], false)

  // ----- one operation

  function Available(l: Ledger): U64 {
    if l.closed then 0
    else CheckedSubtract(CheckedSubtract(l.sendMax, l.totalSent).value, l.held).value
  }

  function SetSendMax(l: Ledger, limit: U64): Result<Ledger> {
    if l.closed then Err(StreamClosed)
    else if l.totalSent > limit then Err(LimitTooLow)
    else Ok(l.(sendMax := limit))
  }

  function ToHold(l: Ledger, maxAmount: Option<U64>): U64 {
    if maxAmount.Some? then Min(Available(l), maxAmount.value) else Available(l)
  }

  function Hold(l: Ledger, id: nat, maxAmount: Option<U64>): Ledger {
    var amount := ToHold(l, maxAmount);
    if amount > 0 then l.(held := Add(l.held, amount), holds := l.holds[id := amount]) else l
  }

  function Execute(l: Ledger, id: nat): Ledger {
    if id !in l.holds then l
    else l.(held := Sub(l.held, l.holds[id]), totalSent := Add(l.totalSent, l.holds[id]), holds := l.holds - {id})
  }

  function Cancel(l: Ledger, id: nat): Ledger {
    if id !in l.holds then l
    else l.(held := Sub(l.held, l.holds[id]), holds := l.holds - {id})
  }

  /** What the peer last said about its side of the stream. */
  datatype Remote = Remote(received: U64, receiveMax: U64, sentEnd: bool)

  /** The stream object, which updates the ledger in place. */
  class MoneyStream {
    const id: nat
    var remote: Remote
    var totalSent: U64
    var sendMax: U64
    var outgoingHeldAmount: U64
    var holds: map<nat, U64>
    var closed: bool

    ghost function State(): Ledger
      reads this
    {
      Ledger(totalSent, sendMax, outgoingHeldAmount, holds, closed)
    }

    constructor (id: nat)
      ensures State() == FRESH && this.id == id
    {
      this.id := id;
      remote := Remote(0, MAX, false);
      totalSent, sendMax, outgoingHeldAmount, holds, closed := 0, 0, 0, map[], false;
    }

    method SetLimit(limit: U64) returns (error: Option<Error>)
      modifies this`sendMax
      ensures match SetSendMax(old(State()), limit)
              case Ok(l) => error == None && State() == l
              case Err(e) => error == Some(e) && State() == old(State())
    {
      if closed {
        return Some(StreamClosed);
      }
      if totalSent > limit {
        return Some(LimitTooLow);
      }
      sendMax := limit;
      return None;
    }

    function GetAmountAvailableToSend(): (r: U64)
      reads this
      ensures r == Available(State())
    {
      if closed then 0
      else CheckedSubtract(CheckedSubtract(sendMax, totalSent).value, outgoingHeldAmount).value
    }

    method HoldOutgoing(holdId: nat, maxAmount: Option<U64>) returns (amountToHold: U64)
      modifies this`outgoingHeldAmount, this`holds
      ensures State() == Hold(old(State()), holdId, maxAmount) && amountToHold == ToHold(old(State()), maxAmount)
    {
      var amountAvailable := GetAmountAvailableToSend();
      amountToHold := if maxAmount.Some? then Min(amountAvailable, maxAmount.value) else amountAvailable;
      if amountToHold > 0 {
        outgoingHeldAmount := Add(outgoingHeldAmount, amountToHold);
        holds := holds[holdId := amountToHold];
      }
    }

    method ExecuteHold(holdId: nat)
      modifies this`outgoingHeldAmount, this`totalSent, this`holds
      ensures State() == Execute(old(State()), holdId)
    {
      if holdId !in holds {
        return;
      }
      var amount := holds[holdId];
      outgoingHeldAmount := Sub(outgoingHeldAmount, amount);
      totalSent := Add(totalSent, amount);
      holds := holds - {holdId};
    }

    method CancelHold(holdId: nat)
      modifies this`outgoingHeldAmount, this`holds
      ensures State() == Cancel(old(State()), holdId)
    {
      if holdId !in holds {
        return;
      }
      var amount := holds[holdId];
      outgoingHeldAmount := Sub(outgoingHeldAmount, amount);
      holds := holds - {holdId};
    }
  }

  // ----- the amount available

  /** The limit minus everything sent or held, and never negative. */
  ghost function Unspent(l: Ledger): nat {
    if l.totalSent + l.held <= l.sendMax then l.sendMax - l.totalSent - l.held else 0
  }

  /** The amount reported is the true one exactly while both subtractions are in the range
      where an underflow is noticed. */
  lemma AvailableExactly(l: Ledger)
    requires !l.closed && l.totalSent + l.held <= MAX
    ensures Available(l) == Unspent(l) <==>
            && (l.totalSent <= l.sendMax || 2 * l.totalSent < TWO64 + l.sendMax)
            && var left := if l.totalSent <= l.sendMax then l.sendMax - l.totalSent else 0;
               (l.held <= left || 2 * l.held < TWO64 + left)
  {}

  // ----- runs

  datatype Event =
    | Limit(limit: U64)
    | Reserve(id: nat, maxAmount: Option<U64>)
    | Pay(id: nat)
    | Undo(id: nat)
    | Close

  function Next(l: Ledger, e: Event): Ledger {
    match e
    case Limit(limit) => (match SetSendMax(l, limit) case Ok(l1) => l1 case Err(_) => l)
    case Reserve(id, maxAmount) => Hold(l, id, maxAmount)
    case Pay(id) => Execute(l, id)
    case Undo(id) => Cancel(l, id)
    case Close => l.(closed := true)
  }

  ghost predicate Accepts(l: Ledger, e: Event) { e.Limit? && SetSendMax(l, e.limit).Ok? }

  /** Can be checked before a limit is set: everything sent or held is below the limit, or the
      comparison that looks for an underflow would still see that it is not. */
  ghost predicate Guarded(l: Ledger, limit: U64) {
    var used := l.totalSent + l.held;
    used <= limit || 2 * used < TWO64 + limit
  }

  /** `peak` is the largest limit ever set. */
  ghost predicate Exact(l: Ledger, peak: U64) {
    l.held == SumMap(l.holds) && l.totalSent + l.held <= peak
  }

  ghost predicate Sound(l: Ledger, peak: U64) { Exact(l, peak) && l.sendMax <= peak && Guarded(l, l.sendMax) }

  /** Hold ids are the sequence numbers of packets, which are never used twice. */
  ghost predicate Fresh(l: Ledger, e: Event) { e.Reserve? ==> e.id !in l.holds }

  ghost function Peak(l: Ledger, e: Event, peak: U64): U64 {
    Max(peak, Next(l, e).sendMax)
  }

  lemma SoundIsAvailable(l: Ledger, peak: U64)
    requires Sound(l, peak) && !l.closed
    ensures Available(l) == Unspent(l)
  {
    AvailableExactly(l);
  }

  /** As long as accepted limits are guarded nothing wraps: the held amount is the sum of the
      holds, and sent plus held never exceed the largest limit. */
  lemma StepIsSound(l: Ledger, e: Event, peak: U64)
    requires Sound(l, peak) && Fresh(l, e) && (Accepts(l, e) ==> Guarded(l, e.limit))
    ensures Sound(Next(l, e), Peak(l, e, peak))
  {
    match e {
      case Reserve(id, maxAmount) =>
        SumMapAdd(l.holds, id, ToHold(l, maxAmount));
        if !l.closed { SoundIsAvailable(l, peak); }
      case Pay(id) => if id in l.holds { SumMapWithout(l.holds, id); }
      case Undo(id) => if id in l.holds { SumMapWithout(l.holds, id); }
      case _ =>
    }
  }

  ghost function Run(l: Ledger, events: seq<Event>): Ledger
    decreases |events|
  {
    if events == [] then l else Run(Next(l, events[0]), events[1..])
  }

  lemma {:induction false} RunThenRun(l: Ledger, events: seq<Event>, more: seq<Event>)
    ensures Run(l, events + more) == Run(Run(l, events), more)
    decreases |events|
  {
    if events == [] {
      assert events + more == more;
    } else {
      RunThenRun(Next(l, events[0]), events[1..], more);
      assert (events + more)[1..] == events[1..] + more;
    }
  }

  ghost predicate FreshRun(l: Ledger, events: seq<Event>)
    decreases |events|
  {
    events != [] ==> Fresh(l, events[0]) && FreshRun(Next(l, events[0]), events[1..])
  }

  ghost predicate GuardedRun(l: Ledger, events: seq<Event>)
    decreases |events|
  {
    events != [] ==>
      && (Accepts(l, events[0]) ==> Guarded(l, events[0].limit))
      && GuardedRun(Next(l, events[0]), events[1..])
  }

  // ----- exactly the guarded runs are safe

  ghost predicate NoLimits(events: seq<Event>) { forall i :: 0 <= i < |events| ==> !events[i].Limit? }

  /** Whatever happens without a new limit, the books stay exact. */
  ghost predicate StaysExact(l: Ledger, peak: U64) {
    forall events :: FreshRun(l, events) && NoLimits(events) ==> Exact(Run(l, events), peak)
  }

  ghost predicate AlwaysStaysExact(l: Ledger, events: seq<Event>, peak: U64)
    decreases |events|
  {
    && StaysExact(l, peak)
    && (events != [] ==> AlwaysStaysExact(Next(l, events[0]), events[1..], Peak(l, events[0], peak)))
  }

  lemma {:induction false} SoundStaysExact(l: Ledger, events: seq<Event>, peak: U64)
    requires Sound(l, peak) && FreshRun(l, events) && NoLimits(events)
    ensures Exact(Run(l, events), peak)
    decreases |events|
  {
    if events != [] {
      StepIsSound(l, events[0], peak);
      assert Next(l, events[0]).sendMax == l.sendMax;
      SoundStaysExact(Next(l, events[0]), events[1..], peak);
    }
  }

  /** After a limit that is not guarded: paying every hold and then reserving what is reported
      as available brings sent plus held to 2^64 above the limit. */
  lemma {:induction false} UnguardedOverspends(l: Ledger, peak: U64) returns (events: seq<Event>)
    requires Exact(l, peak) && !l.closed && !Guarded(l, l.sendMax)
    ensures FreshRun(l, events) && NoLimits(events)
    ensures Run(l, events).totalSent + Run(l, events).held == TWO64 + l.sendMax
    decreases |l.holds|
  {
    if l.holds == map[] {
      events := [Reserve(0, None)];
      assert Run(Next(l, events[0]), []) == Next(l, events[0]);
    } else {
      var k :| k in l.holds;
      SumMapWithout(l.holds, k);
      var rest := UnguardedOverspends(Next(l, Pay(k)), peak);
      events := [Pay(k)] + rest;
      assert events[1..] == rest;
    }
  }

  /** A limit that is accepted is safe if and only if it is guarded. */
  lemma LimitIsSafe(l: Ledger, limit: U64, peak: U64)
    requires Sound(l, peak) && SetSendMax(l, limit).Ok?
    ensures StaysExact(l.(sendMax := limit), Max(peak, limit)) <==> Guarded(l, limit)
  {
    var after, top := l.(sendMax := limit), Max(peak, limit);
    if Guarded(l, limit) {
      forall events | FreshRun(after, events) && NoLimits(events) ensures Exact(Run(after, events), top) {
        SoundStaysExact(after, events, top);
      }
    } else {
      var events := UnguardedOverspends(after, top);
      assert !Exact(Run(after, events), top);
    }
  }

  lemma {:induction false} RunIsSafe(l: Ledger, events: seq<Event>, peak: U64)
    requires Sound(l, peak) && FreshRun(l, events)
    ensures AlwaysStaysExact(l, events, peak) <==> GuardedRun(l, events)
    decreases |events|
  {
    forall tail | FreshRun(l, tail) && NoLimits(tail) ensures Exact(Run(l, tail), peak) {
      SoundStaysExact(l, tail, peak);
    }
    if events != [] {
      var e := events[0];
      if Accepts(l, e) { LimitIsSafe(l, e.limit, peak); }
      if Accepts(l, e) ==> Guarded(l, e.limit) {
        StepIsSound(l, e, peak);
        RunIsSafe(Next(l, e), events[1..], Peak(l, e, peak));
      }
    }
  }

  /** From a new stream on: the held amount is the sum of the holds and sent plus held stay within
      the largest limit, at every moment and whatever follows it without a new limit, if and only
      if every accepted limit was guarded. */
  lemma LedgerIsSafe(events: seq<Event>)
    requires FreshRun(FRESH, events)
    ensures AlwaysStaysExact(FRESH, events, 0) <==> GuardedRun(FRESH, events)
  {
    RunIsSafe(FRESH, events, 0);
  }

  /** After an accepted limit a stream exceeds it at most by what was held at the time: a limit below the
      total sent is never accepted. */
  lemma {:induction false} ExcessWasHeld(l: Ledger, limit: U64, peak: U64, events: seq<Event>)
    requires Sound(l, peak) && Accepts(l, Limit(limit)) && Guarded(l, limit)
    requires FreshRun(Next(l, Limit(limit)), events) && NoLimits(events)
    ensures var m := Run(Next(l, Limit(limit)), events); m.sendMax == limit && m.totalSent + m.held <= limit + l.held
  {
    StepIsSound(l, Limit(limit), peak);
    RunStaysWithin(Next(l, Limit(limit)), events, Max(peak, limit), limit + l.held);
  }

  lemma StepUses(l: Ledger, e: Event, peak: U64)
    requires Sound(l, peak) && Fresh(l, e) && !Accepts(l, e)
    ensures var n := Next(l, e);
            && n.sendMax == l.sendMax
            && (n.totalSent + n.held <= l.totalSent + l.held || (!l.closed && n.totalSent + n.held <= l.sendMax))
  {
    match e {
      case Reserve(_, _) => if !l.closed { SoundIsAvailable(l, peak); }
      case Pay(id) => if id in l.holds { EachIsBelowSum(l.holds, id); }
      case Undo(id) => if id in l.holds { EachIsBelowSum(l.holds, id); }
      case _ =>
    }
  }

  lemma {:induction false} RunStaysWithin(l: Ledger, events: seq<Event>, peak: U64, most: nat)
    requires Sound(l, peak) && FreshRun(l, events) && NoLimits(events)
    requires l.totalSent + l.held <= most && l.sendMax <= most
    ensures Run(l, events).totalSent + Run(l, events).held <= most && Run(l, events).sendMax == l.sendMax
    decreases |events|
  {
    if events != [] {
      StepIsSound(l, events[0], peak);
      StepUses(l, events[0], peak);
      RunStaysWithin(Next(l, events[0]), events[1..], peak, most);
    }
  }

  /** A closed stream takes no new limit and no new money: what it has sent and holds never grows. */
  lemma {:induction false} ClosedSpendsNothingNew(l: Ledger, events: seq<Event>, peak: U64)
    requires Sound(l, peak) && l.closed && FreshRun(l, events)
    ensures var m := Run(l, events);
            m.closed && m.sendMax == l.sendMax && m.totalSent + m.held <= l.totalSent + l.held
    decreases |events|
  {
    if events != [] {
      StepIsSound(l, events[0], peak);
      StepUses(l, events[0], peak);
      ClosedSpendsNothingNew(Next(l, events[0]), events[1..], peak);
    }
  }

  /** Closing a stream closes it, and cancelling what was just held undoes it. */
  lemma HoldThenCancel(l: Ledger, id: nat, maxAmount: Option<U64>, peak: U64)
    requires Sound(l, peak) && id !in l.holds
    ensures Cancel(Hold(l, id, maxAmount), id) == l && Next(l, Close).closed
  {
    StepIsSound(l, Reserve(id, maxAmount), peak);
    assert Hold(l, id, maxAmount).holds - {id} == l.holds;
  }

  /** Executing it moves it to the total sent. */
  lemma HoldThenExecute(l: Ledger, id: nat, maxAmount: Option<U64>, peak: U64)
    requires Sound(l, peak) && id !in l.holds
    ensures Execute(Hold(l, id, maxAmount), id) == l.(totalSent := l.totalSent + ToHold(l, maxAmount))
    ensures !l.closed ==> ToHold(l, maxAmount) ==
                          if maxAmount.Some? && maxAmount.value < Unspent(l) then maxAmount.value else Unspent(l)
  {
    StepIsSound(l, Reserve(id, maxAmount), peak);
    if !l.closed { SoundIsAvailable(l, peak); }
    assert Hold(l, id, maxAmount).holds - {id} == l.holds;
  }

  /** A sender whose limits are all below 2^63 never sets one that is not guarded. */
  lemma {:induction false} SmallLimitsAreGuarded(l: Ledger, events: seq<Event>, peak: U64)
    requires Sound(l, peak) && FreshRun(l, events)
    requires peak < TWO63 && (forall i :: 0 <= i < |events| && events[i].Limit? ==> events[i].limit < TWO63)
    ensures GuardedRun(l, events)
    decreases |events|
  {
    if events != [] {
      StepIsSound(l, events[0], peak);
      SmallLimitsAreGuarded(Next(l, events[0]), events[1..], Peak(l, events[0], peak));
    }
  }

  /** An input: lowering a limit of 2^64 - 1 to 0 while everything is held frees one phantom unit,
      and holding it wraps the held amount to zero. */
  lemma LoweredLimitWraps()
    ensures var events := [Limit(MAX), Reserve(1, None), Limit(0), Reserve(2, None)];
            var l := Run(FRESH, events);
            l.held == 0 && l.holds == map[1 := MAX, 2 := 1]
  {
    var l1 := FRESH.(sendMax := MAX);
    var l2 := l1.(held := MAX, holds := map[1 := MAX]);
    var l3 := l2.(sendMax := 0);
    var l4 := l3.(held := 0, holds := map[1 := MAX, 2 := 1]);
    assert Next(FRESH, Limit(MAX)) == l1 && Next(l1, Reserve(1, None)) == l2;
    assert Next(l2, Limit(0)) == l3 && Next(l3, Reserve(2, None)) == l4;
    assert Run(l3, [Reserve(2, None)]) == Run(l4, []);
    assert Run(l2, [Limit(0), Reserve(2, None)]) == l4;
    assert Run(l1, [Reserve(1, None), Limit(0), Reserve(2, None)]) == l4;
  }
}
