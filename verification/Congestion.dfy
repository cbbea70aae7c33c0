/** The probing state machine that finds the path's maximum packet amount. */
module Congestion {
  import opened Arith
  import opened Long64
  import opened MultiplyDivide
  import opened Wrappers

  /** The three fields of the controller. */
  datatype Limits = Limits(test: U64, max: U64, fixed: U64) {
    function Cap(): U64 { Min(max, fixed) }
  }

  /** The two numbers an F08 reject may carry; None when its data cannot be parsed. */
  datatype Report = Report(received: U64, maximum: U64)

  datatype Event =
    | Fulfilled(sent: U64)
    | TooLarge(sent: U64, report: Option<Report>)
    | NoLiquidity(sent: U64)

  class CongestionController {
    var testMaximumPacketAmount: U64
    var maximumAmount: U64
    const fixedPacketAmount: U64

    ghost function State(): Limits
      reads this
    {
      Limits(testMaximumPacketAmount, maximumAmount, fixedPacketAmount)
    }

    constructor (maximumPacketAmount: Option<U64>)
      ensures State() == Initial(if maximumPacketAmount.Some? then maximumPacketAmount.value else MAX)
    {
      testMaximumPacketAmount := MAX;
      maximumAmount := MAX;
      fixedPacketAmount := if maximumPacketAmount.Some? then maximumPacketAmount.value else MAX;
    }

    function MaximumPacketAmount(): (r: U64)
      reads this
    {
      Min(maximumAmount, fixedPacketAmount)
    }

    /** What finding the exchange rate with test packets sets. */
    method SetMaximumAmounts(amount: U64)
      modifies this
      ensures State() == Started(amount, fixedPacketAmount)
    {
      testMaximumPacketAmount := amount;
      maximumAmount := amount;
    }

    method OnFulfill(amountSent: U64)
      modifies this
      ensures State() == Next(old(State()), Fulfilled(amountSent))
    {
      var cap := MaximumPacketAmount();
      var shouldRaiseLimit := amountSent == testMaximumPacketAmount && testMaximumPacketAmount < cap;
      if !shouldRaiseLimit {
        return;
      }
      var newTestMax;
      if cap != MAX {
        var additiveIncrease := cap / 10;
        newTestMax := Min(CheckedAdd(testMaximumPacketAmount, additiveIncrease).value, cap);
      } else {
        newTestMax := CheckedMultiply(testMaximumPacketAmount, 2).value;
      }
      testMaximumPacketAmount := newTestMax;
    }

    method OnAmountTooLargeError(report: Option<Report>, amountSent: U64) returns (newMaximum: U64)
      modifies this
      ensures State() == Next(old(State()), TooLarge(amountSent, report))
      ensures newMaximum == State().Cap()
    {
      if report.Some? && report.value.received > report.value.maximum {
        var quo, rem := Compute(amountSent, report.value.maximum, report.value.received);
        maximumAmount := quo;
        testMaximumPacketAmount := quo;
      } else {
        maximumAmount := Sub(amountSent, 1);
        testMaximumPacketAmount := MaximumPacketAmount() / 2;
      }
      newMaximum := MaximumPacketAmount();
    }

    method OnInsufficientLiquidityError(amountSent: U64)
      modifies this
      ensures State() == Next(old(State()), NoLiquidity(amountSent))
    {
      var minPacketAmount := Min(amountSent, testMaximumPacketAmount);
      var newTestAmount := Sub(minPacketAmount, minPacketAmount / 3);
      testMaximumPacketAmount := Max(2, newTestAmount);
    }
  }

  /** Before anything was sent at full size. */
  function Started(amount: U64, fixed: U64): Limits { Limits(amount, amount, fixed) }

  function Initial(fixed: U64): Limits { Started(MAX, fixed) }

  /** A saturating reading of one event: nothing wraps except the amount 0 - 1. */
  function Next(s: Limits, e: Event): Limits {
    match e
    case Fulfilled(sent) =>
      if sent != s.test || s.test >= s.Cap() then s
      else if s.Cap() != MAX then s.(test := if s.test + s.Cap() / 10 > s.Cap() then s.Cap() else s.test + s.Cap() / 10)
      else s.(test := if s.test == 0 || 2 * s.test > MAX then MAX else 2 * s.test)
    case TooLarge(sent, report) =>
      if report.Some? && report.value.received > report.value.maximum then
        var m := Floor(sent, report.value.maximum, report.value.received);
        Limits(m, m, s.fixed)
      else
        var m := if sent == 0 then MAX else sent - 1;
        Limits((if m < s.fixed then m else s.fixed) / 2, m, s.fixed)
    case NoLiquidity(sent) =>
      var m := if sent < s.test then sent else s.test;
      s.(test := if m - m / 3 > 2 then m - m / 3 else 2)
  }

  // ----- the probe never runs ahead of what is known

  /** No packet is larger than the current test amount; many carry no money at all. */
  ghost predicate Plausible(s: Limits, e: Event) { e.sent <= s.test }

  ghost predicate TestBelowCap(s: Limits) { s.test <= Max(2, s.Cap()) }

  /** A reported ratio below one never raises the amount, and lowers a positive one. */
  lemma ReportShrinks(sent: U64, r: Report)
    requires r.maximum < r.received
    ensures Floor(sent, r.maximum, r.received) <= sent
    ensures sent > 0 ==> Floor(sent, r.maximum, r.received) < sent
  {
    var n, quo := sent * r.maximum, Floor(sent, r.maximum, r.received);
    MulMonoStrict(r.maximum, r.received, sent);
    MulMono(sent, MAX, r.received);
    NeverExceeds(sent, r.maximum, r.received, n);
    if sent > 0 { MulCancel(quo, sent, r.received); } else { MulCancel(quo, 1, r.received); }
  }

  lemma TestStaysBelowCap(s: Limits, e: Event)
    requires TestBelowCap(s) && Plausible(s, e)
    ensures TestBelowCap(Next(s, e))
  {
    if e.TooLarge? && e.report.Some? && e.report.value.received > e.report.value.maximum {
      ReportShrinks(e.sent, e.report.value);
    }
  }

  /** When the exchange rate is fixed, the first packets are bounded by 2^64 - 1 only. */
  lemma InitiallyBelowCap(amount: U64, fixed: U64)
    ensures TestBelowCap(Started(amount, fixed)) <==> amount <= Max(2, fixed)
    ensures TestBelowCap(Initial(fixed)) <==> fixed == MAX
  {}

  /** The event that first brings the test amount below the cap: a fulfill never does, an F08 without
      a usable report always does, and otherwise it depends on the amount that is left. */
  lemma FirstBelowCap(s: Limits, e: Event)
    requires !TestBelowCap(s)
    ensures TestBelowCap(Next(s, e)) <==>
            match e
            case Fulfilled(_) => false
            case TooLarge(sent, report) =>
              report.Some? && report.value.received > report.value.maximum ==>
                Floor(sent, report.value.maximum, report.value.received) <= Max(2, s.fixed)
            case NoLiquidity(sent) => Min(sent, s.test) - Min(sent, s.test) / 3 <= Max(2, s.Cap())
  {}

  /** Only a fulfilled packet of the full test amount raises it, and never above the cap. */
  lemma OnlyFullSizeRaises(s: Limits, sent: U64)
    ensures var n := Next(s, Fulfilled(sent));
            && n.max == s.max && n.fixed == s.fixed
            && (n.test != s.test ==> sent == s.test < n.test <= s.Cap())
  {}

  /** A usable report gives the largest amount that the ratio does not scale above the reported maximum. */
  lemma ReportFindsMaximum(s: Limits, sent: U64, r: Report)
    requires r.maximum < r.received <= TWO63
    ensures var n := Next(s, TooLarge(sent, Some(r)));
            && n.test == n.max && n.fixed == s.fixed
            && n.max * r.received <= sent * r.maximum < (n.max + 1) * r.received
  {
    var n := sent * r.maximum;
    MulMono(r.maximum, r.received, sent);
    MulMonoStrict(sent, TWO64, r.received);
    ExactWhenFits(sent, r.maximum, r.received, n);
    var quo := Floor(sent, r.maximum, r.received);
    assert (quo + 1) * r.received == quo * r.received + r.received;
  }

  /** Without one, the packet was at least one unit too large, and half of what is left is tried next. */
  lemma NoReportHalves(s: Limits, sent: U64, report: Option<Report>)
    requires report.Some? ==> report.value.received <= report.value.maximum
    requires sent > 0
    ensures var n := Next(s, TooLarge(sent, report));
            n.max == sent - 1 && n.fixed == s.fixed && 2 * n.test <= n.Cap() <= 2 * n.test + 1
  {}

  /** A T04 takes a third, rounded down, off the smaller of the packet and the test amount; two units stay. */
  lemma ThirdIsCut(s: Limits, sent: U64)
    ensures var n, m := Next(s, NoLiquidity(sent)), Min(sent, s.test);
            && n.max == s.max && n.fixed == s.fixed
            && (if m <= 2 then n.test == 2 else 2 * m <= 3 * n.test <= 2 * m + 2)
  {}

  /** An input: an F08 for a packet without money makes the controller forget the maximum, or, with a report,
      brings the maximum to zero. */
  lemma EmptyPacketRejected(s: Limits, r: Report)
    requires r.maximum < r.received
    ensures Next(s, TooLarge(0, None)).max == MAX
    ensures Next(s, TooLarge(0, Some(r))).Cap() == 0
  {
    ReportShrinks(0, r);
  }

  // ----- convergence against a path that rejects exactly what exceeds `path`

  /** The ratio a report gives does not scale the amount below the path limit. */
  ghost predicate Covers(sent: U64, r: Report, path: U64) {
    r.received > r.maximum ==> path * r.received <= sent * r.maximum
  }

  /** F08 only answers packets above the path limit, and its report is right and fits the 64-bit division. */
  ghost predicate Honest(e: Event, path: U64) {
    e.TooLarge? ==>
      && e.sent > path
      && (e.report.Some? ==> Covers(e.sent, e.report.value, path) && e.report.value.received <= TWO63)
  }

  lemma ReportKeepsPath(sent: U64, r: Report, path: U64)
    requires r.maximum < r.received <= TWO63 && Covers(sent, r, path)
    ensures path <= Floor(sent, r.maximum, r.received)
  {
    var n, quo := sent * r.maximum, Floor(sent, r.maximum, r.received);
    MulMono(r.maximum, r.received, sent);
    MulMonoStrict(sent, TWO64, r.received);
    ExactWhenFits(sent, r.maximum, r.received, n);
    if quo < path { MulMonoStrict(quo, path, r.received); }
  }

  /** Right reports with this received amount keep the maximum on the path limit. */
  ghost predicate KeepsPath(received: U64) {
    forall sent: U64, maximum: U64, path: U64 {:trigger Covers(sent, Report(received, maximum), path)} ::
      2 <= path < sent && maximum < received && Covers(sent, Report(received, maximum), path) ==>
        path <= Floor(sent, maximum, received)
  }

  /** Above 2^63 a right report for a packet of three units brings the maximum below a path limit of two. */
  lemma ReportLimit(received: U64)
    ensures KeepsPath(received) <==> received <= TWO63
  {
    if received <= TWO63 {
      forall sent: U64, maximum: U64, path: U64
        | 2 <= path < sent && maximum < received && Covers(sent, Report(received, maximum), path)
        ensures path <= Floor(sent, maximum, received)
      {
        ReportKeepsPath(sent, Report(received, maximum), path);
      }
    } else {
      ThreeUnits(received);
      assert Covers(3, Report(received, received - 1), 2);
    }
  }

  lemma ThreeUnits(c: U64)
    requires c > TWO63
    ensures Floor(3, c - 1, c) <= 1
    ensures c == MAX ==> Floor(3, c - 1, c) == 0
  {
    DivisionIsUnique(c - 1, 0, c - 1, c);
    var next := NextBit(0, c - 1, c);
    var s := AddBit(0, c - 1, next.quo, next.rem, c);
    assert AddBit(0, 0, 0, c - 1, c) == QuoRem(0, c - 1);
    var last := NextBit(next.quo, next.rem, c);
    assert Loop(0, s.quo, s.rem, last.quo, last.rem, c) == s;
    assert Loop(1, 0, c - 1, next.quo, next.rem, c) == s;
    assert Loop(3, 0, 0, 0, c - 1, c) == s;
  }

  /** An input: the report is right, the path takes two units, and the maximum becomes zero, on which the
      sender gives up. */
  lemma RightReportEndsConnection(s: Limits)
    ensures Covers(3, Report(MAX, MAX - 1), 2) && Next(s, TooLarge(3, Some(Report(MAX, MAX - 1)))).Cap() == 0
  {
    ThreeUnits(MAX);
  }

  ghost predicate Converging(s: Limits, path: U64) {
    path <= s.max && s.test <= Max(2, s.max)
  }

  /** Every F08 strictly lowers the discovered maximum and never below the path limit;
      no other event touches it. */
  lemma Converges(s: Limits, e: Event, path: U64)
    requires path >= 2 && Converging(s, path) && Plausible(s, e) && Honest(e, path)
    ensures Converging(Next(s, e), path)
    ensures if e.TooLarge? then Next(s, e).max < s.max else Next(s, e).max == s.max
  {
    if e.TooLarge? && e.report.Some? && e.report.value.received > e.report.value.maximum {
      ReportShrinks(e.sent, e.report.value);
      ReportKeepsPath(e.sent, e.report.value, path);
    }
  }

  ghost function Run(s: Limits, events: seq<Event>): Limits
    decreases |events|
  {
    if events == [] then s else Run(Next(s, events[0]), events[1..])
  }

  ghost predicate PlausibleRun(s: Limits, events: seq<Event>, path: U64)
    decreases |events|
  {
    events != [] ==>
      && Plausible(s, events[0]) && Honest(events[0], path)
      && PlausibleRun(Next(s, events[0]), events[1..], path)
  }

  ghost function CountTooLarge(events: seq<Event>): nat {
    if events == [] then 0 else (if events[0].TooLarge? then 1 else 0) + CountTooLarge(events[1..])
  }

  lemma {:induction false} RunConverges(s: Limits, events: seq<Event>, path: U64)
    requires path >= 2 && Converging(s, path) && PlausibleRun(s, events, path)
    ensures Converging(Run(s, events), path)
    ensures CountTooLarge(events) + Run(s, events).max <= s.max
    decreases |events|
  {
    if events != [] {
      Converges(s, events[0], path);
      RunConverges(Next(s, events[0]), events[1..], path);
    }
  }

  /** From the start of a connection, or from what the test packets found: however the packets fare, F08
      rejects are finitely many and the discovered maximum always still covers the path limit. */
  lemma RejectsAreFinite(amount: U64, fixed: U64, events: seq<Event>, path: U64)
    requires 2 <= path <= amount && PlausibleRun(Started(amount, fixed), events, path)
    ensures path <= Run(Started(amount, fixed), events).max <= amount - CountTooLarge(events)
  {
    RunConverges(Started(amount, fixed), events, path);
  }

  // ----- reaching a known maximum

  /** k packets of exactly the test amount, each fulfilled. */
  ghost function FullSize(s: Limits, k: nat): Limits {
    if k == 0 then s else Next(FullSize(s, k - 1), Fulfilled(FullSize(s, k - 1).test))
  }

  /** k additive increases from `test`, cut at the cap. */
  ghost function Climb(test: nat, step: nat, cap: nat, k: nat): nat {
    if k == 0 then test
    else
      var before := Climb(test, step, cap, k - 1);
      if before + step > cap then cap else before + step
  }

  lemma {:induction false} ClimbAdds(test: nat, step: nat, cap: nat, k: nat)
    requires test <= cap
    ensures Climb(test, step, cap, k) == if test + k * step > cap then cap else test + k * step
  {
    if k > 0 {
      ClimbAdds(test, step, cap, k - 1);
      assert k * step == (k - 1) * step + step && (k - 1) * step >= 0;
    }
  }

  lemma {:induction false} FullSizeClimbs(s: Limits, k: nat)
    requires s.Cap() != MAX && s.test <= s.Cap()
    ensures FullSize(s, k).max == s.max && FullSize(s, k).fixed == s.fixed
    ensures FullSize(s, k).test == Climb(s.test, s.Cap() / 10, s.Cap(), k) <= s.Cap()
  {
    if k > 0 { FullSizeClimbs(s, k - 1); }
  }

  /** k tenths of the maximum are enough to close the gap. */
  lemma ReachedAfter(s: Limits, k: nat)
    requires s.Cap() != MAX && s.test <= s.Cap() <= s.test + k * (s.Cap() / 10)
    ensures FullSize(s, k).test == s.Cap()
  {
    FullSizeClimbs(s, k);
    ClimbAdds(s.test, s.Cap() / 10, s.Cap(), k);
  }

  lemma {:induction false} UnknownMaximumShifts(s: Limits, k: nat)
    requires s.Cap() == MAX && s.test > 0
    ensures FullSize(s, k).max == s.max && FullSize(s, k).fixed == s.fixed
    ensures FullSize(s, k).test == if Shifted(s.test, k) > MAX then MAX else Shifted(s.test, k)
  {
    ShiftedGrows(s.test, 0, k);
    if k > 0 {
      UnknownMaximumShifts(s, k - 1);
      ShiftedGrows(s.test, 0, k - 1);
    }
  }

  /** While no maximum is known, every full-size fulfill doubles the test amount. */
  lemma UnknownMaximumDoubles(s: Limits, k: nat)
    requires s.Cap() == MAX && s.test > 0
    ensures FullSize(s, k).test == if Pow2(k) * s.test > MAX then MAX else Pow2(k) * s.test
  {
    UnknownMaximumShifts(s, k);
    ShiftedIsProduct(s.test, k);
  }

  /** A known maximum is reached by full-size fulfills if and only if it is at least 10 (or
      reached already): a tenth of anything smaller rounds to no increase at all. Nineteen
      packets always suffice. */
  lemma KnownMaximumIsReached(s: Limits)
    requires s.Cap() != MAX && s.test <= s.Cap()
    ensures (exists k: nat :: FullSize(s, k).test == s.Cap()) <==> s.test == s.Cap() || s.Cap() >= 10
    ensures s.Cap() >= 10 ==> FullSize(s, 19).test == s.Cap()
  {
    if s.test == s.Cap() || s.Cap() >= 10 {
      var k: nat := if s.Cap() >= 10 then 19 else 0;
      ReachedAfter(s, k);
      assert FullSize(s, k).test == s.Cap();
    } else {
      forall k: nat ensures FullSize(s, k).test == s.test {
        FullSizeStays(s, k);
      }
    }
  }

  /** A tenth of a number below ten is no increase. */
  lemma {:induction false} FullSizeStays(s: Limits, k: nat)
    requires s.Cap() < 10 && s.test <= s.Cap()
    ensures FullSize(s, k) == s
  {
    if k > 0 { FullSizeStays(s, k - 1); }
  }

  // ----- and from where a connection can get

  /** The probe only gets stuck at zero or one where the maximum is below ten. */
  ghost predicate Probing(s: Limits) { s.Cap() >= 10 ==> s.test >= 2 }

  lemma {:induction false} RunKeepsProbing(s: Limits, events: seq<Event>)
    requires Probing(s)
    ensures Probing(Run(s, events))
    decreases |events|
  {
    if events != [] { RunKeepsProbing(Next(s, events[0]), events[1..]); }
  }

  /** After any run whatever, seventeen full-size fulfills reach a known maximum of at least ten. */
  lemma SeventeenSuffice(amount: U64, fixed: U64, events: seq<Event>)
    ensures var s := Run(Started(amount, fixed), events);
            10 <= s.Cap() < MAX && s.test <= s.Cap() ==> FullSize(s, 17).test == s.Cap()
  {
    var s := Run(Started(amount, fixed), events);
    RunKeepsProbing(Started(amount, fixed), events);
    if 10 <= s.Cap() < MAX && s.test <= s.Cap() {
      ReachedAfter(s, 17);
    }
  }

  /** And sixteen do not, after an F08 without a report for 20 units and a T04. */
  lemma SeventeenAreNeeded(k: nat)
    requires k < 17
    ensures var s := Run(Initial(MAX), [TooLarge(20, None), NoLiquidity(2)]);
            s == Limits(2, 19, MAX) && FullSize(s, k).test < 19
  {
    var s := Limits(2, 19, MAX);
    assert Next(Initial(MAX), TooLarge(20, None)) == Limits(9, 19, MAX);
    assert Run(Limits(9, 19, MAX), [NoLiquidity(2)]) == Run(s, []);
    FullSizeClimbs(s, k);
    ClimbAdds(2, 1, 19, k);
  }
}
