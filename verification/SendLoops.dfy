/** The send loop as a state machine over its turns: between two awaits a turn runs to its
    end, and `startSendLoop` may be called in any other turn. */
module SendLoops {
  /** Where the loop is suspended. `Deciding`: a packet is done and `while (sending)` is next. */
  datatype Place = Stopped | Setup | BeforeSnapshot | AwaitingResponse | Deciding

  /** `wanted`: a call asked for a packet and no snapshot of the frames was taken since.
      `threw`: the loop that was started last has thrown. */
  datatype Loop = Loop(looping: bool, sending: bool, connected: bool, addressKnown: bool,
                       remoteClosed: bool, threw: bool, place: Place, wanted: bool)

  const START: Loop := Loop(false, false, false, false, false, false, Stopped, false)

  /** What handling the frames of a response can do to the loop. */
  datatype Effect = Wake | Close

  datatype Step =
    | Call
    | AddressLearned
    | RemoteClose
    | SetupDone
    | Snapshot(empty: bool, controlOnly: bool, closing: bool)
    | Response(effects: seq<Effect>)
    | Decide
    | Throw

  function StartSendLoop(s: Loop): Loop {
    if s.looping then s.(sending := true, wanted := true)
    else if s.remoteClosed || !s.addressKnown then s
    else s.(looping := true, sending := true, wanted := true, threw := false,
            place := if s.connected then BeforeSnapshot else Setup)
  }

  /** A close frame from the peer. */
  function CloseRemote(s: Loop): Loop { s.(sending := false, remoteClosed := true) }

  function Handle(s: Loop, effects: seq<Effect>): Loop
    decreases |effects|
  {
    if effects == [] then s
    else Handle(if effects[0].Wake? then StartSendLoop(s) else CloseRemote(s), effects[1..])
  }

  /** The test at the head of the loop. */
  function Test(s: Loop): Loop {
    if s.sending then s.(place := if s.connected then BeforeSnapshot else Setup)
    else s.(looping := false, place := Stopped)
  }

  predicate Enabled(s: Loop, t: Step) {
    match t
    case SetupDone => s.place.Setup?
    case Snapshot(_, _, _) => s.place.BeforeSnapshot?
    case Response(_) => s.place.AwaitingResponse?
    case Decide => s.place.Deciding?
    case Throw => s.looping
    case _ => true
  }

  function Next(s: Loop, t: Step): Loop
    requires Enabled(s, t)
  {
    match t
    case Call => StartSendLoop(s)
    case AddressLearned => s.(addressKnown := true)
    case RemoteClose => CloseRemote(s)
    case SetupDone => Test(s.(connected := true))
    case Snapshot(empty, controlOnly, closing) =>
      var taken := s.(wanted := false, remoteClosed := s.remoteClosed || closing);
      if empty then taken.(sending := false, place := Deciding)
      else taken.(sending := if controlOnly then false else s.sending, place := AwaitingResponse)
    case Response(effects) => Handle(s, effects).(place := Deciding)
    case Decide => Test(s)
    case Throw => s.(looping := false, place := Stopped, threw := true)
  }

  ghost predicate Run(s: Loop, steps: seq<Step>, last: Loop)
    decreases |steps|
  {
    if steps == [] then last == s else Enabled(s, steps[0]) && Run(Next(s, steps[0]), steps[1..], last)
  }

  /** A wish is either still going to be seen by the loop test, or a snapshot is coming anyway. */
  predicate Sound(s: Loop) {
    && (s.looping <==> !s.place.Stopped?) && !(s.looping && s.threw)
    && (s.looping ==> s.addressKnown && (s.connected <==> !s.place.Setup?))
    && (s.wanted && !s.remoteClosed && !s.threw ==> s.looping && (s.sending || s.place.BeforeSnapshot?))
  }

  lemma {:induction false} HandleIsSound(s: Loop, effects: seq<Effect>)
    requires Sound(s) && s.place.AwaitingResponse?
    ensures Sound(Handle(s, effects)) && Handle(s, effects).place.AwaitingResponse?
    decreases |effects|
  {
    if effects != [] { HandleIsSound(if effects[0].Wake? then StartSendLoop(s) else CloseRemote(s), effects[1..]); }
  }

  lemma StepIsSound(s: Loop, t: Step)
    requires Sound(s) && Enabled(s, t)
    ensures Sound(Next(s, t))
  {
    if t.Response? { HandleIsSound(s, t.effects); }
  }

  lemma {:induction false} RunIsSound(s: Loop, steps: seq<Step>, last: Loop)
    requires Sound(s) && Run(s, steps, last)
    ensures Sound(last)
    decreases |steps|
  {
    if steps != [] {
      StepIsSound(s, steps[0]);
      RunIsSound(Next(s, steps[0]), steps[1..], last);
    }
  }

  ghost predicate Throws(steps: seq<Step>) { exists i :: 0 <= i < |steps| && steps[i].Throw? }

  ghost predicate TakesSnapshot(steps: seq<Step>) { exists i :: 0 <= i < |steps| && steps[i].Snapshot? }

  lemma {:induction false} HandleKeepsWish(s: Loop, effects: seq<Effect>)
    requires s.wanted
    ensures Handle(s, effects).wanted
    decreases |effects|
  {
    if effects != [] { HandleKeepsWish(if effects[0].Wake? then StartSendLoop(s) else CloseRemote(s), effects[1..]); }
  }

  /** Only a snapshot clears the wish. */
  lemma {:induction false} WishStays(s: Loop, steps: seq<Step>, last: Loop)
    requires Run(s, steps, last) && s.wanted && !TakesSnapshot(steps)
    ensures last.wanted
    decreases |steps|
  {
    if steps != [] {
      assert !steps[0].Snapshot?;
      if steps[0].Response? { HandleKeepsWish(s, steps[0].effects); }
      forall i | 0 <= i < |steps| - 1 ensures !steps[1..][i].Snapshot? { assert steps[1..][i] == steps[i + 1]; }
      WishStays(Next(s, steps[0]), steps[1..], last);
    }
  }

  lemma {:induction false} HandleThrowsNothing(s: Loop, effects: seq<Effect>)
    requires !s.threw
    ensures !Handle(s, effects).threw
    decreases |effects|
  {
    if effects != [] {
      HandleThrowsNothing(if effects[0].Wake? then StartSendLoop(s) else CloseRemote(s), effects[1..]);
    }
  }

  lemma {:induction false} NothingThrown(s: Loop, steps: seq<Step>, last: Loop)
    requires Run(s, steps, last) && !s.threw && !Throws(steps)
    ensures !last.threw
    decreases |steps|
  {
    if steps != [] {
      assert !steps[0].Throw?;
      if steps[0].Response? { HandleThrowsNothing(s, steps[0].effects); }
      forall i | 0 <= i < |steps| - 1 ensures !steps[1..][i].Throw? { assert steps[1..][i] == steps[i + 1]; }
      NothingThrown(Next(s, steps[0]), steps[1..], last);
    }
  }

  /** No lost wake-up: in every interleaving, a call made while the loop is running (or one that
      starts it) is followed by a snapshot of the frames before the loop has stopped, unless
      the remote side closed or the loop threw after the call. Earlier loops may have thrown. */
  lemma NoLostWakeUp(before: seq<Step>, s: Loop, after: seq<Step>, last: Loop)
    requires Run(START, before, s) && Run(StartSendLoop(s), after, last)
    requires StartSendLoop(s).looping && !last.looping
    requires !last.remoteClosed && !Throws(after)
    ensures TakesSnapshot(after)
  {
    RunIsSound(START, before, s);
    StepIsSound(s, Call);
    RunIsSound(StartSendLoop(s), after, last);
    NothingThrown(StartSendLoop(s), after, last);
    if !TakesSnapshot(after) { WishStays(StartSendLoop(s), after, last); }
  }

  lemma {:induction false} HandleWants(s: Loop, effects: seq<Effect>)
    requires s.looping && Wake in effects
    ensures Handle(s, effects).wanted && Handle(s, effects).looping
    ensures Close !in effects ==> Handle(s, effects).sending
    decreases |effects|
  {
    if effects[0].Wake? {
      HandleKeepsWish(StartSendLoop(s), effects[1..]);
      HandleKeepsLooping(StartSendLoop(s), effects[1..]);
      if Close !in effects { HandleStaysBusy(StartSendLoop(s), effects[1..]); }
    } else {
      HandleWants(CloseRemote(s), effects[1..]);
    }
  }

  lemma {:induction false} HandleKeepsLooping(s: Loop, effects: seq<Effect>)
    requires s.looping
    ensures Handle(s, effects).looping
    decreases |effects|
  {
    if effects != [] {
      HandleKeepsLooping(if effects[0].Wake? then StartSendLoop(s) else CloseRemote(s), effects[1..]);
    }
  }

  /** A wake in a response is not lost either: it is followed by a snapshot before the loop has stopped, unless
      the remote side closed or the loop threw. */
  lemma NoLostWake(before: seq<Step>, s: Loop, effects: seq<Effect>, after: seq<Step>, last: Loop)
    requires Run(START, before, s) && Enabled(s, Response(effects)) && Wake in effects
    requires Run(Next(s, Response(effects)), after, last) && !last.looping
    requires !last.remoteClosed && !Throws(after)
    ensures TakesSnapshot(after)
  {
    RunIsSound(START, before, s);
    HandleWants(s, effects);
    var n := Next(s, Response(effects));
    StepIsSound(s, Response(effects));
    RunIsSound(n, after, last);
    NothingThrown(n, after, last);
    if !TakesSnapshot(after) { WishStays(n, after, last); }
  }

  // ----- when the loop goes on and when it stops

  ghost predicate Wakes(t: Step) { t.Call? || (t.Response? && Wake in t.effects) }

  ghost predicate Unasked(steps: seq<Step>) { forall i :: 0 <= i < |steps| ==> !Wakes(steps[i]) }

  lemma {:induction false} HandleStaysQuiet(s: Loop, effects: seq<Effect>)
    requires !s.sending && Wake !in effects
    ensures !Handle(s, effects).sending && Handle(s, effects).looping == s.looping
    decreases |effects|
  {
    if effects != [] { HandleStaysQuiet(CloseRemote(s), effects[1..]); }
  }

  lemma QuietStep(s: Loop, t: Step)
    requires Sound(s) && Enabled(s, t) && !s.sending && !Wakes(t)
    ensures !Next(s, t).sending
    ensures Next(s, t).looping ==> s.looping && !t.Decide? && !t.SetupDone?
  {
    if t.Response? { HandleStaysQuiet(s, t.effects); }
  }

  /** A loop that has nothing to send, and that nobody asks, stops at its next test. */
  lemma {:induction false} QuietLoopStops(s: Loop, steps: seq<Step>, last: Loop)
    requires Sound(s) && Run(s, steps, last) && !s.sending && Unasked(steps)
    ensures !last.sending
    ensures last.looping ==> s.looping && forall i :: 0 <= i < |steps| ==> !steps[i].Decide? && !steps[i].SetupDone?
    decreases |steps|
  {
    if steps != [] {
      assert !Wakes(steps[0]);
      QuietStep(s, steps[0]);
      StepIsSound(s, steps[0]);
      forall i | 0 <= i < |steps| - 1 ensures steps[1..][i] == steps[i + 1] {}
      QuietLoopStops(Next(s, steps[0]), steps[1..], last);
    }
  }

  /** From every reachable state: after a packet that was empty or carried control frames only, or after the
      remote side has closed, without a call or a wake in between, the loop has stopped after its next test. */
  lemma NothingMoreToSend(before: seq<Step>, s: Loop, t: Step, after: seq<Step>, last: Loop)
    requires Run(START, before, s) && (t.RemoteClose? || (t.Snapshot? && (t.empty || t.controlOnly)))
    requires Run(s, [t] + after, last) && Unasked(after)
    requires exists i :: 0 <= i < |after| && after[i].Decide?
    ensures !last.looping && last.place.Stopped?
  {
    assert ([t] + after)[1..] == after;
    RunIsSound(START, before, s);
    StepIsSound(s, t);
    QuietLoopStops(Next(s, t), after, last);
    RunIsSound(Next(s, t), after, last);
  }

  /** What takes the wish to send away. */
  ghost predicate Clears(t: Step) {
    || t.RemoteClose? || t.Throw?
    || (t.Snapshot? && (t.empty || t.controlOnly))
    || (t.Response? && Close in t.effects)
  }

  lemma {:induction false} HandleStaysBusy(s: Loop, effects: seq<Effect>)
    requires s.looping && s.sending && Close !in effects
    ensures Handle(s, effects).looping && Handle(s, effects).sending
    decreases |effects|
  {
    if effects != [] { HandleStaysBusy(StartSendLoop(s), effects[1..]); }
  }

  /** As long as nothing takes the wish away, for instance after packets with money, data or a close, the loop
      goes on. */
  lemma {:induction false} BusyLoopGoesOn(s: Loop, steps: seq<Step>, last: Loop)
    requires Run(s, steps, last) && s.looping && s.sending
    requires forall i :: 0 <= i < |steps| ==> !Clears(steps[i])
    ensures last.looping && last.sending
    decreases |steps|
  {
    if steps != [] {
      assert !Clears(steps[0]);
      if steps[0].Response? { HandleStaysBusy(s, steps[0].effects); }
      forall i | 0 <= i < |steps| - 1 ensures steps[1..][i] == steps[i + 1] {}
      BusyLoopGoesOn(Next(s, steps[0]), steps[1..], last);
    }
  }

  /** In every run, no snapshot is taken before the exchange rate is set up, nor before the address is known. */
  lemma SnapshotsNeedSetup(steps: seq<Step>, s: Loop, t: Step)
    requires Run(START, steps, s) && t.Snapshot? && Enabled(s, t)
    ensures s.connected && s.addressKnown
  {
    RunIsSound(START, steps, s);
  }

  /** A call starts a stopped loop exactly if the remote side has not closed and its address is known. */
  lemma CallStarts(steps: seq<Step>, s: Loop)
    requires Run(START, steps, s) && !s.looping
    ensures StartSendLoop(s).looping <==> !s.remoteClosed && s.addressKnown
    ensures StartSendLoop(s).looping ==> StartSendLoop(s).sending
  {
    RunIsSound(START, steps, s);
  }

  lemma {:induction false} HandleKeepsClosed(s: Loop, effects: seq<Effect>)
    requires s.remoteClosed
    ensures Handle(s, effects).remoteClosed && (Handle(s, effects).looping <==> s.looping)
    decreases |effects|
  {
    if effects != [] { HandleKeepsClosed(if effects[0].Wake? then StartSendLoop(s) else CloseRemote(s), effects[1..]); }
  }

  /** Once the remote side has closed, a stopped loop is never started again. */
  lemma {:induction false} NothingAfterClose(s: Loop, steps: seq<Step>, last: Loop)
    requires Sound(s) && Run(s, steps, last) && s.remoteClosed && !s.looping
    ensures last.remoteClosed && !last.looping
    decreases |steps|
  {
    if steps != [] {
      StepIsSound(s, steps[0]);
      if steps[0].Response? { HandleKeepsClosed(s, steps[0].effects); }
      NothingAfterClose(Next(s, steps[0]), steps[1..], last);
    }
  }

  // ----- what a run leaves behind

  ghost predicate ClosesRemote(t: Step) {
    t.RemoteClose? || (t.Snapshot? && t.closing) || (t.Response? && Close in t.effects)
  }

  lemma {:induction false} HandleRecords(s: Loop, effects: seq<Effect>)
    ensures Handle(s, effects).remoteClosed == (s.remoteClosed || Close in effects)
    ensures Handle(s, effects).connected == s.connected && Handle(s, effects).addressKnown == s.addressKnown
    decreases |effects|
  {
    if effects != [] {
      HandleRecords(if effects[0].Wake? then StartSendLoop(s) else CloseRemote(s), effects[1..]);
      assert Close in effects <==> effects[0] == Close || Close in effects[1..];
    }
  }

  lemma StepRecords(s: Loop, t: Step)
    requires Enabled(s, t)
    ensures Next(s, t).connected <==> s.connected || t == SetupDone
    ensures Next(s, t).addressKnown <==> s.addressKnown || t == AddressLearned
    ensures Next(s, t).remoteClosed <==> s.remoteClosed || ClosesRemote(t)
  {
    if t.Response? { HandleRecords(s, t.effects); }
  }

  ghost predicate SomeCloses(steps: seq<Step>) { steps != [] && (ClosesRemote(steps[0]) || SomeCloses(steps[1..])) }

  /** The loop is set up once and for all, and learning the address and closing are never forgotten. */
  lemma {:induction false} RunRecords(s: Loop, steps: seq<Step>, last: Loop)
    requires Run(s, steps, last)
    ensures last.connected <==> s.connected || SetupDone in steps
    ensures last.addressKnown <==> s.addressKnown || AddressLearned in steps
    ensures last.remoteClosed <==> s.remoteClosed || SomeCloses(steps)
    decreases |steps|
  {
    if steps != [] {
      StepRecords(s, steps[0]);
      RunRecords(Next(s, steps[0]), steps[1..], last);
      assert steps == [steps[0]] + steps[1..];
    }
  }
}
