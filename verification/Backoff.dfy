/** The reconnect loop's waits (Start, runOnce and readLoop in push/pusher.go), in seconds. */
module Backoff {
  import opened Text

  const MAX_BACKOFF: nat := 30

  /** A connection attempt: it never established, or it did and the hub closed it, with a policy-violation
      code (1008, section 7.4.1 of RFC 6455) or otherwise. */
  datatype Attempt = Failed | Established(policyViolation: bool)

  function Doubled(n: nat): (d: nat)
    ensures d >= 1
  {
    if n == 0 then 1 else 2 * Doubled(n - 1)
  }

  function Capped(n: nat): nat {
    if n > MAX_BACKOFF then MAX_BACKOFF else n
  }

  /** The last established attempt up to and including i. */
  function LastEstablished(attempts: seq<Attempt>, i: nat): (j: Option<nat>)
    requires i < |attempts|
    ensures j.Some? ==> j.value <= i && attempts[j.value].Established?
    ensures forall k :: (if j.Some? then j.value else -1) < k <= i ==> attempts[k].Failed?
  {
    if attempts[i].Established? then Some(i)
    else if i == 0 then None
    else LastEstablished(attempts, i - 1)
  }

  /** The wait after attempt i: doubling from one second at the last established attempt, or from the
      start; 30 seconds from the last established attempt on if that one was rejected. */
  function Wait(attempts: seq<Attempt>, i: nat): (w: nat)
    requires i < |attempts|
    ensures 1 <= w <= 30
  {
    var j := LastEstablished(attempts, i);
    if j.None? then Capped(Doubled(i))
    else if attempts[j.value].policyViolation then MAX_BACKOFF
    else Capped(Doubled(i - j.value))
  }

  /** The loop on the verdicts of the attempts. */
  method Start(attempts: seq<Attempt>) returns (waits: seq<nat>)
    ensures |waits| == |attempts|
    ensures forall i :: 0 <= i < |attempts| ==> waits[i] == Wait(attempts, i)
  {
    waits := [];
    var backoff: nat := 1;
    var rejected := false;
    for i := 0 to |attempts|
      invariant |waits| == i && forall k :: 0 <= k < i ==> waits[k] == Wait(attempts, k)
      invariant backoff == if i == 0 then 1 else Capped(2 * Wait(attempts, i - 1))
      invariant !rejected
    {
      var connected := attempts[i].Established?;
      if connected && attempts[i].policyViolation {
        rejected := true;
      }
      if connected {
        backoff := 1;
      }
      if rejected {
        rejected := false;
        backoff := MAX_BACKOFF;
      }
      WaitFollows(attempts, i);
      waits := waits + [backoff];
      backoff := 2 * backoff;
      if backoff > MAX_BACKOFF {
        backoff := MAX_BACKOFF;
      }
    }
  }

  /** The closed form obeys the loop's rule. */
  lemma WaitFollows(attempts: seq<Attempt>, i: nat)
    requires i < |attempts|
    ensures Wait(attempts, i) ==
            if attempts[i] == Established(true) then 30
            else if attempts[i].Established? || i == 0 then 1
            else if Wait(attempts, i - 1) > 15 then 30 else 2 * Wait(attempts, i - 1)
  {
  }

  // ----- the goroutines of an attempt -----

  /** Where the loop is: before a dial, connected with handlers still to register, streaming, waiting for the
      reader, or back from runOnce with or without a connection. */
  datatype Phase = Dialing | Connected | Streaming | Joining | Returned(connected: bool)

  /** The reader goroutine of the attempt. */
  datatype Reader = NotStarted | Running | Ended

  datatype State = State(phase: Phase, reader: Reader, rejected: bool, backoff: nat, waits: seq<nat>)

  datatype Step =
    | DialFails                // or the token cannot be read
    | DialSucceeds
    | HandlersFail             // runOnce returns before it starts the reader
    | StartReader
    | ReaderEnds(policyViolation: bool)
    | WriterEnds               // hello, snapshot or stream is over, for whatever reason
    | Join                     // the wait for the reader is over; runOnce returns
    | Swap                     // the loop takes the flag, waits and doubles

  predicate Enabled(s: State, a: Step) {
    match a
    case DialFails => s.phase == Dialing
    case DialSucceeds => s.phase == Dialing
    case HandlersFail => s.phase == Connected
    case StartReader => s.phase == Connected
    case ReaderEnds(_) => s.reader == Running
    case WriterEnds => s.phase == Streaming
    case Join => s.phase == Joining && s.reader == Ended
    case Swap => s.phase.Returned?
  }

  function Apply(s: State, a: Step): State
    requires Enabled(s, a)
  {
    match a
    case DialFails => s.(phase := Returned(false), reader := NotStarted)
    case DialSucceeds => s.(phase := Connected, reader := NotStarted)
    case HandlersFail => s.(phase := Returned(true))
    case StartReader => s.(phase := Streaming, reader := Running)
    case ReaderEnds(policyViolation) => s.(reader := Ended, rejected := s.rejected || policyViolation)
    case WriterEnds => s.(phase := Joining)
    case Join => s.(phase := Returned(true))
    case Swap =>
      var w := if s.rejected then MAX_BACKOFF else if s.phase.connected then 1 else s.backoff;
      s.(phase := Dialing, rejected := false, backoff := Capped(2 * w), waits := s.waits + [w])
  }

  const START := State(Dialing, NotStarted, false, 1, [])

  /** Any interleaving of the loop with the readers of its attempts. */
  ghost predicate Execution(tr: seq<State>, steps: seq<Step>) {
    && |tr| == |steps| + 1 && tr[0] == START
    && forall i :: 0 <= i < |steps| ==> Enabled(tr[i], steps[i]) && tr[i + 1] == Apply(tr[i], steps[i])
  }

  /** The verdict of the attempt under way, read off its own steps: those since its dial. */
  function OwnVerdict(steps: seq<Step>): Attempt {
    if steps == [] then Failed
    else
      var a := steps[|steps| - 1];
      if a.DialFails? then Failed
      else if a.DialSucceeds? then Established(false)
      else if a == ReaderEnds(true) then Established(true)
      else OwnVerdict(steps[..|steps| - 1])
  }

  /** The verdicts of the attempts that the loop has taken note of. */
  function Attempts(steps: seq<Step>): seq<Attempt> {
    if steps == [] then []
    else
      var pre := steps[..|steps| - 1];
      Attempts(pre) + if steps[|steps| - 1].Swap? then [OwnVerdict(pre)] else []
  }

  /** A reader runs only while its own attempt does, and a set flag is the verdict of this attempt. */
  ghost predicate Joined(s: State, steps: seq<Step>) {
    && (s.reader == Running ==> s.phase == Streaming || s.phase == Joining)
    && (s.phase == Dialing ==> !s.rejected)
    && (s.phase == Connected ==> s.reader == NotStarted)
    && (s.phase != Dialing ==>
          && (s.rejected <==> OwnVerdict(steps) == Established(true))
          && (OwnVerdict(steps).Failed? <==> s.phase == Returned(false)))
  }

  lemma JoinedStep(s: State, steps: seq<Step>, a: Step)
    requires Joined(s, steps) && Enabled(s, a)
    ensures Joined(Apply(s, a), steps + [a])
  {
    assert (steps + [a])[..|steps|] == steps;
  }

  lemma {:induction false} JoinedAlways(tr: seq<State>, steps: seq<Step>, i: nat)
    requires Execution(tr, steps) && i < |tr|
    ensures Joined(tr[i], steps[..i])
  {
    if i > 0 {
      JoinedAlways(tr, steps, i - 1);
      JoinedStep(tr[i - 1], steps[..i - 1], steps[i - 1]);
      assert steps[..i] == steps[..i - 1] + [steps[i - 1]];
    }
  }

  predicate Dials(a: Step) {
    a.DialFails? || a.DialSucceeds?
  }

  /** Some reader ended with the policy-violation code after the last dial. */
  ghost predicate RejectedSinceDial(steps: seq<Step>) {
    exists j :: 0 <= j < |steps| && steps[j] == ReaderEnds(true) && forall l :: j < l < |steps| ==> !Dials(steps[l])
  }

  lemma RejectedSnoc(steps: seq<Step>, a: Step)
    ensures RejectedSinceDial(steps + [a]) <==> a == ReaderEnds(true) || (RejectedSinceDial(steps) && !Dials(a))
  {
    var all := steps + [a];
    assert all[|steps|] == a;
    if RejectedSinceDial(steps) && !Dials(a) {
      var j :| 0 <= j < |steps| && steps[j] == ReaderEnds(true) && forall l :: j < l < |steps| ==> !Dials(steps[l]);
      assert all[j] == steps[j] && forall l :: j < l < |all| ==> !Dials(all[l]);
    }
    if RejectedSinceDial(all) && a != ReaderEnds(true) {
      var j :| 0 <= j < |all| && all[j] == ReaderEnds(true) && forall l :: j < l < |all| ==> !Dials(all[l]);
      assert steps[j] == all[j] && forall l :: j < l < |steps| ==> all[l] == steps[l];
    }
  }

  lemma {:induction false} OwnVerdictMeaning(steps: seq<Step>)
    ensures OwnVerdict(steps) == Established(true) <==> RejectedSinceDial(steps)
  {
    if steps != [] {
      var pre, a := steps[..|steps| - 1], steps[|steps| - 1];
      assert pre + [a] == steps;
      OwnVerdictMeaning(pre);
      RejectedSnoc(pre, a);
      hide RejectedSinceDial;
    }
  }

  /** Each rejection affects exactly the wait after its own connection: at every swap of every execution the
      flag is set if and only if a reader ended with the policy-violation code after the last dial, that is,
      the reader of the attempt that has just returned. */
  lemma FlagIsOwn(tr: seq<State>, steps: seq<Step>, i: nat)
    requires Execution(tr, steps) && i < |steps| && steps[i] == Swap
    ensures tr[i].rejected <==> RejectedSinceDial(steps[..i])
    ensures tr[i].rejected <==> OwnVerdict(steps[..i]) == Established(true)
  {
    JoinedAlways(tr, steps, i);
    OwnVerdictMeaning(steps[..i]);
    hide OwnVerdict, RejectedSinceDial;
  }

  lemma WaitPrefix(attempts: seq<Attempt>, more: seq<Attempt>, i: nat)
    requires i < |attempts|
    ensures Wait(attempts + more, i) == Wait(attempts, i)
    decreases i
  {
    LastEstablishedPrefix(attempts, more, i);
  }

  lemma {:induction false} LastEstablishedPrefix(attempts: seq<Attempt>, more: seq<Attempt>, i: nat)
    requires i < |attempts|
    ensures LastEstablished(attempts + more, i) == LastEstablished(attempts, i)
  {
    if i > 0 {
      LastEstablishedPrefix(attempts, more, i - 1);
    }
  }

  /** The loop's memory between attempts. */
  ghost predicate Waited(s: State, attempts: seq<Attempt>) {
    && |s.waits| == |attempts|
    && (forall n :: 0 <= n < |attempts| ==> s.waits[n] == Wait(attempts, n))
    && s.backoff == if attempts == [] then 1 else Capped(2 * Wait(attempts, |attempts| - 1))
  }

  lemma SwapWaits(s: State, attempts: seq<Attempt>, own: Attempt)
    requires Waited(s, attempts) && s.phase.Returned?
    requires (s.rejected <==> own == Established(true)) && (own.Failed? <==> s.phase == Returned(false))
    ensures Waited(Apply(s, Swap), attempts + [own])
  {
    var all := attempts + [own];
    WaitFollows(all, |attempts|);
    forall n | 0 <= n < |attempts| ensures Wait(all, n) == Wait(attempts, n) {
      WaitPrefix(attempts, [own], n);
    }
    hide Wait;
  }

  lemma OtherStepWaits(s: State, a: Step)
    requires Enabled(s, a) && !a.Swap?
    ensures Apply(s, a).waits == s.waits && Apply(s, a).backoff == s.backoff
  {
  }

  lemma AttemptsSnoc(steps: seq<Step>, a: Step)
    ensures Attempts(steps + [a]) == if a.Swap? then Attempts(steps) + [OwnVerdict(steps)] else Attempts(steps)
  {
    assert (steps + [a])[..|steps|] == steps;
  }

  /** Under every interleaving the waits are the closed form of the attempts' own verdicts. */
  lemma {:induction false} WaitsAreClosedForm(tr: seq<State>, steps: seq<Step>, i: nat)
    requires Execution(tr, steps) && i < |tr|
    ensures Waited(tr[i], Attempts(steps[..i]))
  {
    if i > 0 {
      var pre, s, a := steps[..i - 1], tr[i - 1], steps[i - 1];
      WaitsAreClosedForm(tr, steps, i - 1);
      JoinedAlways(tr, steps, i - 1);
      assert steps[..i] == pre + [a];
      AttemptsSnoc(pre, a);
      assert Enabled(s, a) && tr[i] == Apply(s, a);
      if a.Swap? {
        hide Attempts, OwnVerdict, Apply, Waited;
        SwapWaits(s, Attempts(pre), OwnVerdict(pre));
      } else {
        OtherStepWaits(s, a);
        hide Attempts, OwnVerdict, Apply, Wait;
      }
    }
  }

  // ----- every history is possible -----

  lemma Extend(tr: seq<State>, steps: seq<Step>, a: Step)
    requires Execution(tr, steps) && Enabled(tr[|tr| - 1], a)
    ensures Execution(tr + [Apply(tr[|tr| - 1], a)], steps + [a])
  {
    hide Enabled, Apply;
  }

  lemma VerdictSnoc(steps: seq<Step>, a: Step)
    ensures OwnVerdict(steps + [a]) ==
            if a.DialFails? then Failed else if a.DialSucceeds? then Established(false)
            else if a == ReaderEnds(true) then Established(true) else OwnVerdict(steps)
  {
    assert (steps + [a])[..|steps|] == steps;
  }

  /** One more step that is no swap. */
  lemma Onward(tr: seq<State>, steps: seq<Step>, a: Step) returns (tr': seq<State>, steps': seq<Step>)
    requires Execution(tr, steps) && Enabled(tr[|tr| - 1], a) && !a.Swap?
    ensures Execution(tr', steps') && tr'[|tr'| - 1] == Apply(tr[|tr| - 1], a)
    ensures Attempts(steps') == Attempts(steps)
    ensures OwnVerdict(steps') ==
            if a.DialFails? then Failed else if a.DialSucceeds? then Established(false)
            else if a == ReaderEnds(true) then Established(true) else OwnVerdict(steps)
  {
    tr', steps' := tr + [Apply(tr[|tr| - 1], a)], steps + [a];
    Extend(tr, steps, a);
    AttemptsSnoc(steps, a);
    VerdictSnoc(steps, a);
    hide Attempts, OwnVerdict, Execution;
  }

  /** An attempt with a given verdict, up to its return. */
  lemma OneAttempt(tr: seq<State>, steps: seq<Step>, a: Attempt) returns (tr': seq<State>, steps': seq<Step>)
    requires Execution(tr, steps) && tr[|tr| - 1].phase == Dialing
    ensures Execution(tr', steps') && tr'[|tr'| - 1].phase.Returned?
    ensures Attempts(steps') == Attempts(steps) && OwnVerdict(steps') == a
  {
    hide Attempts, OwnVerdict, Execution;
    if a.Failed? {
      tr', steps' := Onward(tr, steps, DialFails);
    } else {
      tr', steps' := Onward(tr, steps, DialSucceeds);
      tr', steps' := Onward(tr', steps', StartReader);
      tr', steps' := Onward(tr', steps', ReaderEnds(a.policyViolation));
      tr', steps' := Onward(tr', steps', WriterEnds);
      tr', steps' := Onward(tr', steps', Join);
    }
  }

  /** Every history of verdicts comes about in some execution, whose waits are then its closed form. */
  lemma {:induction false} EveryHistory(attempts: seq<Attempt>) returns (tr: seq<State>, steps: seq<Step>)
    ensures Execution(tr, steps) && tr[|tr| - 1].phase == Dialing && Attempts(steps) == attempts
    ensures |tr[|tr| - 1].waits| == |attempts|
    ensures forall n :: 0 <= n < |attempts| ==> tr[|tr| - 1].waits[n] == Wait(attempts, n)
  {
    if attempts == [] {
      tr, steps := [START], [];
    } else {
      var n := |attempts| - 1;
      tr, steps := EveryHistory(attempts[..n]);
      tr, steps := OneAttempt(tr, steps, attempts[n]);
      hide Attempts, OwnVerdict, Wait;
      Extend(tr, steps, Swap);
      AttemptsSnoc(steps, Swap);
      assert attempts == attempts[..n] + [attempts[n]];
      tr, steps := tr + [Apply(tr[|tr| - 1], Swap)], steps + [Swap];
    }
    WaitsAreClosedForm(tr, steps, |steps|);
    assert steps[..|steps|] == steps;
    hide Apply, Enabled, OwnVerdict;
  }
}
