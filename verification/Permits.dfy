/** The enrolment permit counter of src/enroll.rs:164-197: one wrapping 64-bit atomic
    shared by any number of interleaved requests. Every atomic operation, the handler's
    verdict and the notification are separate steps. */
module Permits {

  const WRAP: nat := 0x1_0000_0000_0000_0000

  function FetchSub(counter: nat): nat
    requires counter < WRAP
  {
    (counter + WRAP - 1) % WRAP
  }

  function FetchAdd(counter: nat): nat
    requires counter < WRAP
  {
    (counter + 1) % WRAP
  }

  /** Where one request stands. `last` is `was_last_permit`. */
  datatype Phase =
    | Waiting
    | Rejecting              // took from zero, has not put it back yet
    | Rejected
    | Holding(last: bool)    // owns a permit, handler running
    | Failing(last: bool)    // handler failed, permit not given back yet
    | Failed
    | Answering(last: bool)  // handler succeeded, notification still to come
    | Served(last: bool)

  datatype State = State(max: nat, counter: nat, requests: seq<Phase>, notified: bool)

  datatype Step = Take(r: nat) | PutBack(r: nat) | Succeed(r: nat) | Fail(r: nat) | GiveBack(r: nat) | Notify(r: nat)

  function Init(max: nat, requests: nat): State {
    State(max, max, seq(requests, _ => Waiting), false)
  }

  predicate Enabled(s: State, step: Step) {
    && s.counter < WRAP
    && step.r < |s.requests|
    && match step
       case Take(r) => s.requests[r].Waiting?
       case PutBack(r) => s.requests[r].Rejecting?
       case Succeed(r) => s.requests[r].Holding?
       case Fail(r) => s.requests[r].Holding?
       case GiveBack(r) => s.requests[r].Failing?
       case Notify(r) => s.requests[r].Answering?
  }

  function Apply(s: State, step: Step): State
    requires Enabled(s, step)
  {
    match step
    case Take(r) =>
      s.(counter := FetchSub(s.counter),
         requests := s.requests[r := if s.counter == 0 then Rejecting else Holding(s.counter == 1)])
    case PutBack(r) => s.(counter := FetchAdd(s.counter), requests := s.requests[r := Rejected])
    case Succeed(r) => s.(requests := s.requests[r := Answering(s.requests[r].last)])
    case Fail(r) => s.(requests := s.requests[r := Failing(s.requests[r].last)])
    case GiveBack(r) => s.(counter := FetchAdd(s.counter), requests := s.requests[r := Failed])
    case Notify(r) =>
      s.(requests := s.requests[r := Served(s.requests[r].last)], notified := s.notified || s.requests[r].last)
  }

  /** An interleaving: each step is enabled in the state the earlier ones lead to. */
  predicate CanRun(s: State, run: seq<Step>)
    decreases |run|
  {
    run == [] || (Enabled(s, run[0]) && CanRun(Apply(s, run[0]), run[1..]))
  }

  function After(s: State, run: seq<Step>): State
    requires CanRun(s, run)
    decreases |run|
  {
    if run == [] then s else After(Apply(s, run[0]), run[1..])
  }

  // ----- Counting -----

  predicate IsServed(p: Phase) { p.Answering? || p.Served? }
  predicate IsHeld(p: Phase) { p.Holding? || p.Failing? }
  predicate IsRejecting(p: Phase) { p.Rejecting? }

  function Count(requests: seq<Phase>, f: Phase -> bool): nat {
    if requests == [] then 0 else Count(requests[1..], f) + if f(requests[0]) then 1 else 0
  }

  function ServedCount(s: State): nat { Count(s.requests, IsServed) }
  function HeldCount(s: State): nat { Count(s.requests, IsHeld) }
  function RejectingCount(s: State): nat { Count(s.requests, IsRejecting) }

  /** Permits in use: kept by served requests or held by running ones. */
  function Taken(s: State): nat { ServedCount(s) + HeldCount(s) }

  lemma {:induction false} CountUpdate(requests: seq<Phase>, r: nat, p: Phase, f: Phase -> bool)
    requires r < |requests|
    ensures Count(requests[r := p], f)
         == Count(requests, f) - (if f(requests[r]) then 1 else 0) + (if f(p) then 1 else 0)
  {
    if r == 0 {
      assert requests[r := p][1..] == requests[1..];
    } else {
      assert requests[r := p][1..] == requests[1..][r - 1 := p];
      CountUpdate(requests[1..], r - 1, p, f);
    }
  }

  lemma {:induction false} CountNone(requests: seq<Phase>, f: Phase -> bool)
    ensures Count(requests, f) == 0 <==> forall r :: 0 <= r < |requests| ==> !f(requests[r])
  {
    if requests != [] {
      CountNone(requests[1..], f);
      if Count(requests, f) == 0 {
        forall r | 0 <= r < |requests| ensures !f(requests[r]) {
          if r > 0 { assert requests[r] == requests[1..][r - 1]; }
        }
      } else if !f(requests[0]) {
        var r :| 0 <= r < |requests[1..]| && f(requests[1..][r]);
        assert f(requests[r + 1]);
      }
    }
  }

  lemma ApplyCounts(s: State, step: Step)
    requires Enabled(s, step)
    ensures var t := Apply(s, step);
            match step
            case Take(_) =>
              && ServedCount(t) == ServedCount(s)
              && HeldCount(t) == HeldCount(s) + (if s.counter == 0 then 0 else 1)
              && RejectingCount(t) == RejectingCount(s) + (if s.counter == 0 then 1 else 0)
            case PutBack(_) =>
              ServedCount(t) == ServedCount(s) && HeldCount(t) == HeldCount(s) && RejectingCount(t) == RejectingCount(s) - 1
            case Succeed(_) =>
              ServedCount(t) == ServedCount(s) + 1 && HeldCount(t) == HeldCount(s) - 1 && RejectingCount(t) == RejectingCount(s)
            case GiveBack(_) =>
              ServedCount(t) == ServedCount(s) && HeldCount(t) == HeldCount(s) - 1 && RejectingCount(t) == RejectingCount(s)
            case _ =>
              ServedCount(t) == ServedCount(s) && HeldCount(t) == HeldCount(s) && RejectingCount(t) == RejectingCount(s)
  {
    var p := Apply(s, step).requests[step.r];
    CountUpdate(s.requests, step.r, p, IsServed);
    CountUpdate(s.requests, step.r, p, IsHeld);
    CountUpdate(s.requests, step.r, p, IsRejecting);
  }

  // ----- Conservation -----

  /** The counter is what the permits in use and the rejections under way leave of `max`. */
  ghost predicate Conserved(s: State) {
    s.counter < WRAP && s.counter == (s.max - Taken(s) - RejectingCount(s)) % WRAP
  }

  lemma InitCounts(max: nat, requests: nat)
    requires max < WRAP
    ensures var s := Init(max, requests);
            Conserved(s) && Taken(s) == 0 && RejectingCount(s) == 0 && ServedCount(s) == 0
  {
    var s := Init(max, requests);
    CountNone(s.requests, IsServed);
    CountNone(s.requests, IsHeld);
    CountNone(s.requests, IsRejecting);
  }

  lemma StepConserves(s: State, step: Step)
    requires Conserved(s) && Enabled(s, step)
    ensures Conserved(Apply(s, step))
  {
    ApplyCounts(s, step);
  }

  lemma {:induction false} RunConserves(s: State, run: seq<Step>)
    requires Conserved(s) && CanRun(s, run)
    ensures Conserved(After(s, run)) && After(s, run).max == s.max
    ensures |After(s, run).requests| == |s.requests|
    decreases |run|
  {
    if run != [] {
      StepConserves(s, run[0]);
      RunConserves(Apply(s, run[0]), run[1..]);
    }
  }

  predicate Quiescent(s: State) {
    forall r :: 0 <= r < |s.requests| ==>
      var p := s.requests[r]; p.Waiting? || p.Rejected? || p.Failed? || p.Served?
  }

  /** In every interleaving the counter is max minus the permits in use and the
      rejections under way (mod 2^64); once all requests are at rest it is max minus
      served, so no failed attempt has used up a permit. */
  lemma PermitConservation(max: nat, requests: nat, run: seq<Step>)
    requires max < WRAP && CanRun(Init(max, requests), run)
    ensures var s := After(Init(max, requests), run);
            && s.counter == (max - ServedCount(s) - HeldCount(s) - RejectingCount(s)) % 0x1_0000_0000_0000_0000
            && (Quiescent(s) ==> s.counter == (max - ServedCount(s)) % 0x1_0000_0000_0000_0000)
  {
    InitCounts(max, requests);
    RunConserves(Init(max, requests), run);
    var s := After(Init(max, requests), run);
    if Quiescent(s) {
      CountNone(s.requests, IsHeld);
      CountNone(s.requests, IsRejecting);
    }
  }

  // ----- The bound -----

  /** No state of the run has more than `max` permits in use. */
  predicate NeverOver(s: State, run: seq<Step>)
    requires CanRun(s, run)
    decreases |run|
  {
    Taken(s) <= s.max && (run == [] || NeverOver(Apply(s, run[0]), run[1..]))
  }

  /** No request takes from the counter while every permit is in use and some rejection
      has not been put back: then the counter has wrapped and looks full. */
  predicate NoTakeFromWrapped(s: State, run: seq<Step>)
    requires CanRun(s, run)
    decreases |run|
  {
    run == [] ||
    (&& (run[0].Take? && Taken(s) == s.max ==> RejectingCount(s) % WRAP == 0)
     && NoTakeFromWrapped(Apply(s, run[0]), run[1..]))
  }

  lemma Residue(a: nat, n: nat)
    requires a < WRAP
    ensures (a - n) % WRAP == 0 <==> n % WRAP == a
    ensures ((a - n) % WRAP + n) % WRAP == a
  {
    var q, m := n / WRAP, n % WRAP;
    assert n == q * WRAP + m;
    if m <= a {
      Remainder(a - n, -q, a - m);
      Remainder(a - m + n, q, a);
    } else {
      Remainder(a - n, -q - 1, WRAP + a - m);
      Remainder(WRAP + a - m + n, q + 1, a);
    }
  }

  lemma Remainder(x: int, q: int, m: nat)
    requires m < WRAP && x == q * WRAP + m
    ensures x % WRAP == m
  {
  }

  lemma StepBound(s: State, step: Step)
    requires Conserved(s) && Enabled(s, step) && Taken(s) <= s.max
    ensures Taken(Apply(s, step)) <= s.max <==>
              !(step.Take? && Taken(s) == s.max && RejectingCount(s) % WRAP != 0)
  {
    ApplyCounts(s, step);
    if step.Take? && Taken(s) == s.max {
      Residue(0, RejectingCount(s));
    }
  }

  lemma {:induction false} BoundFrom(s: State, run: seq<Step>)
    requires Conserved(s) && CanRun(s, run) && Taken(s) <= s.max
    ensures NeverOver(s, run) <==> NoTakeFromWrapped(s, run)
    decreases |run|
  {
    if run != [] {
      var t := Apply(s, run[0]);
      StepConserves(s, run[0]);
      StepBound(s, run[0]);
      if Taken(t) <= s.max {
        BoundFrom(t, run[1..]);
      } else {
        assert !NeverOver(t, run[1..]);
      }
    }
  }

  /** "Never more than --max" holds in a run if and only if no request takes while all
      permits are in use and a rejection has not been put back. */
  lemma PermitBound(max: nat, requests: nat, run: seq<Step>)
    requires max < WRAP && CanRun(Init(max, requests), run)
    ensures NeverOver(Init(max, requests), run) <==> NoTakeFromWrapped(Init(max, requests), run)
  {
    InitCounts(max, requests);
    BoundFrom(Init(max, requests), run);
  }

  /** The bound is not a law of the code: one permit, three requests. The second finds
      zero and is to be rejected; before it puts its permit back, the third takes from
      2^64 - 1 and is let in. Both it and the first are then served. */
  lemma BoundLost() returns (run: seq<Step>)
    ensures CanRun(Init(1, 3), run)
            && ServedCount(After(Init(1, 3), run)) == 2
            && !NeverOver(Init(1, 3), run)
  {
    var states;
    states, run := BoundLostTrace();
    Traced(states, run);
    CountThree(states[5].requests, IsServed);
    CountThree(states[3].requests, IsServed);
    CountThree(states[3].requests, IsHeld);
    TracedOver(states, run, 3);
  }

  lemma BoundLostTrace() returns (states: seq<State>, run: seq<Step>)
    ensures Traces(states, run) && states[0] == Init(1, 3) && |run| == 5
    ensures states[5] == State(1, WRAP - 2, [Answering(true), Rejecting, Answering(false)], false)
    ensures states[3] == State(1, WRAP - 2, [Holding(true), Rejecting, Holding(false)], false)
  {
    var s0 := State(1, 1, [Waiting, Waiting, Waiting], false);
    var s1 := State(1, 0, [Holding(true), Waiting, Waiting], false);
    var s2 := State(1, WRAP - 1, [Holding(true), Rejecting, Waiting], false);
    var s3 := State(1, WRAP - 2, [Holding(true), Rejecting, Holding(false)], false);
    var s4 := State(1, WRAP - 2, [Answering(true), Rejecting, Holding(false)], false);
    var s5 := State(1, WRAP - 2, [Answering(true), Rejecting, Answering(false)], false);
    run := [Take(0), Take(1), Take(2), Succeed(0), Succeed(2)];
    states := [s0, s1, s2, s3, s4, s5];
    assert Links(s0, Take(0), s1);
    assert Links(s1, Take(1), s2);
    assert Links(s2, Take(2), s3);
    assert Links(s3, Succeed(0), s4);
    assert Links(s4, Succeed(2), s5);
    assert Init(1, 3) == s0;
  }

  predicate Links(s: State, step: Step, t: State) {
    Enabled(s, step) && Apply(s, step) == t
  }

  /** A run given by its states. */
  ghost predicate Traces(states: seq<State>, run: seq<Step>) {
    |states| == |run| + 1 && forall i :: 0 <= i < |run| ==> Links(states[i], run[i], states[i + 1])
  }

  lemma {:induction false} Traced(states: seq<State>, run: seq<Step>)
    requires Traces(states, run)
    ensures CanRun(states[0], run) && After(states[0], run) == states[|run|]
    decreases |run|
  {
    if run != [] {
      assert Links(states[0], run[0], states[1]);
      Traced(states[1..], run[1..]);
    }
  }

  lemma {:induction false} TracedOver(states: seq<State>, run: seq<Step>, i: nat)
    requires Traces(states, run) && CanRun(states[0], run) && i <= |run| && Taken(states[i]) > states[i].max
    ensures !NeverOver(states[0], run)
    decreases |run|
  {
    if i > 0 {
      assert Links(states[0], run[0], states[1]);
      TracedOver(states[1..], run[1..], i - 1);
    }
  }

  lemma {:induction false} TracedUndisturbed(states: seq<State>, run: seq<Step>)
    requires Traces(states, run) && CanRun(states[0], run)
    requires forall i :: 0 <= i < |run| && run[i].Take? ==> RejectingCount(states[i]) == 0
    ensures WindowsUndisturbed(states[0], run)
    decreases |run|
  {
    if run != [] {
      assert Links(states[0], run[0], states[1]);
      TracedUndisturbed(states[1..], run[1..]);
    }
  }

  lemma {:induction false} RunsOn(s: State, first: seq<Step>, second: seq<Step>)
    requires CanRun(s, first) && CanRun(After(s, first), second)
    ensures CanRun(s, first + second) && After(s, first + second) == After(After(s, first), second)
    decreases |first|
  {
    if first == [] {
      assert first + second == second;
    } else {
      RunsOn(Apply(s, first[0]), first[1..], second);
      assert (first + second)[1..] == first[1..] + second;
    }
  }

  lemma CountThree(requests: seq<Phase>, f: Phase -> bool)
    requires |requests| == 3
    ensures Count(requests, f)
         == (if f(requests[0]) then 1 else 0) + (if f(requests[1]) then 1 else 0) + (if f(requests[2]) then 1 else 0)
  {
    assert requests[1..][1..] == [requests[2]];
    assert Count([requests[2]], f) == if f(requests[2]) then 1 else 0;
  }

  // ----- Who is rejected, who is flagged -----

  /** A request is turned away exactly when as many rejections are under way as permits are
      free; past the bound, exactly when the permits in use beyond `max` and the rejections
      under way are a multiple of 2^64. "Turned away exactly when no permit is free" therefore
      holds of a request if and only if that sum is such a multiple when none is free, and the
      number of rejections is not that of the free permits otherwise. */
  lemma TakeRejected(s: State, r: nat)
    requires Conserved(s) && s.max < WRAP && Enabled(s, Take(r))
    ensures Apply(s, Take(r)).requests[r] == Rejecting <==>
              if Taken(s) >= s.max then (Taken(s) - s.max + RejectingCount(s)) % WRAP == 0
              else RejectingCount(s) % WRAP == s.max - Taken(s)
    ensures (Apply(s, Take(r)).requests[r] == Rejecting <==> Taken(s) >= s.max) <==>
              if Taken(s) >= s.max then (Taken(s) - s.max + RejectingCount(s)) % WRAP == 0
              else RejectingCount(s) % WRAP != s.max - Taken(s)
  {
    if Taken(s) >= s.max {
      Residue(0, Taken(s) - s.max + RejectingCount(s));
    } else {
      Residue(s.max - Taken(s), RejectingCount(s));
    }
  }

  /** The request that finds one permit free is flagged to notify when every rejection has
      been put back, turned away when one has not, and served unflagged otherwise. */
  lemma LastTake(s: State, r: nat)
    requires Conserved(s) && Enabled(s, Take(r)) && Taken(s) + 1 == s.max < WRAP
    ensures Apply(s, Take(r)).requests[r]
         == match RejectingCount(s) % WRAP case 0 => Holding(true) case 1 => Rejecting case _ => Holding(false)
  {
    LastPermit(RejectingCount(s));
    Residue(1, RejectingCount(s));
  }

  lemma LastPermit(n: nat)
    ensures (1 - n as int) % WRAP == 1 <==> n % WRAP == 0
  {
    var q, m := n / WRAP, n % WRAP;
    assert n == q * WRAP + m;
    if m <= 1 {
      assert 1 - n as int == (-q) * WRAP + (1 - m);
    } else {
      assert 1 - n as int == (-q - 1) * WRAP + (WRAP + 1 - m);
    }
  }

  /** One permit, three requests: the first fails while the second is being turned away, so
      the permit is free again; the third is told that `--max` is reached all the same. */
  lemma EntitledRejected() returns (run: seq<Step>)
    ensures CanRun(Init(1, 3), run)
    ensures After(Init(1, 3), run) == State(1, WRAP - 1, [Failed, Rejecting, Rejecting], false)
  {
    var states;
    states, run := EntitledRejectedTrace();
    Traced(states, run);
  }

  lemma EntitledRejectedTrace() returns (states: seq<State>, run: seq<Step>)
    ensures Traces(states, run) && states[0] == Init(1, 3) && |run| == 5
    ensures states[5] == State(1, WRAP - 1, [Failed, Rejecting, Rejecting], false)
  {
    var s0 := State(1, 1, [Waiting, Waiting, Waiting], false);
    var s1 := State(1, 0, [Holding(true), Waiting, Waiting], false);
    var s2 := State(1, WRAP - 1, [Holding(true), Rejecting, Waiting], false);
    var s3 := State(1, WRAP - 1, [Failing(true), Rejecting, Waiting], false);
    var s4 := State(1, 0, [Failed, Rejecting, Waiting], false);
    var s5 := State(1, WRAP - 1, [Failed, Rejecting, Rejecting], false);
    run := [Take(0), Take(1), Fail(0), GiveBack(0), Take(2)];
    states := [s0, s1, s2, s3, s4, s5];
    assert Links(s0, Take(0), s1);
    assert Links(s1, Take(1), s2);
    assert Links(s2, Fail(0), s3);
    assert Links(s3, GiveBack(0), s4);
    assert Links(s4, Take(2), s5);
    assert Init(1, 3) == s0;
  }

  // ----- The closing signal: somebody is to notify -----

  predicate Flagged(p: Phase) {
    (p.Holding? || p.Failing? || p.Answering? || p.Served?) && p.last
  }

  predicate FlagAmong(requests: seq<Phase>) {
    exists r :: 0 <= r < |requests| && Flagged(requests[r])
  }

  /** While no permit is free, one of the owners is to notify. */
  predicate Covered(s: State) {
    Taken(s) >= s.max ==> FlagAmong(s.requests)
  }

  predicate AlwaysCovered(s: State, run: seq<Step>)
    requires CanRun(s, run)
    decreases |run|
  {
    Covered(s) && (run == [] || AlwaysCovered(Apply(s, run[0]), run[1..]))
  }

  /** Whoever takes the last free permit does so with every rejection put back, or somebody is
      flagged already; and whoever gives one back past the bound is not the only one flagged. */
  predicate FillsFlagged(s: State, step: Step)
    requires Enabled(s, step)
  {
    && (step.Take? && Taken(s) + 1 == s.max && s.counter != 0 ==> RejectingCount(s) % WRAP == 0 || FlagAmong(s.requests))
    && (step.GiveBack? && Taken(s) > s.max ==> FlagAmong(s.requests[step.r := Failed]))
  }

  predicate AlwaysFillsFlagged(s: State, run: seq<Step>)
    requires CanRun(s, run)
    decreases |run|
  {
    run == [] || (FillsFlagged(s, run[0]) && AlwaysFillsFlagged(Apply(s, run[0]), run[1..]))
  }

  lemma FlagsStay(s: State, step: Step)
    requires Enabled(s, step) && !step.GiveBack? && FlagAmong(s.requests)
    ensures FlagAmong(Apply(s, step).requests)
  {
    var r :| 0 <= r < |s.requests| && Flagged(s.requests[r]);
    assert Flagged(Apply(s, step).requests[r]);
  }

  lemma TakeFlags(s: State, r: nat)
    requires Enabled(s, Take(r)) && FlagAmong(Apply(s, Take(r)).requests)
    ensures FlagAmong(s.requests) || s.counter == 1
  {
    var t := Apply(s, Take(r));
    var i :| 0 <= i < |t.requests| && Flagged(t.requests[i]);
    assert i != r ==> Flagged(s.requests[i]);
  }

  lemma StepCovered(s: State, step: Step)
    requires Conserved(s) && Enabled(s, step) && Covered(s)
    ensures Covered(Apply(s, step)) <==> FillsFlagged(s, step)
  {
    var t := Apply(s, step);
    ApplyCounts(s, step);
    if FlagAmong(s.requests) && !step.GiveBack? { FlagsStay(s, step); }
    if step.Take? && Taken(s) + 1 == s.max && s.counter != 0 {
      LastPermit(RejectingCount(s));
      if s.counter == 1 {
        assert Flagged(t.requests[step.r]);
      } else if FlagAmong(t.requests) {
        TakeFlags(s, step.r);
      }
    }
  }

  lemma {:induction false} CoveredFrom(s: State, run: seq<Step>)
    requires Conserved(s) && CanRun(s, run) && Covered(s)
    ensures AlwaysCovered(s, run) <==> AlwaysFillsFlagged(s, run)
    decreases |run|
  {
    if run != [] {
      var t := Apply(s, run[0]);
      StepConserves(s, run[0]);
      StepCovered(s, run[0]);
      if Covered(t) {
        CoveredFrom(t, run[1..]);
      } else {
        assert !AlwaysCovered(t, run[1..]);
      }
    }
  }

  /** In every interleaving, the bound kept or not: somebody is to notify whenever no permit is
      free, if and only if there is something to wait for, the last free permit is taken with
      every rejection put back or somebody flagged, and no permit is given back past the bound
      by the only one flagged. */
  lemma SignalCovered(max: nat, requests: nat, run: seq<Step>)
    requires max < WRAP && CanRun(Init(max, requests), run)
    ensures AlwaysCovered(Init(max, requests), run) <==> 1 <= max && AlwaysFillsFlagged(Init(max, requests), run)
  {
    InitCounts(max, requests);
    assert !FlagAmong(Init(max, requests).requests);
    if 1 <= max { CoveredFrom(Init(max, requests), run); }
  }

  // ----- The closing signal: never early -----

  predicate NeverEarly(s: State, run: seq<Step>)
    requires CanRun(s, run)
    decreases |run|
  {
    (s.notified ==> ServedCount(s) == s.max) && (run == [] || NeverEarly(Apply(s, run[0]), run[1..]))
  }

  /** The flagged request notifies when the counter, rejections under way aside, is used up and
      no other handler is running. */
  predicate NotifiesLast(s: State, step: Step)
    requires Enabled(s, step)
  {
    step.Notify? && s.requests[step.r].last ==> (s.counter + RejectingCount(s)) % WRAP == 0 && HeldCount(s) == 0
  }

  predicate AlwaysNotifiesLast(s: State, run: seq<Step>)
    requires CanRun(s, run)
    decreases |run|
  {
    run == [] || (NotifiesLast(s, run[0]) && AlwaysNotifiesLast(Apply(s, run[0]), run[1..]))
  }

  lemma StepNotEarly(s: State, step: Step)
    requires Conserved(s) && s.max < WRAP && Enabled(s, step) && Taken(s) <= s.max && Taken(Apply(s, step)) <= s.max
    requires s.notified ==> ServedCount(s) == s.max
    ensures (Apply(s, step).notified ==> ServedCount(Apply(s, step)) == s.max) <==> NotifiesLast(s, step)
  {
    ApplyCounts(s, step);
    Residue(s.max - Taken(s), RejectingCount(s));
  }

  lemma {:induction false} NotEarlyFrom(s: State, run: seq<Step>)
    requires Conserved(s) && s.max < WRAP && CanRun(s, run) && NeverOver(s, run)
    requires s.notified ==> ServedCount(s) == s.max
    ensures NeverEarly(s, run) <==> AlwaysNotifiesLast(s, run)
    decreases |run|
  {
    if run != [] {
      var t := Apply(s, run[0]);
      StepConserves(s, run[0]);
      StepNotEarly(s, run[0]);
      if t.notified ==> ServedCount(t) == t.max {
        NotEarlyFrom(t, run[1..]);
      } else {
        assert !NeverEarly(t, run[1..]);
      }
    }
  }

  /** In every run that keeps the bound, the signal comes only when `max` requests have been
      served if and only if a flagged request notifies with all permits used and nobody else
      still being handled. */
  lemma SignalNeverEarly(max: nat, requests: nat, run: seq<Step>)
    requires max < WRAP && CanRun(Init(max, requests), run) && NoTakeFromWrapped(Init(max, requests), run)
    ensures NeverEarly(Init(max, requests), run) <==> AlwaysNotifiesLast(Init(max, requests), run)
  {
    InitCounts(max, requests);
    BoundFrom(Init(max, requests), run);
    NotEarlyFrom(Init(max, requests), run);
  }

  // ----- The closing signal: at the end of a run -----

  /** Exactly the flagged requests that finished have notified. */
  ghost predicate SignalSource(s: State) {
    s.notified <==> Served(true) in s.requests
  }

  lemma StepKeepsSource(s: State, step: Step)
    requires Enabled(s, step) && SignalSource(s)
    ensures SignalSource(Apply(s, step))
  {
    var t := Apply(s, step);
    if Served(true) in s.requests {
      var r :| 0 <= r < |s.requests| && s.requests[r] == Served(true);
      assert t.requests[r] == Served(true);
    } else if t.notified {
      assert t.requests[step.r] == Served(true);
    }
  }

  /** What holds along a run holds at its end. */
  lemma {:induction false} AtEnd(s: State, run: seq<Step>)
    requires CanRun(s, run) && SignalSource(s)
    ensures SignalSource(After(s, run))
    ensures AlwaysCovered(s, run) ==> Covered(After(s, run))
    ensures NeverOver(s, run) ==> Taken(After(s, run)) <= After(s, run).max
    ensures NeverEarly(s, run) ==> After(s, run).notified ==> ServedCount(After(s, run)) == After(s, run).max
    decreases |run|
  {
    if run != [] {
      StepKeepsSource(s, run[0]);
      AtEnd(Apply(s, run[0]), run[1..]);
    }
  }

  /** "Serve until `max` requests succeed". Where somebody is always to notify, a listener at
      rest that served `max` or more has been told, the bound kept or not. Where the bound is
      kept too, once `max` are served `done` has been notified or one of them is just about to;
      and where it is never early either, a listener at rest has been told exactly when `max`
      have been served. */
  lemma ClosingSignal(max: nat, requests: nat, run: seq<Step>)
    requires 1 <= max < WRAP && CanRun(Init(max, requests), run) && AlwaysFillsFlagged(Init(max, requests), run)
    ensures var s := After(Init(max, requests), run);
            && (s.notified <==> Served(true) in s.requests)
            && (ServedCount(s) >= max && HeldCount(s) == 0 ==> s.notified || Answering(true) in s.requests)
            && (ServedCount(s) >= max && Quiescent(s) ==> s.notified)
    ensures NoTakeFromWrapped(Init(max, requests), run) ==>
              var s := After(Init(max, requests), run);
              && ServedCount(s) + HeldCount(s) <= max
              && (ServedCount(s) == max ==> s.notified || Answering(true) in s.requests)
              && (AlwaysNotifiesLast(Init(max, requests), run) && Quiescent(s) ==> (s.notified <==> ServedCount(s) == max))
  {
    var s0, s := Init(max, requests), After(Init(max, requests), run);
    InitCounts(max, requests);
    RunConserves(s0, run);
    BoundFrom(s0, run);
    SignalCovered(max, requests, run);
    if NoTakeFromWrapped(s0, run) { SignalNeverEarly(max, requests, run); }
    AtEnd(s0, run);
    CountNone(s.requests, IsHeld);
    if ServedCount(s) >= max && HeldCount(s) == 0 { FlagTold(s); }
  }

  // ----- The closing signal: never lost -----

  /** With no handler running, a flag means that `done` has been or is about to be notified. */
  lemma FlagTold(s: State)
    requires SignalSource(s) && HeldCount(s) == 0
    ensures FlagAmong(s.requests) <==> s.notified || Answering(true) in s.requests
  {
    CountNone(s.requests, IsHeld);
    if FlagAmong(s.requests) {
      var r :| 0 <= r < |s.requests| && Flagged(s.requests[r]);
      assert !IsHeld(s.requests[r]);
    }
  }

  /** Once `max` or more have been served and no handler is running, `done` has been notified or
      is just about to be. */
  predicate Told(s: State) {
    ServedCount(s) >= s.max && HeldCount(s) == 0 ==> s.notified || Answering(true) in s.requests
  }

  predicate AlwaysTold(s: State, run: seq<Step>)
    requires CanRun(s, run)
    decreases |run|
  {
    Told(s) && (run == [] || AlwaysTold(Apply(s, run[0]), run[1..]))
  }

  /** The last handler to finish, if it brings the number served to `max` or gives its permit
      back with `max` served already, leaves somebody flagged, be it itself. */
  predicate LastOutFlagged(s: State, step: Step)
    requires Enabled(s, step)
  {
    && (step.Succeed? && HeldCount(s) == 1 && ServedCount(s) + 1 >= s.max ==> FlagAmong(s.requests))
    && (step.GiveBack? && HeldCount(s) == 1 && ServedCount(s) >= s.max ==> FlagAmong(s.requests[step.r := Failed]))
  }

  predicate AlwaysLastOutFlagged(s: State, run: seq<Step>)
    requires CanRun(s, run)
    decreases |run|
  {
    run == [] || (LastOutFlagged(s, run[0]) && AlwaysLastOutFlagged(Apply(s, run[0]), run[1..]))
  }

  lemma SucceedKeepsFlags(s: State, r: nat)
    requires Enabled(s, Succeed(r)) && FlagAmong(Apply(s, Succeed(r)).requests)
    ensures FlagAmong(s.requests)
  {
    var i :| 0 <= i < |s.requests| && Flagged(Apply(s, Succeed(r)).requests[i]);
    assert Flagged(s.requests[i]);
  }

  lemma StepTold(s: State, step: Step)
    requires Enabled(s, step) && SignalSource(s) && Told(s)
    ensures Told(Apply(s, step)) <==> LastOutFlagged(s, step)
  {
    var t := Apply(s, step);
    ApplyCounts(s, step);
    StepKeepsSource(s, step);
    if HeldCount(s) == 0 { FlagTold(s); }
    if HeldCount(t) == 0 { FlagTold(t); }
    if FlagAmong(s.requests) && !step.GiveBack? { FlagsStay(s, step); }
    if step.Succeed? && FlagAmong(t.requests) { SucceedKeepsFlags(s, step.r); }
  }

  lemma {:induction false} ToldFrom(s: State, run: seq<Step>)
    requires CanRun(s, run) && SignalSource(s) && Told(s)
    ensures AlwaysTold(s, run) <==> AlwaysLastOutFlagged(s, run)
    decreases |run|
  {
    if run != [] {
      var t := Apply(s, run[0]);
      StepKeepsSource(s, run[0]);
      StepTold(s, run[0]);
      if Told(t) {
        ToldFrom(t, run[1..]);
      } else {
        assert !AlwaysTold(t, run[1..]);
      }
    }
  }

  /** The signal is never lost if and only if there is something to wait for and, whenever the
      last running handler finishes with `max` or more served, somebody is flagged. Of every
      interleaving, the bound kept or not. */
  lemma SignalNeverLost(max: nat, requests: nat, run: seq<Step>)
    requires max < WRAP && CanRun(Init(max, requests), run)
    ensures AlwaysTold(Init(max, requests), run) <==> 1 <= max && AlwaysLastOutFlagged(Init(max, requests), run)
  {
    InitCounts(max, requests);
    var s := Init(max, requests);
    if 1 <= max { ToldFrom(s, run); }
  }

  /** No fetch_sub falls between another request's fetch_sub on zero and its fetch_add. */
  predicate WindowsUndisturbed(s: State, run: seq<Step>)
    requires CanRun(s, run)
    decreases |run|
  {
    run == [] ||
    (&& (run[0].Take? ==> RejectingCount(s) == 0)
     && WindowsUndisturbed(Apply(s, run[0]), run[1..]))
  }

  /** Undisturbed windows keep the bound and never lose the signal. */
  lemma {:induction false} UndisturbedIsClean(s: State, run: seq<Step>)
    requires Conserved(s) && Taken(s) <= s.max && CanRun(s, run) && WindowsUndisturbed(s, run)
    ensures NoTakeFromWrapped(s, run) && AlwaysFillsFlagged(s, run)
    decreases |run|
  {
    if run != [] {
      StepConserves(s, run[0]);
      StepBound(s, run[0]);
      UndisturbedIsClean(Apply(s, run[0]), run[1..]);
    }
  }

  /** With concurrent requests the signal may come early: the owner of the last permit
      finishes first, the listener closes, and the other one fails. One of two is served. */
  lemma ClosesEarly() returns (run: seq<Step>)
    ensures CanRun(Init(2, 2), run) && WindowsUndisturbed(Init(2, 2), run)
            && var s := After(Init(2, 2), run);
               s.notified && Quiescent(s) && s.requests == [Failed, Served(true)] && s.counter == 1
  {
    var states;
    states, run := ClosesEarlyTrace();
    Traced(states, run);
    forall i | 0 <= i < |run| && run[i].Take? ensures RejectingCount(states[i]) == 0 {
      CountNone(states[i].requests, IsRejecting);
    }
    TracedUndisturbed(states, run);
  }

  lemma ClosesEarlyTrace() returns (states: seq<State>, run: seq<Step>)
    ensures Traces(states, run) && states[0] == Init(2, 2) && |run| == 6
    ensures states[6] == State(2, 1, [Failed, Served(true)], true)
    ensures forall i :: 0 <= i < |run| && run[i].Take? ==> Rejecting !in states[i].requests
  {
    var s0 := State(2, 2, [Waiting, Waiting], false);
    var s1 := State(2, 1, [Holding(false), Waiting], false);
    var s2 := State(2, 0, [Holding(false), Holding(true)], false);
    var s3 := State(2, 0, [Holding(false), Answering(true)], false);
    var s4 := State(2, 0, [Holding(false), Served(true)], true);
    var s5 := State(2, 0, [Failing(false), Served(true)], true);
    var s6 := State(2, 1, [Failed, Served(true)], true);
    run := [Take(0), Take(1), Succeed(1), Notify(1), Fail(0), GiveBack(0)];
    states := [s0, s1, s2, s3, s4, s5, s6];
    assert Links(s0, Take(0), s1);
    assert Links(s1, Take(1), s2);
    assert Links(s2, Succeed(1), s3);
    assert Links(s3, Notify(1), s4);
    assert Links(s4, Fail(0), s5);
    assert Links(s5, GiveBack(0), s6);
    assert Init(2, 2) == s0;
  }

  /** And after disturbed windows it may not come at all. One permit, four requests: the
      first fails while two rejections are under way, the fourth takes the free permit
      from a wrapped counter, so it is not flagged as the last. It is served, max is
      reached, and nobody notifies. */
  lemma SignalLost() returns (run: seq<Step>)
    ensures CanRun(Init(1, 4), run)
    ensures After(Init(1, 4), run) == State(1, WRAP - 2, [Failed, Rejecting, Rejecting, Served(false)], false)
  {
    var states, leg;
    states, run := SignalLostStart();
    Traced(states, run);
    states, leg := SignalLostEnd();
    Traced(states, leg);
    RunsOn(Init(1, 4), run, leg);
    run := run + leg;
  }

  lemma SignalLostStart() returns (states: seq<State>, run: seq<Step>)
    ensures Traces(states, run) && |run| == 4 && states[0] == Init(1, 4)
    ensures states[4] == State(1, 0, [Failed, Rejecting, Waiting, Waiting], false)
  {
    var s0 := State(1, 1, [Waiting, Waiting, Waiting, Waiting], false);
    var s1 := State(1, 0, [Holding(true), Waiting, Waiting, Waiting], false);
    var s2 := State(1, WRAP - 1, [Holding(true), Rejecting, Waiting, Waiting], false);
    var s3 := State(1, WRAP - 1, [Failing(true), Rejecting, Waiting, Waiting], false);
    var s4 := State(1, 0, [Failed, Rejecting, Waiting, Waiting], false);
    states, run := [s0, s1, s2, s3, s4], [Take(0), Take(1), Fail(0), GiveBack(0)];
    assert Links(s0, Take(0), s1);
    assert Links(s1, Take(1), s2);
    assert Links(s2, Fail(0), s3);
    assert Links(s3, GiveBack(0), s4);
    assert Init(1, 4) == s0;
  }

  lemma SignalLostEnd() returns (states: seq<State>, run: seq<Step>)
    ensures Traces(states, run) && |run| == 4 && states[0] == State(1, 0, [Failed, Rejecting, Waiting, Waiting], false)
    ensures states[4] == State(1, WRAP - 2, [Failed, Rejecting, Rejecting, Served(false)], false)
  {
    var s4 := State(1, 0, [Failed, Rejecting, Waiting, Waiting], false);
    var s5 := State(1, WRAP - 1, [Failed, Rejecting, Rejecting, Waiting], false);
    var s6 := State(1, WRAP - 2, [Failed, Rejecting, Rejecting, Holding(false)], false);
    var s7 := State(1, WRAP - 2, [Failed, Rejecting, Rejecting, Answering(false)], false);
    var s8 := State(1, WRAP - 2, [Failed, Rejecting, Rejecting, Served(false)], false);
    states, run := [s4, s5, s6, s7, s8], [Take(2), Take(3), Succeed(3), Notify(3)];
    assert Links(s4, Take(2), s5);
    assert Links(s5, Take(3), s6);
    assert Links(s6, Succeed(3), s7);
    assert Links(s7, Notify(3), s8);
  }

  /** Past the bound it may go as well although the last permit was taken by a flagged request.
      One permit, four requests: the first is flagged, two more are let in by the wrapped
      counter, the first fails, the other two are served, and nobody notifies. */
  lemma FlagGivenUp() returns (run: seq<Step>)
    ensures CanRun(Init(1, 4), run)
    ensures After(Init(1, 4), run) == State(1, WRAP - 1, [Failed, Rejected, Served(false), Served(false)], false)
  {
    var states, leg;
    states, run := FlagGivenUpStart();
    Traced(states, run);
    states, leg := FlagGivenUpMiddle();
    Traced(states, leg);
    RunsOn(Init(1, 4), run, leg);
    run := run + leg;
    states, leg := FlagGivenUpEnd();
    Traced(states, leg);
    RunsOn(Init(1, 4), run, leg);
    run := run + leg;
  }

  lemma FlagGivenUpStart() returns (states: seq<State>, run: seq<Step>)
    ensures Traces(states, run) && |run| == 4 && states[0] == Init(1, 4)
    ensures states[4] == State(1, WRAP - 3, [Holding(true), Rejecting, Holding(false), Holding(false)], false)
  {
    var s0 := State(1, 1, [Waiting, Waiting, Waiting, Waiting], false);
    var s1 := State(1, 0, [Holding(true), Waiting, Waiting, Waiting], false);
    var s2 := State(1, WRAP - 1, [Holding(true), Rejecting, Waiting, Waiting], false);
    var s3 := State(1, WRAP - 2, [Holding(true), Rejecting, Holding(false), Waiting], false);
    var s4 := State(1, WRAP - 3, [Holding(true), Rejecting, Holding(false), Holding(false)], false);
    states, run := [s0, s1, s2, s3, s4], [Take(0), Take(1), Take(2), Take(3)];
    assert Links(s0, Take(0), s1);
    assert Links(s1, Take(1), s2);
    assert Links(s2, Take(2), s3);
    assert Links(s3, Take(3), s4);
    assert Init(1, 4) == s0;
  }

  lemma FlagGivenUpMiddle() returns (states: seq<State>, run: seq<Step>)
    ensures Traces(states, run) && |run| == 4 && states[0] == State(1, WRAP - 3, [Holding(true), Rejecting, Holding(false), Holding(false)], false)
    ensures states[4] == State(1, WRAP - 2, [Failed, Rejecting, Answering(false), Answering(false)], false)
  {
    var s4 := State(1, WRAP - 3, [Holding(true), Rejecting, Holding(false), Holding(false)], false);
    var s5 := State(1, WRAP - 3, [Failing(true), Rejecting, Holding(false), Holding(false)], false);
    var s6 := State(1, WRAP - 2, [Failed, Rejecting, Holding(false), Holding(false)], false);
    var s7 := State(1, WRAP - 2, [Failed, Rejecting, Answering(false), Holding(false)], false);
    var s8 := State(1, WRAP - 2, [Failed, Rejecting, Answering(false), Answering(false)], false);
    states, run := [s4, s5, s6, s7, s8], [Fail(0), GiveBack(0), Succeed(2), Succeed(3)];
    assert Links(s4, Fail(0), s5);
    assert Links(s5, GiveBack(0), s6);
    assert Links(s6, Succeed(2), s7);
    assert Links(s7, Succeed(3), s8);
  }

  lemma FlagGivenUpEnd() returns (states: seq<State>, run: seq<Step>)
    ensures Traces(states, run) && |run| == 3 && states[0] == State(1, WRAP - 2, [Failed, Rejecting, Answering(false), Answering(false)], false)
    ensures states[3] == State(1, WRAP - 1, [Failed, Rejected, Served(false), Served(false)], false)
  {
    var s8 := State(1, WRAP - 2, [Failed, Rejecting, Answering(false), Answering(false)], false);
    var s9 := State(1, WRAP - 2, [Failed, Rejecting, Served(false), Answering(false)], false);
    var s10 := State(1, WRAP - 2, [Failed, Rejecting, Served(false), Served(false)], false);
    var s11 := State(1, WRAP - 1, [Failed, Rejected, Served(false), Served(false)], false);
    states, run := [s8, s9, s10, s11], [Notify(2), Notify(3), PutBack(1)];
    assert Links(s8, Notify(2), s9);
    assert Links(s9, Notify(3), s10);
    assert Links(s10, PutBack(1), s11);
  }
}
