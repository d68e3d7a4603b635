/** The circuit breaker in front of kcp, and the retries behind it (`pkg/apiserver/backend.go`).
    Times are integers. */
module Breakers {
  import opened Wrappers

  datatype Circuit = Closed | Open | HalfOpen

  datatype BreakerState = BreakerState(circuit: Circuit, failures: nat, openUntil: int, probing: bool)

  datatype Tuning = Tuning(threshold: int, cooldown: int)

  const FRESH := BreakerState(Closed, 0, 0, false)

  predicate Admits(b: BreakerState, now: int) {
    match b.circuit
    case Open => now >= b.openUntil
    case HalfOpen => !b.probing
    case Closed => true
  }

  function Allowed(b: BreakerState, now: int): BreakerState {
    match b.circuit
    case Open => if now < b.openUntil then b else b.(circuit := HalfOpen, probing := true)
    case HalfOpen => b.(probing := true)
    case Closed => b
  }

  function Recorded(b: BreakerState, tuning: Tuning, succeeded: bool, now: int): BreakerState {
    if succeeded then BreakerState(Closed, 0, b.openUntil, false)
    else if b.circuit == HalfOpen || b.failures + 1 >= tuning.threshold
    then BreakerState(Open, 0, now + tuning.cooldown, false)
    else b.(failures := b.failures + 1)
  }

  /** What a failure does: it opens the circuit for a cooldown, if it was half-open or this completes the threshold; and else
      it is only counted. */
  predicate Failing(before: BreakerState, tuning: Tuning, now: int, after: BreakerState) {
    if before.circuit == HalfOpen || before.failures + 1 >= tuning.threshold
    then after.circuit == Open && after.failures == 0 && !after.probing && after.openUntil == now + tuning.cooldown
    else
      && after.circuit == before.circuit && after.failures == before.failures + 1
      && after.openUntil == before.openUntil && after.probing == before.probing
  }

  class Breaker {
    const tuning: Tuning
    var circuit: Circuit
    var failures: nat
    var openUntil: int
    var probing: bool

    function View(): BreakerState
      reads this
    {
      BreakerState(circuit, failures, openUntil, probing)
    }

    constructor (tuning: Tuning)
      ensures this.tuning == tuning && View() == FRESH
    {
      this.tuning := tuning;
      circuit, failures, openUntil, probing := Closed, 0, 0, false;
    }

    /** Asking does not advance the state machine. */
    method IsOpen() returns (open: bool)
      ensures open <==> circuit == Open
    {
      open := circuit == Open;
    }

    method Allow(now: int) returns (admitted: bool)
      modifies this
      ensures admitted == Admits(old(View()), now) && View() == Allowed(old(View()), now)
      ensures old(circuit) == Closed ==> admitted && View() == old(View())
      ensures old(circuit) == Open ==> (admitted <==> now >= openUntil)
      ensures old(circuit) == HalfOpen ==> (admitted <==> !old(probing))
      ensures old(circuit) != Closed && admitted ==> circuit == HalfOpen && probing
      ensures !admitted ==> View() == old(View())
      ensures failures == old(failures) && openUntil == old(openUntil)
    {
      match circuit
      case Open =>
        if now < openUntil {
          return false;
        }
        circuit := HalfOpen;
        probing := true;
        return true;
      case HalfOpen =>
        if probing {
          return false;
        }
        probing := true;
        return true;
      case Closed =>
        return true;
    }

    method Record(succeeded: bool, now: int)
      modifies this
      ensures View() == Recorded(old(View()), tuning, succeeded, now)
      ensures succeeded ==> circuit == Closed && failures == 0 && !probing && openUntil == old(openUntil)
      ensures !succeeded ==> Failing(old(View()), tuning, now, View())
    {
      if succeeded {
        failures := 0;
        probing := false;
        circuit := Closed;
        return;
      }
      failures := failures + 1;
      if circuit == HalfOpen || failures >= tuning.threshold {
        failures := 0;
        probing := false;
        openUntil := now + tuning.cooldown;
        circuit := Open;
      }
    }
  }

  // -------- one request --------

  datatype Method = Get | Head | Changing
  datatype Request = Request(verb: Method, hasBody: bool)

  /** What kcp answers to one attempt, or that the connection failed. */
  datatype Outcome = Answer(status: nat) | Failure

  predicate Retriable(req: Request) {
    !req.hasBody && !req.verb.Changing?
  }

  predicate Succeeded(outcome: Outcome) {
    outcome.Answer? && outcome.status < 500
  }

  /** Sends a request, and again only if that is safe. `attempt(k)` is the outcome of the k-th
      sending, and `gone(k)` says that the caller has gone by the end of the pause after it. */
  method RoundTripWithRetries(req: Request, retries: int, attempt: nat -> Outcome, gone: nat -> bool)
    returns (outcome: Outcome, sent: nat)
    ensures sent >= 1 && outcome == attempt(sent - 1)
    ensures forall k: nat | k < sent - 1 :: attempt(k).Failure?
    ensures req.hasBody || req.verb == Changing ==> sent == 1
    ensures sent == 1 || sent <= 1 + retries
    ensures outcome.Failure? && !req.hasBody && req.verb in {Get, Head} ==> sent >= 1 + retries || gone(sent - 1)
    ensures forall k: nat | k < sent - 1 :: !gone(k)
  {
    outcome, sent := attempt(0), 1;
    if outcome.Answer? || !Retriable(req) {
      return;
    }
    var k := 0;
    while k < retries
      invariant sent == k + 1 && outcome == attempt(sent - 1) && outcome.Failure?
      invariant k == 0 || k <= retries
      invariant forall j: nat | j < sent :: attempt(j).Failure?
      invariant forall j: nat | j < sent - 1 :: !gone(j)
    {
      if gone(sent - 1) {
        return;
      }
      outcome := attempt(sent);
      sent := sent + 1;
      if outcome.Answer? {
        return;
      }
      k := k + 1;
    }
  }

  /** A request through the breaker: refused without being sent, or sent and recorded once. A 5xx
      counts against kcp, a 4xx does not. */
  method RoundTrip(breaker: Breaker, req: Request, retries: int, begun: int, ended: int,
                   attempt: nat -> Outcome, gone: nat -> bool)
    returns (outcome: Option<Outcome>, sent: nat)
    modifies breaker
    ensures outcome.None? <==> !Admits(old(breaker.View()), begun)
    ensures outcome.None? ==> sent == 0 && breaker.View() == old(breaker.View())
    ensures outcome.None? <==> (old(breaker.circuit) == Open && begun < old(breaker.openUntil))
                               || (old(breaker.circuit) == HalfOpen && old(breaker.probing))
    ensures outcome.Some? && outcome.value.Answer? && outcome.value.status < 500 ==>
              breaker.circuit == Closed && breaker.failures == 0 && !breaker.probing
    ensures outcome.Some? && (outcome.value.Failure? || outcome.value.status >= 500) ==>
              Failing(if old(breaker.circuit) == Closed then old(breaker.View())
                      else old(breaker.View()).(circuit := HalfOpen, probing := true),
                      breaker.tuning, ended, breaker.View())
    ensures outcome.Some? ==>
              && sent >= 1 && (req.hasBody || req.verb == Changing ==> sent == 1) && outcome.value == attempt(sent - 1)
              && breaker.View()
                   == Recorded(Allowed(old(breaker.View()), begun), breaker.tuning, Succeeded(outcome.value), ended)
  {
    var admitted := breaker.Allow(begun);
    if !admitted {
      return None, 0;
    }
    var answer;
    answer, sent := RoundTripWithRetries(req, retries, attempt, gone);
    breaker.Record(Succeeded(answer), ended);
    outcome := Some(answer);
  }

  // -------- runs: requests in any interleaving, in the order they take the lock --------

  datatype Event =
    | Allow(request: nat, now: int)
    | Record(request: nat, succeeded: bool, now: int)
    | Ask

  /** The breaker, the admitted requests that have not been recorded yet, and the last one admitted
      while the circuit was not closed. */
  datatype System = System(breaker: BreakerState, inFlight: set<nat>, probe: nat)

  function Step(s: System, tuning: Tuning, e: Event): System {
    match e
    case Allow(request, now) =>
      if Admits(s.breaker, now) then
        System(Allowed(s.breaker, now), s.inFlight + {request},
               if s.breaker.circuit == Closed then s.probe else request)
      else s.(breaker := Allowed(s.breaker, now))
    case Record(request, succeeded, now) =>
      s.(breaker := Recorded(s.breaker, tuning, succeeded, now), inFlight := s.inFlight - {request})
    case Ask => s
  }

  function After(history: seq<Event>, tuning: Tuning): System
    decreases |history|
  {
    if history == [] then System(FRESH, {}, 0)
    else Step(After(history[..|history| - 1], tuning), tuning, history[|history| - 1])
  }

  /** Every request is admitted at most once at a time, and only a request in flight is recorded. */
  predicate Fits(s: System, e: Event) {
    match e
    case Allow(request, _) => request !in s.inFlight
    case Record(request, _, _) => request in s.inFlight
    case Ask => true
  }

  ghost predicate Wellformed(history: seq<Event>, tuning: Tuning) {
    forall i | 0 <= i < |history| :: Fits(After(history[..i], tuning), history[i])
  }

  lemma WellformedPrefix(history: seq<Event>, tuning: Tuning, n: nat)
    requires Wellformed(history, tuning) && n <= |history|
    ensures Wellformed(history[..n], tuning)
  {
    forall i | 0 <= i < n ensures history[..n][..i] == history[..i] && history[..n][i] == history[i] {
    }
  }

  ghost predicate Sound(s: System, tuning: Tuning) {
    && (s.breaker.circuit == HalfOpen <==> s.breaker.probing)
    && (s.breaker.circuit == HalfOpen ==> s.probe in s.inFlight)
    && (s.breaker.failures == 0 || s.breaker.failures < tuning.threshold)
  }

  /** The breaker never wedges. In every interleaving it is half-open exactly while probing, and then the
      probe is still in flight and so still owes the record that ends the episode; the branch for a
      half-open breaker without a probe is never taken. */
  lemma {:induction false} NeverWedges(history: seq<Event>, tuning: Tuning)
    requires Wellformed(history, tuning)
    ensures Sound(After(history, tuning), tuning)
    decreases |history|
  {
    if history != [] {
      var n := |history| - 1;
      WellformedPrefix(history, tuning, n);
      NeverWedges(history[..n], tuning);
      assert history[n].Allow? ==> history[n].request !in After(history[..n], tuning).inFlight;
    }
  }

  /** So once nothing is in flight, a request is admitted as soon as the cooldown is over. */
  lemma AdmitsWhenDrained(history: seq<Event>, tuning: Tuning, now: int)
    requires Wellformed(history, tuning) && After(history, tuning).inFlight == {}
    requires now >= After(history, tuning).breaker.openUntil
    ensures Admits(After(history, tuning).breaker, now)
  {
    NeverWedges(history, tuning);
  }

  // -------- asking --------

  function WithoutAsks(history: seq<Event>): seq<Event> {
    if history == [] then []
    else
      var earlier, last := WithoutAsks(history[..|history| - 1]), history[|history| - 1];
      if last.Ask? then earlier else earlier + [last]
  }

  /** Whether the circuit is open can be asked at any time, any number of times: every other event finds the
      breaker, and leaves it, as if nobody had asked. */
  lemma {:induction false} AskingChangesNothing(history: seq<Event>, tuning: Tuning)
    ensures After(WithoutAsks(history), tuning) == After(history, tuning)
    decreases |history|
  {
    if history != [] {
      var earlier, last := history[..|history| - 1], history[|history| - 1];
      AskingChangesNothing(earlier, tuning);
      if !last.Ask? {
        assert WithoutAsks(history)[..|WithoutAsks(history)| - 1] == WithoutAsks(earlier);
      }
    }
  }

  // -------- the breaker's state, read off its history --------

  predicate Failed(e: Event) {
    e.Record? && !e.succeeded
  }

  function FailedSince(history: seq<Event>, from: int): nat
    decreases |history|
  {
    if history == [] || |history| <= from then 0
    else FailedSince(history[..|history| - 1], from) + if Failed(history[|history| - 1]) then 1 else 0
  }

  /** The last event of the history that decided anything: a success, or a failure that trips. */
  function LastDecision(history: seq<Event>, tuning: Tuning): (d: int)
    ensures -1 <= d < |history|
    ensures d >= 0 ==> history[d].Record?
    decreases |history|, 0
  {
    if history == [] then -1
    else if Decides(history, tuning) then |history| - 1
    else LastDecision(history[..|history| - 1], tuning)
  }

  /** Whether the last event decides. A failure trips the breaker exactly when it completes a run of
      `threshold` failures since the last decision, or lands in a half-open circuit. */
  predicate Decides(history: seq<Event>, tuning: Tuning)
    requires history != []
    decreases |history| - 1, 2
  {
    var earlier, last := history[..|history| - 1], history[|history| - 1];
    last.Record? && (last.succeeded || HalfOpenAfter(earlier, tuning) || RunLength(earlier, tuning) + 1 >= tuning.threshold)
  }

  /** The failures since the last decision. */
  function RunLength(history: seq<Event>, tuning: Tuning): nat
    decreases |history|, 1
  {
    FailedSince(history, LastDecision(history, tuning) + 1)
  }

  /** The last decision was a trip, and a request has been let through since, after its cooldown. */
  predicate HalfOpenAfter(history: seq<Event>, tuning: Tuning)
    decreases |history|, 1
  {
    var d := LastDecision(history, tuning);
    d >= 0 && !history[d].succeeded
    && exists a | d < a < |history| :: history[a].Allow? && history[a].now >= history[d].now + tuning.cooldown
  }

  function CircuitAfter(history: seq<Event>, tuning: Tuning): Circuit {
    var d := LastDecision(history, tuning);
    if d < 0 || history[d].succeeded then Closed
    else if HalfOpenAfter(history, tuning) then HalfOpen
    else Open
  }

  ghost predicate TripsAt(history: seq<Event>, tuning: Tuning, i: nat)
    requires i < |history|
  {
    Failed(history[i]) && Decides(history[..i + 1], tuning)
  }

  /** Nothing trips after event `from`, which may be before the first. */
  ghost predicate NoTripAfter(history: seq<Event>, tuning: Tuning, from: int) {
    forall j: nat | from < j < |history| :: !TripsAt(history, tuning, j)
  }

  ghost predicate LastTrip(history: seq<Event>, tuning: Tuning, i: nat) {
    i < |history| && TripsAt(history, tuning, i) && NoTripAfter(history, tuning, i)
  }

  /** `openUntil` is the cooldown's end of the last trip there has been. */
  ghost predicate OpenUntilAfter(history: seq<Event>, tuning: Tuning, until: int) {
    || (until == 0 && NoTripAfter(history, tuning, -1))
    || exists i: nat :: LastTrip(history, tuning, i) && until == history[i].now + tuning.cooldown
  }

  lemma DecisionStep(history: seq<Event>, tuning: Tuning)
    requires history != [] && !Decides(history, tuning)
    ensures var earlier, last := history[..|history| - 1], history[|history| - 1];
            var d := LastDecision(earlier, tuning);
            && LastDecision(history, tuning) == d
            && RunLength(history, tuning) == RunLength(earlier, tuning) + (if Failed(last) then 1 else 0)
            && (HalfOpenAfter(history, tuning) <==>
                  || HalfOpenAfter(earlier, tuning)
                  || (d >= 0 && !history[d].succeeded && last.Allow? && last.now >= history[d].now + tuning.cooldown))
  {
    var n := |history| - 1;
    var earlier := history[..n];
    var d := LastDecision(earlier, tuning);
    if HalfOpenAfter(earlier, tuning) {
      var a :| d < a < |earlier| && earlier[a].Allow? && earlier[a].now >= earlier[d].now + tuning.cooldown;
      assert history[a].Allow? && history[a].now >= history[d].now + tuning.cooldown;
    }
    if HalfOpenAfter(history, tuning) {
      var a :| d < a < |history| && history[a].Allow? && history[a].now >= history[d].now + tuning.cooldown;
      if a < n {
        assert earlier[a].Allow? && earlier[a].now >= earlier[d].now + tuning.cooldown;
      }
    }
    if d >= 0 && !history[d].succeeded && history[n].Allow? && history[n].now >= history[d].now + tuning.cooldown {
      assert d < n;
    }
  }

  lemma TripsAtPrefix(history: seq<Event>, tuning: Tuning, n: nat, i: nat)
    requires i < n <= |history|
    ensures TripsAt(history[..n], tuning, i) <==> TripsAt(history, tuning, i)
  {
    assert history[..n][..i + 1] == history[..i + 1];
  }

  lemma NoTripStep(history: seq<Event>, tuning: Tuning, from: int)
    requires history != [] && !TripsAt(history, tuning, |history| - 1)
    requires NoTripAfter(history[..|history| - 1], tuning, from)
    ensures NoTripAfter(history, tuning, from)
  {
    var n := |history| - 1;
    forall j: nat | from < j < n ensures !TripsAt(history, tuning, j) {
      TripsAtPrefix(history, tuning, n, j);
      assert !TripsAt(history[..n], tuning, j);
    }
  }

  lemma TripStep(history: seq<Event>, tuning: Tuning, until: int)
    requires history != [] && !TripsAt(history, tuning, |history| - 1)
    requires OpenUntilAfter(history[..|history| - 1], tuning, until)
    ensures OpenUntilAfter(history, tuning, until)
  {
    var n := |history| - 1;
    var earlier := history[..n];
    if until == 0 && NoTripAfter(earlier, tuning, -1) {
      NoTripStep(history, tuning, -1);
    } else {
      var i: nat :| LastTrip(earlier, tuning, i) && until == earlier[i].now + tuning.cooldown;
      TripsAtPrefix(history, tuning, n, i);
      NoTripStep(history, tuning, i);
      assert LastTrip(history, tuning, i);
    }
  }

  ghost predicate IsHistory(b: BreakerState, history: seq<Event>, tuning: Tuning) {
    && b.circuit == CircuitAfter(history, tuning)
    && b.failures == RunLength(history, tuning)
    && OpenUntilAfter(history, tuning, b.openUntil)
    && (b.circuit == Open ==> b.openUntil == history[LastDecision(history, tuning)].now + tuning.cooldown)
  }

  lemma DecidedKeepsHistory(history: seq<Event>, tuning: Tuning, before: BreakerState)
    requires history != [] && Decides(history, tuning)
    requires IsHistory(before, history[..|history| - 1], tuning) && (before.circuit == HalfOpen <==> before.probing)
    ensures var e := history[|history| - 1]; IsHistory(Recorded(before, tuning, e.succeeded, e.now), history, tuning)
  {
    var n := |history| - 1;
    var b := Recorded(before, tuning, history[n].succeeded, history[n].now);
    assert history[..n + 1] == history;
    assert FailedSince(history, n + 1) == 0;
    if history[n].succeeded {
      TripStep(history, tuning, b.openUntil);
    } else {
      assert LastTrip(history, tuning, n);
    }
  }

  lemma UndecidedKeepsHistory(history: seq<Event>, tuning: Tuning, s: System)
    requires history != [] && !Decides(history, tuning)
    requires IsHistory(s.breaker, history[..|history| - 1], tuning)
    requires s.breaker.circuit == HalfOpen <==> s.breaker.probing
    ensures IsHistory(Step(s, tuning, history[|history| - 1]).breaker, history, tuning)
  {
    var n := |history| - 1;
    assert history[..n + 1] == history;
    DecisionStep(history, tuning);
    TripStep(history, tuning, s.breaker.openUntil);
  }

  /** The breaker is its history: the circuit, the length of the run of failures and the end of the
      cooldown are what the events, read back from the last, say they are. */
  lemma {:induction false} BreakerIsItsHistory(history: seq<Event>, tuning: Tuning)
    requires Wellformed(history, tuning)
    ensures var b := After(history, tuning).breaker;
            && b.circuit == CircuitAfter(history, tuning)
            && b.failures == RunLength(history, tuning)
            && OpenUntilAfter(history, tuning, b.openUntil)
            && (b.circuit == Open ==> b.openUntil == history[LastDecision(history, tuning)].now + tuning.cooldown)
    decreases |history|
  {
    if history != [] {
      var n := |history| - 1;
      WellformedPrefix(history, tuning, n);
      BreakerIsItsHistory(history[..n], tuning);
      NeverWedges(history[..n], tuning);
      var s := After(history[..n], tuning);
      if Decides(history, tuning) {
        DecidedKeepsHistory(history, tuning, s.breaker);
      } else {
        UndecidedKeepsHistory(history, tuning, s);
      }
      assert IsHistory(After(history, tuning).breaker, history, tuning);
    }
  }

  // -------- probes --------

  /** Event `i` is a request admitted while the circuit is not closed. */
  ghost predicate Probe(history: seq<Event>, tuning: Tuning, i: nat) {
    i < |history| &&
    var b := After(history[..i], tuning).breaker;
    history[i].Allow? && b.circuit != Closed && Admits(b, history[i].now)
  }

  predicate Timed(e: Event) {
    !e.Ask?
  }

  /** Times do not decrease in the order in which the lock is taken. */
  ghost predicate Ordered(history: seq<Event>) {
    forall i, j | 0 <= i < j < |history| && Timed(history[i]) && Timed(history[j]) :: history[i].now <= history[j].now
  }

  ghost predicate NoSuccess(history: seq<Event>, from: nat, end: nat)
    requires end <= |history|
  {
    forall i | from <= i < end :: !(history[i].Record? && history[i].succeeded)
  }

  /** Half-open, or open until `until` at the least. */
  predicate Waits(b: BreakerState, until: int) {
    || (b.circuit == HalfOpen && b.probing)
    || (b.circuit == Open && b.openUntil >= until)
  }

  lemma WaitStep(s: System, tuning: Tuning, e: Event, since: int)
    requires Waits(s.breaker, since + tuning.cooldown) && !(e.Record? && e.succeeded)
    requires Timed(e) ==> since <= e.now
    ensures Waits(Step(s, tuning, e).breaker, since + tuning.cooldown)
  {
  }

  lemma ProbeOpens(history: seq<Event>, tuning: Tuning, i: nat)
    requires Wellformed(history, tuning) && Probe(history, tuning, i)
    ensures var b := After(history[..i + 1], tuning).breaker; b.circuit == HalfOpen && b.probing
  {
    assert history[..i + 1][..i] == history[..i];
    WellformedPrefix(history, tuning, i);
    NeverWedges(history[..i], tuning);
  }

  lemma {:induction false} WaitsOut(history: seq<Event>, tuning: Tuning, i: nat, k: nat)
    requires Wellformed(history, tuning) && Ordered(history)
    requires i < k <= |history| && Probe(history, tuning, i) && NoSuccess(history, i, k)
    ensures Waits(After(history[..k], tuning).breaker, history[i].now + tuning.cooldown)
    decreases k
  {
    assert history[..k][..k - 1] == history[..k - 1];
    if k == i + 1 {
      ProbeOpens(history, tuning, i);
    } else {
      WaitsOut(history, tuning, i, k - 1);
      WaitStep(After(history[..k - 1], tuning), tuning, history[k - 1], history[i].now);
    }
  }

  /** Any two probes with no success between them are at least a cooldown apart. */
  lemma ProbesAreSpaced(history: seq<Event>, tuning: Tuning, i: nat, j: nat)
    requires Wellformed(history, tuning) && Ordered(history)
    requires i < j < |history| && Probe(history, tuning, i) && Probe(history, tuning, j) && NoSuccess(history, i, j)
    ensures history[j].now - history[i].now >= tuning.cooldown
  {
    WaitsOut(history, tuning, i, j);
  }

  ghost function Probes(history: seq<Event>, tuning: Tuning): nat -> bool {
    (i: nat) => Probe(history, tuning, i)
  }

  function Times(history: seq<Event>): nat -> int {
    (i: nat) => if i < |history| && Timed(history[i]) then history[i].now else 0
  }

  ghost function CountWhere(chosen: nat -> bool, from: nat, end: nat): nat
    requires from <= end
    decreases end
  {
    if end == from then 0 else CountWhere(chosen, from, end - 1) + if chosen(end - 1) then 1 else 0
  }

  /** How many of the events from `from` and before `end` are probes. */
  ghost function ProbesIn(history: seq<Event>, tuning: Tuning, from: nat, end: nat): nat
    requires from <= end
  {
    CountWhere(Probes(history, tuning), from, end)
  }

  /** `n` cooldowns, one after the other. */
  function Cooldowns(n: nat, cooldown: int): int {
    if n == 0 then 0 else Cooldowns(n - 1, cooldown) + cooldown
  }

  lemma {:induction false} CooldownsIsProduct(n: nat, cooldown: int)
    ensures Cooldowns(n, cooldown) == n * cooldown
  {
    if n > 0 { CooldownsIsProduct(n - 1, cooldown); }
  }

  lemma Scaled(m: int, n: int, cooldown: int)
    requires m <= n && cooldown > 0
    ensures m * cooldown <= n * cooldown
  {
  }

  lemma CooldownsFit(n: nat, cooldown: int, window: nat)
    requires cooldown > 0 && Cooldowns(n, cooldown) <= window
    ensures n <= window / cooldown
  {
    CooldownsIsProduct(n, cooldown);
    if n > window / cooldown {
      Scaled(window / cooldown + 1, n, cooldown);
    }
  }

  /** Events that are pairwise a cooldown apart span as many cooldowns as there are gaps between them. */
  lemma {:induction false} Span(chosen: nat -> bool, time: nat -> int, cooldown: int, from: nat, end: nat)
    returns (first: nat, last: nat)
    requires from <= end && CountWhere(chosen, from, end) >= 1
    requires forall i, j | from <= i < j < end && chosen(i) && chosen(j) :: time(j) - time(i) >= cooldown
    ensures from <= first <= last < end && chosen(first) && chosen(last)
    ensures time(last) - time(first) >= Cooldowns(CountWhere(chosen, from, end) - 1, cooldown)
    decreases end
  {
    if !chosen(end - 1) {
      first, last := Span(chosen, time, cooldown, from, end - 1);
    } else if CountWhere(chosen, from, end - 1) == 0 {
      first, last := end - 1, end - 1;
    } else {
      first, last := Span(chosen, time, cooldown, from, end - 1);
      assert time(end - 1) - time(last) >= cooldown;
      last := end - 1;
    }
  }

  lemma ProbesApart(history: seq<Event>, tuning: Tuning, from: nat, end: nat)
    requires Wellformed(history, tuning) && Ordered(history)
    requires from <= end <= |history| && NoSuccess(history, from, end)
    ensures forall i, j | from <= i < j < end && Probes(history, tuning)(i) && Probes(history, tuning)(j) ::
              Times(history)(j) - Times(history)(i) >= tuning.cooldown
  {
    forall i: nat, j: nat | from <= i < j < end && Probe(history, tuning, i) && Probe(history, tuning, j)
      ensures history[j].now - history[i].now >= tuning.cooldown
    {
      ProbesAreSpaced(history, tuning, i, j);
    }
  }

  lemma SpanFits(history: seq<Event>, tuning: Tuning, from: nat, end: nat, window: nat, first: nat, last: nat)
    requires from <= first <= last < end <= |history| && Probe(history, tuning, first) && Probe(history, tuning, last)
    requires forall i, j | from <= i < j < end && Timed(history[i]) && Timed(history[j]) ::
               history[j].now - history[i].now <= window
    ensures Times(history)(last) - Times(history)(first) <= window
  {
    assert Timed(history[first]) && Timed(history[last]);
  }

  lemma ProbesFit(history: seq<Event>, tuning: Tuning, from: nat, end: nat, window: nat)
    requires Wellformed(history, tuning) && Ordered(history)
    requires from <= end <= |history| && NoSuccess(history, from, end) && ProbesIn(history, tuning, from, end) >= 1
    requires forall i, j | from <= i < j < end && Timed(history[i]) && Timed(history[j]) ::
               history[j].now - history[i].now <= window
    ensures Cooldowns(ProbesIn(history, tuning, from, end) - 1, tuning.cooldown) <= window
  {
    ProbesApart(history, tuning, from, end);
    SpanInWindow(history, tuning, from, end, window);
  }

  lemma SpanInWindow(history: seq<Event>, tuning: Tuning, from: nat, end: nat, window: nat)
    requires from <= end <= |history| && ProbesIn(history, tuning, from, end) >= 1
    requires forall i, j | from <= i < j < end && Probes(history, tuning)(i) && Probes(history, tuning)(j) ::
               Times(history)(j) - Times(history)(i) >= tuning.cooldown
    requires forall i, j | from <= i < j < end && Timed(history[i]) && Timed(history[j]) ::
               history[j].now - history[i].now <= window
    ensures Cooldowns(ProbesIn(history, tuning, from, end) - 1, tuning.cooldown) <= window
  {
    var first, last := Span(Probes(history, tuning), Times(history), tuning.cooldown, from, end);
    SpanFits(history, tuning, from, end, window, first, last);
  }

  /** A stretch of events without a success, taking `window` in time, lets at most 1 + window / cooldown
      probes through. */
  lemma ProbesAreFew(history: seq<Event>, tuning: Tuning, from: nat, end: nat, window: nat)
    requires Wellformed(history, tuning) && Ordered(history) && tuning.cooldown > 0
    requires from <= end <= |history| && NoSuccess(history, from, end)
    requires forall i, j | from <= i < j < end && Timed(history[i]) && Timed(history[j]) ::
               history[j].now - history[i].now <= window
    ensures ProbesIn(history, tuning, from, end) <= 1 + window / tuning.cooldown
  {
    var n := ProbesIn(history, tuning, from, end);
    if n >= 1 {
      ProbesFit(history, tuning, from, end, window);
      CooldownsFit(n - 1, tuning.cooldown, window);
    }
  }

  // -------- one probe at a time --------

  lemma {:induction false} EpisodeLasts(history: seq<Event>, tuning: Tuning, i: nat, j: nat)
    requires Wellformed(history, tuning) && i < j <= |history| && Probe(history, tuning, i)
    requires forall k | i < k < j :: !history[k].Record?
    ensures var b := After(history[..j], tuning).breaker; b.circuit == HalfOpen && b.probing
    decreases j
  {
    assert history[..j][..j - 1] == history[..j - 1];
    if j == i + 1 {
      ProbeOpens(history, tuning, i);
    } else {
      EpisodeLasts(history, tuning, i, j - 1);
    }
  }

  /** One probe an episode: between two probes some request was recorded, and that ended the first one's
      episode. Whose record it was is another matter. */
  lemma OneProbePerEpisode(history: seq<Event>, tuning: Tuning, i: nat, j: nat)
    requires Wellformed(history, tuning) && i < j < |history| && Probe(history, tuning, i) && Probe(history, tuning, j)
    ensures exists k :: i < k < j && history[k].Record?
  {
    if forall k | i < k < j :: !history[k].Record? {
      EpisodeLasts(history, tuning, i, j);
    }
  }

  ghost predicate Unrecorded(events: seq<Event>, p: nat) {
    forall i | 0 <= i < |events| && events[i].Record? :: events[i].request != p
  }

  /** After `history`, `more` goes on, in order of time, to another probe while request `p` is still out. */
  ghost predicate SecondBeside(history: seq<Event>, more: seq<Event>, tuning: Tuning, p: nat) {
    && more != [] && Wellformed(history + more, tuning) && Ordered(history + more)
    && Probe(history + more, tuning, |history + more| - 1)
    && Unrecorded(more, p)
  }

  /** Request `p` is the probe, and nothing else is in flight. */
  predicate Alone(s: System, p: nat) {
    s.breaker.circuit == HalfOpen && s.breaker.probing && s.inFlight == {p}
  }

  lemma AloneStep(s: System, tuning: Tuning, p: nat, e: Event)
    requires Alone(s, p) && Fits(s, e) && (e.Record? ==> e.request != p)
    ensures Alone(Step(s, tuning, e), p)
  {
  }

  lemma {:induction false} AloneStaysAlone(history: seq<Event>, tuning: Tuning, p: nat, from: nat, k: nat)
    requires Wellformed(history, tuning) && from <= k <= |history| && Alone(After(history[..from], tuning), p)
    requires forall i | from <= i < k && history[i].Record? :: history[i].request != p
    ensures Alone(After(history[..k], tuning), p)
    decreases k
  {
    if k > from {
      assert history[..k][..k - 1] == history[..k - 1];
      AloneStaysAlone(history, tuning, p, from, k - 1);
      AloneStep(After(history[..k - 1], tuning), tuning, p, history[k - 1]);
    }
  }

  lemma UnrecordedTail(history: seq<Event>, more: seq<Event>, p: nat)
    requires Unrecorded(more, p)
    ensures forall i | |history| <= i < |history + more| && (history + more)[i].Record? :: (history + more)[i].request != p
  {
    var all := history + more;
    forall i | |history| <= i < |all| && all[i].Record? ensures all[i].request != p {
      assert all[i] == more[i - |history|];
    }
  }

  lemma AloneBeforeLast(history: seq<Event>, all: seq<Event>, tuning: Tuning, p: nat, last: nat)
    requires Alone(After(history, tuning), p) && |history| <= last < |all| && all[..|history|] == history
    requires Wellformed(all, tuning) && forall i | |history| <= i < |all| && all[i].Record? :: all[i].request != p
    ensures !Probe(all, tuning, last)
  {
    AloneStaysAlone(all, tuning, p, |history|, last);
    NotAProbe(all, tuning, last);
  }

  lemma NoneBesideAlone(history: seq<Event>, more: seq<Event>, tuning: Tuning, p: nat)
    requires Alone(After(history, tuning), p)
    ensures !SecondBeside(history, more, tuning, p)
  {
    if more != [] && Unrecorded(more, p) && Wellformed(history + more, tuning) {
      assert (history + more)[..|history|] == history;
      UnrecordedTail(history, more, p);
      AloneBeforeLast(history, history + more, tuning, p, |history + more| - 1);
    }
  }

  lemma NotAProbe(history: seq<Event>, tuning: Tuning, i: nat)
    requires i < |history|
    requires var b := After(history[..i], tuning).breaker; b.circuit == HalfOpen && b.probing
    ensures !Probe(history, tuning, i)
  {
  }

  /** Some moment no event of the history is later than. */
  function Latest(history: seq<Event>): (now: int)
    ensures forall i | 0 <= i < |history| && Timed(history[i]) :: history[i].now <= now
  {
    if history == [] then 0
    else
      var n := |history| - 1;
      var earlier := Latest(history[..n]);
      if Timed(history[n]) && history[n].now > earlier then history[n].now else earlier
  }

  lemma OneMore(history: seq<Event>, tuning: Tuning, e: Event)
    requires Wellformed(history, tuning) && Fits(After(history, tuning), e)
    ensures Wellformed(history + [e], tuning) && After(history + [e], tuning) == Step(After(history, tuning), tuning, e)
  {
    var all := history + [e];
    assert all[..|history|] == history;
    forall i | 0 <= i < |all| ensures Fits(After(all[..i], tuning), all[i]) {
      if i < |history| {
        assert all[..i] == history[..i] && all[i] == history[i];
      }
    }
  }

  lemma OneLater(history: seq<Event>, e: Event)
    requires Ordered(history) && Timed(e) && forall i | 0 <= i < |history| && Timed(history[i]) :: history[i].now <= e.now
    ensures Ordered(history + [e])
    ensures forall i | 0 <= i < |history + [e]| && Timed((history + [e])[i]) :: (history + [e])[i].now <= e.now
  {
  }

  lemma LateFailureFreesTheWay(history: seq<Event>, tuning: Tuning, q: nat) returns (more: seq<Event>)
    requires Wellformed(history, tuning) && Ordered(history) && tuning.cooldown >= 0
    requires var s := After(history, tuning);
             s.breaker.circuit == HalfOpen && q in s.inFlight && q != s.probe
    ensures SecondBeside(history, more, tuning, After(history, tuning).probe)
  {
    var s, t := After(history, tuning), Latest(history);
    var r := FreshRequest(s.inFlight);
    assert r !in s.inFlight;
    var failure, next := Record(q, false, t), Allow(r, t + tuning.cooldown);
    OneMore(history, tuning, failure);
    OneLater(history, failure);
    var h1 := history + [failure];
    OneMore(h1, tuning, next);
    OneLater(h1, next);
    more := [failure, next];
    assert history + more == h1 + [next];
    assert (h1 + [next])[..|h1|] == h1;
  }

  ghost predicate Below(s: set<nat>, bound: nat) {
    forall x <- s :: x < bound
  }

  /** There is always a request that is not in flight. */
  lemma {:induction false} FreshRequest(inFlight: set<nat>) returns (r: nat)
    ensures Below(inFlight, r)
  {
    if inFlight == {} {
      return 0;
    }
    var x :| x in inFlight;
    r := FreshRequest(inFlight - {x});
    r := if r > x then r else x + 1;
    forall y | y in inFlight ensures y < r {
      assert y == x || y in inFlight - {x};
    }
  }

  /** When there is only ever one probe out at a time. Once the circuit is half-open, no further probe can be
      let through beside the one that is out if and only if nothing else is in flight: otherwise a request
      from before the trip may fail late, and end the episode under its probe. */
  lemma OneProbeAtATime(history: seq<Event>, tuning: Tuning)
    requires Wellformed(history, tuning) && Ordered(history) && tuning.cooldown >= 0
    requires After(history, tuning).breaker.circuit == HalfOpen
    ensures var s := After(history, tuning);
            (forall more :: !SecondBeside(history, more, tuning, s.probe)) <==> s.inFlight == {s.probe}
  {
    NeverWedges(history, tuning);
    var s := After(history, tuning);
    if s.inFlight == {s.probe} {
      forall more ensures !SecondBeside(history, more, tuning, s.probe) {
        NoneBesideAlone(history, more, tuning, s.probe);
      }
    } else {
      var q :| q in s.inFlight && q != s.probe;
      var more := LateFailureFreesTheWay(history, tuning, q);
    }
  }

  /** "One probe at a time" holds within an episode only. A failure recorded late by a request from
      before the trip ends the episode while its probe is still out, and a cooldown later there is a
      second probe in flight beside the first. */
  lemma TwoProbesInFlight(cooldown: nat) returns (history: seq<Event>)
    ensures Wellformed(history, Tuning(1, cooldown)) && Ordered(history)
    ensures exists i: nat, j: nat | i < j < |history| ::
              && Probe(history, Tuning(1, cooldown), i) && Probe(history, Tuning(1, cooldown), j)
              && {history[i].request, history[j].request} <= After(history, Tuning(1, cooldown)).inFlight
              && history[i].request != history[j].request
  {
    var tuning := Tuning(1, cooldown);
    history := [Allow(1, 0), Allow(2, 0), Record(1, false, 0),
                Allow(3, cooldown), Record(2, false, cooldown), Allow(4, 2 * cooldown)];
    var h := history;
    assert h[..1] == [Allow(1, 0)] && h[..2][..1] == h[..1] && h[..3][..2] == h[..2];
    assert h[..4][..3] == h[..3] && h[..5][..4] == h[..4] && h[..5] == h[..|h| - 1];
    assert h[..1][..0] == [] == h[..0];
    assert After(h[..0], tuning) == System(FRESH, {}, 0);
    assert After(h[..1], tuning) == System(FRESH, {1}, 0);
    assert After(h[..2], tuning) == System(FRESH, {1, 2}, 0);
    assert After(h[..3], tuning) == System(BreakerState(Open, 0, cooldown, false), {2}, 0);
    assert After(h[..4], tuning) == System(BreakerState(HalfOpen, 0, cooldown, true), {2, 3}, 3);
    assert After(h[..5], tuning) == System(BreakerState(Open, 0, 2 * cooldown, false), {3}, 3);
    assert After(h, tuning) == System(BreakerState(HalfOpen, 0, 2 * cooldown, true), {3, 4}, 4);
    assert Probe(h, tuning, 3) && Probe(h, tuning, 5);
    assert h[3].request == 3 && h[5].request == 4;
  }
}
