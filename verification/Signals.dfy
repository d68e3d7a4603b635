/** How a change in kcp reaches the resource cache: notifications into a channel with room for one
    signal, dropped when it is full, and the loop that takes them (`pkg/kcp/watch.go`,
    `pkg/kcp/discovery.go`). */
module Signals {
  /** The refresh loop: waiting; about to refresh, because of a signal or of the backstop ticker; or
      reading kcp, having begun when `seen` changes had taken place. */
  datatype Runner = Waiting | Due(signalled: bool) | Reading(seen: nat)

  /** Changes are numbered in the order they take place in kcp. The snapshot covers those up to
      `reflected`, and `notified` is the latest one a notification has been sent for. */
  datatype State = State(
    occurred: nat, notified: nat, reflected: nat, slotFull: bool, runner: Runner, lastFailed: bool)

  datatype Action =
    | Change
    | Notify(change: nat)
    | Take
    | Tick
    | Start
    | Finish(succeeded: bool, upTo: nat)

  const INITIAL := State(0, 0, 0, false, Waiting, false)

  predicate Enabled(s: State, a: Action) {
    match a
    case Change => true
    case Notify(change) => change <= s.occurred
    case Take => s.runner == Waiting && s.slotFull
    case Tick => s.runner == Waiting
    case Start => s.runner.Due?
    case Finish(_, upTo) => s.runner.Reading? && s.runner.seen <= upTo <= s.occurred
  }

  function Do(s: State, a: Action): State {
    match a
    case Change => s.(occurred := s.occurred + 1)
    case Notify(change) =>
      // A full channel drops the send.
      s.(slotFull := true, notified := if change > s.notified then change else s.notified)
    case Take => s.(slotFull := false, runner := Due(true))
    case Tick => s.(runner := Due(false))
    case Start => s.(runner := Reading(s.occurred))
    case Finish(succeeded, upTo) =>
      if succeeded then s.(runner := Waiting, reflected := upTo, lastFailed := false)
      else s.(runner := Waiting, lastFailed := true)
  }

  ghost predicate IsRun(s: State, actions: seq<Action>)
    decreases |actions|
  {
    actions == [] || (Enabled(s, actions[0]) && IsRun(Do(s, actions[0]), actions[1..]))
  }

  function After(s: State, actions: seq<Action>): State
    decreases |actions|
  {
    if actions == [] then s else After(Do(s, actions[0]), actions[1..])
  }

  /** A notified change will still be picked up: a signal waits in the channel, or has been taken for a
      read that has not begun, or the read under way began after the change. */
  predicate Awake(s: State) {
    s.slotFull || s.runner == Due(true) || (s.runner.Reading? && s.notified <= s.runner.seen)
  }

  ghost predicate Inv(s: State) {
    && s.notified <= s.occurred && s.reflected <= s.occurred
    && (s.runner.Reading? ==> s.reflected <= s.runner.seen <= s.occurred && (s.slotFull || s.notified <= s.runner.seen))
    && (s.notified <= s.reflected || Awake(s) || s.lastFailed)
  }

  lemma {:induction false} RunKeepsInv(s: State, actions: seq<Action>)
    requires Inv(s) && IsRun(s, actions)
    ensures Inv(After(s, actions))
    decreases |actions|
  {
    if actions != [] {
      RunKeepsInv(Do(s, actions[0]), actions[1..]);
    }
  }

  lemma {:induction false} SuccessKeepsUnfailed(s: State, actions: seq<Action>)
    requires !s.lastFailed && forall a <- actions :: a.Finish? ==> a.succeeded
    ensures !After(s, actions).lastFailed
    decreases |actions|
  {
    if actions != [] {
      SuccessKeepsUnfailed(Do(s, actions[0]), actions[1..]);
    }
  }

  /** Whether a refresh that is due was last asked for by a signal; the backstop asks for others. */
  function AskedBySignal(actions: seq<Action>): bool {
    if actions == [] then false
    else
      var last := actions[|actions| - 1];
      if last.Take? then true else if last.Tick? then false else AskedBySignal(actions[..|actions| - 1])
  }

  lemma {:induction false} RunPrefix(s: State, actions: seq<Action>)
    requires IsRun(s, actions) && actions != []
    ensures var earlier := actions[..|actions| - 1];
            && IsRun(s, earlier) && Enabled(After(s, earlier), actions[|actions| - 1])
            && After(s, actions) == Do(After(s, earlier), actions[|actions| - 1])
    decreases |actions|
  {
    if |actions| > 1 {
      RunPrefix(Do(s, actions[0]), actions[1..]);
      assert actions[..|actions| - 1][1..] == actions[1..][..|actions| - 2];
    } else {
      assert actions[1..] == [];
    }
  }

  /** A signal counts as taken only if it was: a refresh is due with a signal exactly if a signal, not the backstop, was
      what asked for it last. */
  lemma {:induction false} DueIsTaken(actions: seq<Action>)
    requires IsRun(INITIAL, actions)
    ensures var s := After(INITIAL, actions); s.runner.Due? ==> s.runner.signalled == AskedBySignal(actions)
    decreases |actions|
  {
    if actions != [] {
      RunPrefix(INITIAL, actions);
      DueIsTaken(actions[..|actions| - 1]);
    }
  }

  function Taken(actions: seq<Action>): nat {
    if actions == [] then 0 else Taken(actions[..|actions| - 1]) + if actions[|actions| - 1].Take? then 1 else 0
  }

  function Sent(actions: seq<Action>): nat {
    if actions == [] then 0 else Sent(actions[..|actions| - 1]) + if actions[|actions| - 1].Notify? then 1 else 0
  }

  /** No signal is taken that was not sent, and none twice: one send at most is waiting. */
  lemma {:induction false} TakenWereSent(actions: seq<Action>)
    requires IsRun(INITIAL, actions)
    ensures Taken(actions) + (if After(INITIAL, actions).slotFull then 1 else 0) <= Sent(actions)
    decreases |actions|
  {
    if actions != [] {
      RunPrefix(INITIAL, actions);
      TakenWereSent(actions[..|actions| - 1]);
    }
  }

  /** In every run in which refreshes succeed, no notified change is ever forgotten, although sends into
      a full channel are dropped. */
  lemma NoLostWakeup(actions: seq<Action>)
    requires IsRun(INITIAL, actions) && forall a <- actions :: a.Finish? ==> a.succeeded
    ensures var s := After(INITIAL, actions); s.notified > s.reflected ==> Awake(s)
  {
    RunKeepsInv(INITIAL, actions);
    SuccessKeepsUnfailed(INITIAL, actions);
  }

  /** In any run at all, one can be forgotten only while the latest refresh to finish is a failed one. */
  lemma LostOnlyAfterFailure(actions: seq<Action>)
    requires IsRun(INITIAL, actions)
    ensures var s := After(INITIAL, actions); s.notified > s.reflected && !Awake(s) ==> s.lastFailed
  {
    RunKeepsInv(INITIAL, actions);
  }

  /** Exactly when a failed refresh forgets: when what it should have covered has been notified, and nothing has
      been since it took its signal. */
  lemma FailureForgets(actions: seq<Action>, upTo: nat)
    requires IsRun(INITIAL, actions) && Enabled(After(INITIAL, actions), Finish(false, upTo))
    ensures var before := After(INITIAL, actions);
            var s := Do(before, Finish(false, upTo));
            s.notified > s.reflected && !Awake(s) <==> before.notified > before.reflected && !before.slotFull
  {
  }

  /** And that does happen: a failed refresh has used up the signal that asked for it. */
  lemma FailureConsumesSignal() returns (actions: seq<Action>)
    ensures IsRun(INITIAL, actions)
    ensures var s := After(INITIAL, actions); s.notified > s.reflected && !Awake(s)
  {
    actions := [Change, Notify(1), Take, Start, Finish(false, 1)];
    var s3 := Do(Do(Do(INITIAL, Change), Notify(1)), Take);
    assert actions[1..][1..][1..] == [Start, Finish(false, 1)];
    assert [Start, Finish(false, 1)][1..] == [Finish(false, 1)];
    assert IsRun(s3, [Start, Finish(false, 1)]);
    assert After(s3, [Start, Finish(false, 1)]) == Do(Do(s3, Start), Finish(false, 1));
    assert actions[1..] == [Notify(1), Take, Start, Finish(false, 1)];
    assert actions[1..][1..] == [Take, Start, Finish(false, 1)];
  }

  /** What was forgotten is not lost for good: whatever failed before, once a refresh succeeds every
      notified change is covered or will be picked up. */
  lemma SuccessRepairs(actions: seq<Action>, upTo: nat)
    requires IsRun(INITIAL, actions) && Enabled(After(INITIAL, actions), Finish(true, upTo))
    ensures var s := Do(After(INITIAL, actions), Finish(true, upTo)); s.notified > s.reflected ==> s.slotFull
  {
    RunKeepsInv(INITIAL, actions);
  }
}
