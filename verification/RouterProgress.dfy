/** The router's lock, and that every call comes to its end, in every interleaving
    (`pkg/apiserver/router.go`). */
module RouterProgress {
  import opened Wrappers
  import opened ResourceCaches
  import opened Merging
  import opened RouterInterleaving

  /** The reader is between locking and unlocking. */
  predicate Inside(s: State, r: nat) {
    InPhase(s, r, Locked) || InPhase(s, r, Building)
  }

  /** The lock is held exactly while a reader is inside, and by that one alone. */
  ghost predicate LockOk(s: State) {
    && (s.locked <==> exists r :: Inside(s, r))
    && (forall r, q | Inside(s, r) && Inside(s, q) :: r == q)
  }

  /** Readers stay within the sets they loaded, and sets within the caches there are. */
  ghost predicate Shape(s: State) {
    && s.log != [] && (forall i <- s.members :: i < |s.caches|)
    && (forall i | 0 <= i < |s.caches| :: s.caches[i].stored != [])
    && (forall r | 0 <= r < |s.readers| :: ReaderShape(s, s.readers[r]))
  }

  ghost predicate ReaderShape(s: State, c: Reader) {
    c.Call? ==>
      && (c.phase == Counting ==> |c.counted| <= |c.members| && forall i <- c.members :: i < |s.caches|)
      && (c.phase == Building ==> |c.views| <= |c.target| && forall i <- c.target :: i < |s.caches|)
  }

  lemma InitialOk(caches: nat, readers: nat)
    ensures LockOk(Initial(caches, readers)) && Shape(Initial(caches, readers))
  {
  }

  lemma StepReaders(s: State, a: Action)
    requires s.log != [] && Enabled(s, a)
    ensures var t := Do(s, a);
            && |t.readers| == |s.readers| && |t.caches| == |s.caches|
            && (forall r: nat | r < |s.readers| && Actor(a) != Some(r) :: t.readers[r] == s.readers[r])
            && (Actor(a).None? ==> t.locked == s.locked)
            && (Actor(a).Some? ==> Actor(a).value < |s.readers| && t.members == s.members && t.caches == s.caches)
  {
  }

  /** What the acting reader's step does to its being inside, and to the lock. */
  lemma ActorStep(s: State, a: Action)
    requires s.log != [] && Enabled(s, a) && Actor(a).Some?
    ensures var t, r := Do(s, a), Actor(a).value;
            && (Inside(s, r) && Inside(t, r) ==> t.locked == s.locked)
            && (Inside(s, r) && !Inside(t, r) ==> !t.locked)
            && (!Inside(s, r) && Inside(t, r) ==> !s.locked && t.locked)
            && (!Inside(s, r) && !Inside(t, r) ==> t.locked == s.locked)
  {
  }

  lemma StepKeepsLock(s: State, a: Action)
    requires s.log != [] && LockOk(s) && Enabled(s, a)
    ensures LockOk(Do(s, a))
  {
    var t := Do(s, a);
    StepReaders(s, a);
    if Actor(a).None? {
      forall r ensures Inside(t, r) <==> Inside(s, r) {
      }
    } else {
      var me := Actor(a).value;
      ActorStep(s, a);
      forall r | r != me ensures Inside(t, r) <==> Inside(s, r) {
      }
      if h :| Inside(s, h) {
        assert Inside(t, h) || h == me;
      }
    }
  }

  lemma StepKeepsShape(s: State, a: Action)
    requires Shape(s) && Enabled(s, a)
    ensures Shape(Do(s, a))
  {
    var t := Do(s, a);
    StepReaders(s, a);
    forall r | 0 <= r < |t.readers| ensures ReaderShape(t, t.readers[r]) {
      assert ReaderShape(s, s.readers[r]);
    }
  }

  lemma {:induction false} RunKeepsLock(s: State, actions: seq<Action>)
    requires Shape(s) && LockOk(s) && IsRun(s, actions)
    ensures Shape(After(s, actions)) && LockOk(After(s, actions))
    decreases |actions|
  {
    if actions != [] {
      StepKeepsLock(s, actions[0]);
      StepKeepsShape(s, actions[0]);
      RunKeepsLock(Do(s, actions[0]), actions[1..]);
    }
  }

  /** In every run, whatever the keys: the lock is held if and only if a reader is between locking and unlocking, and
      never by two. */
  lemma LockIsHeldInside(caches: nat, readers: nat, actions: seq<Action>)
    requires IsRun(Initial(caches, readers), actions)
    ensures var s := After(Initial(caches, readers), actions);
            && (s.locked <==> exists r :: Inside(s, r))
            && (forall r, q | Inside(s, r) && Inside(s, q) :: r == q)
  {
    InitialOk(caches, readers);
    RunKeepsLock(Initial(caches, readers), actions);
  }

  // -------- every call comes to its end --------

  /** What a reader does next in its call. */
  function Next(s: State, r: nat): Action
    requires r < |s.readers| && s.readers[r].Call?
  {
    var c := s.readers[r];
    match c.phase
    case Counting => if |c.counted| < |c.members| then Count(r) else LoadRevision(r)
    case Keyed => Check(r)
    case Waiting => Acquire(r)
    case Locked => Recheck(r)
    case Building => if |c.views| < |c.target| then LoadView(r) else Publish(r)
  }

  lemma NextEnabled(s: State, r: nat)
    requires Shape(s) && r < |s.readers| && s.readers[r].Call?
    ensures Enabled(s, Next(s, r)) <==> !(s.readers[r].phase == Waiting && s.locked)
    ensures Actor(Next(s, r)) == Some(r)
  {
    var c := s.readers[r];
    assert ReaderShape(s, c);
    if c.phase == Counting && |c.counted| < |c.members| {
      assert c.members[|c.counted|] in c.members;
    }
    if c.phase == Building && |c.views| < |c.target| {
      assert c.target[|c.views|] in c.target;
    }
  }

  /** No call is stuck. In every run, a reader in a call can go on, or waits for exactly one other, which is inside
      and can go on. */
  lemma NoCallWedges(caches: nat, readers: nat, actions: seq<Action>, r: nat)
    requires IsRun(Initial(caches, readers), actions)
    requires var s := After(Initial(caches, readers), actions); r < |s.readers| && s.readers[r].Call?
    ensures var s := After(Initial(caches, readers), actions);
            || Enabled(s, Next(s, r))
            || (InPhase(s, r, Waiting) && exists h: nat ::
                  Inside(s, h) && h != r && Enabled(s, Next(s, h)) && forall q | Inside(s, q) :: q == h)
  {
    InitialOk(caches, readers);
    RunKeepsLock(Initial(caches, readers), actions);
    var s := After(Initial(caches, readers), actions);
    NextEnabled(s, r);
    if !Enabled(s, Next(s, r)) {
      var h: nat :| Inside(s, h);
      NextEnabled(s, h);
    }
  }

  /** When the one inside is answered, by a hit under the lock or by its own rebuild, one that waits can lock. */
  lemma LeavingUnlocks(s: State, h: nat, r: nat)
    requires Shape(s) && LockOk(s) && Inside(s, h) && InPhase(s, r, Waiting) && Enabled(s, Next(s, h))
    requires Do(s, Next(s, h)).readers[h].Returned?
    ensures Enabled(Do(s, Next(s, h)), Acquire(r))
  {
    NextEnabled(s, h);
    StepReaders(s, Next(s, h));
    ActorStep(s, Next(s, h));
  }

  lemma FirstStep(s: State, a: Action, rest: seq<Action>)
    requires s.log != [] && Enabled(s, a) && IsRun(Do(s, a), rest)
    ensures IsRun(s, [a] + rest) && After(s, [a] + rest) == After(Do(s, a), rest)
  {
    assert ([a] + rest)[1..] == rest;
  }

  lemma OneStep(s: State, a: Action)
    requires s.log != [] && Enabled(s, a)
    ensures IsRun(s, [a]) && After(s, [a]) == Do(s, a)
  {
    var none: seq<Action> := [];
    assert [a][1..] == none && IsRun(Do(s, a), none) && After(Do(s, a), none) == Do(s, a);
  }

  lemma {:induction false} RunConcat(s: State, a: seq<Action>, b: seq<Action>)
    requires s.log != [] && IsRun(s, a) && IsRun(After(s, a), b)
    ensures IsRun(s, a + b) && After(s, a + b) == After(After(s, a), b)
    decreases |a|
  {
    if a == [] {
      assert a + b == b;
    } else {
      assert (a + b)[1..] == a[1..] + b;
      RunConcat(Do(s, a[0]), a[1..], b);
    }
  }

  ghost predicate OnlyBy(actions: seq<Action>, r: nat) {
    forall a <- actions :: Actor(a) == Some(r)
  }

  function Rank(c: Reader): nat {
    if !c.Call? then 0
    else match c.phase
         case Counting => 5
         case Keyed => 4
         case Waiting => 3
         case Locked => 2
         case Building => 1
  }

  function Remaining(c: Reader): int {
    if !c.Call? then 0
    else if c.phase == Counting then |c.members| - |c.counted|
    else if c.phase == Building then |c.target| - |c.views|
    else 0
  }

  predicate Nearer(d: Reader, c: Reader) {
    d.Returned?
    || (d.Call? && 0 <= Remaining(d) && (Rank(d) < Rank(c) || (Rank(d) == Rank(c) && Remaining(d) < Remaining(c))))
  }

  lemma KeyAdvances(s: State, r: nat)
    requires Shape(s) && InPhase(s, r, Counting) && Enabled(s, Next(s, r))
    ensures Nearer(Do(s, Next(s, r)).readers[r], s.readers[r])
  {
    assert ReaderShape(s, s.readers[r]);
  }

  lemma CheckAdvances(s: State, r: nat)
    requires Shape(s) && (InPhase(s, r, Keyed) || InPhase(s, r, Waiting)) && Enabled(s, Next(s, r))
    ensures Nearer(Do(s, Next(s, r)).readers[r], s.readers[r])
  {
  }

  lemma InsideAdvances(s: State, r: nat)
    requires Shape(s) && Inside(s, r) && Enabled(s, Next(s, r))
    ensures Nearer(Do(s, Next(s, r)).readers[r], s.readers[r])
  {
    assert ReaderShape(s, s.readers[r]);
  }

  /** A step of its own brings a reader nearer to its answer. */
  lemma NextAdvances(s: State, r: nat)
    requires Shape(s) && r < |s.readers| && s.readers[r].Call? && Enabled(s, Next(s, r))
    ensures r < |Do(s, Next(s, r)).readers| && Nearer(Do(s, Next(s, r)).readers[r], s.readers[r])
  {
    NextEnabled(s, r);
    StepReaders(s, Next(s, r));
    match s.readers[r].phase
    case Counting => KeyAdvances(s, r);
    case Keyed => CheckAdvances(s, r);
    case Waiting => CheckAdvances(s, r);
    case Locked => InsideAdvances(s, r);
    case Building => InsideAdvances(s, r);
  }

  /** Left to itself, the reader inside comes to its answer and unlocks. */
  lemma {:induction false} HolderReturns(s: State, h: nat) returns (run: seq<Action>)
    requires Shape(s) && LockOk(s) && Inside(s, h)
    ensures IsRun(s, run) && OnlyBy(run, h)
    ensures var t := After(s, run);
            && Shape(t) && LockOk(t) && !t.locked && h < |t.readers| == |s.readers| && t.readers[h].Returned?
            && forall r: nat | r < |s.readers| && r != h :: t.readers[r] == s.readers[r]
    decreases Rank(s.readers[h]), Remaining(s.readers[h])
  {
    var a := Next(s, h);
    NextEnabled(s, h);
    NextAdvances(s, h);
    StepReaders(s, a);
    ActorStep(s, a);
    StepKeepsLock(s, a);
    StepKeepsShape(s, a);
    var t := Do(s, a);
    if t.readers[h].Returned? {
      run := [a];
      OneStep(s, a);
    } else {
      var rest := HolderReturns(t, h);
      FirstStep(s, a, rest);
      run := [a] + rest;
    }
  }

  /** Every call can be answered, with no help but that of the reader inside, if there is one: no cache, no replacement and no
      other reader has to move for it. */
  lemma {:induction false} CallReturns(s: State, r: nat) returns (run: seq<Action>)
    requires Shape(s) && LockOk(s) && r < |s.readers| && s.readers[r].Call?
    ensures IsRun(s, run) && r < |After(s, run).readers| && After(s, run).readers[r].Returned?
    ensures forall a <- run :: Actor(a) == Some(r) || (Actor(a).Some? && Inside(s, Actor(a).value))
    decreases Rank(s.readers[r]), Remaining(s.readers[r]), if s.locked then 1 else 0
  {
    var a := Next(s, r);
    NextEnabled(s, r);
    if !Enabled(s, a) {
      var h: nat :| Inside(s, h);
      var first := HolderReturns(s, h);
      var t := After(s, first);
      var rest := CallReturns(t, r);
      RunConcat(s, first, rest);
      run := first + rest;
      forall b | b in run ensures Actor(b) == Some(r) || (Actor(b).Some? && Inside(s, Actor(b).value)) {
        assert b in first || b in rest;
      }
    } else {
      NextAdvances(s, r);
      StepReaders(s, a);
      ActorStep(s, a);
      StepKeepsLock(s, a);
      StepKeepsShape(s, a);
      var t := Do(s, a);
      if t.readers[r].Returned? {
        run := [a];
        OneStep(s, a);
      } else {
        var rest := CallReturns(t, r);
        FirstStep(s, a, rest);
        run := [a] + rest;
        forall b | b in run ensures Actor(b) == Some(r) || (Actor(b).Some? && Inside(s, Actor(b).value)) {
          if b in rest && Actor(b) != Some(r) {
            assert Inside(t, Actor(b).value);
          }
        }
      }
    }
  }

  /** So in every run every call under way can be answered. */
  lemma EveryCallCanReturn(caches: nat, readers: nat, actions: seq<Action>, r: nat) returns (more: seq<Action>)
    requires IsRun(Initial(caches, readers), actions)
    requires var s := After(Initial(caches, readers), actions); r < |s.readers| && s.readers[r].Call?
    ensures IsRun(Initial(caches, readers), actions + more)
    ensures var t := After(Initial(caches, readers), actions + more); r < |t.readers| && t.readers[r].Returned?
  {
    InitialOk(caches, readers);
    RunKeepsLock(Initial(caches, readers), actions);
    more := CallReturns(After(Initial(caches, readers), actions), r);
    RunConcat(Initial(caches, readers), actions, more);
  }

  // -------- the cache is used --------

  /** What was rebuilt is held, for the calls that come after. */
  lemma RebuiltIsHeld(s: State, r: nat)
    requires s.log != [] && Enabled(s, Publish(r))
    ensures var t := Do(s, Publish(r));
            && t.readers[r].Returned? && t.readers[r].start == s.readers[r].start
            && t.merged == Some(t.readers[r].entry) && t.readers[r].entry.view == Merge(s.readers[r].views)
  {
  }

  /** The counters of the set in place. */
  function Current(s: State): seq<nat>
    requires forall i <- s.members :: i < |s.caches|
  {
    assert forall k | 0 <= k < |s.members| :: s.members[k] in s.members;
    seq(|s.members|, k requires 0 <= k < |s.members| => s.caches[s.members[k]].generation)
  }

  lemma {:induction false} Counts(s: State, r: nat) returns (run: seq<Action>, t: State)
    requires Shape(s) && InPhase(s, r, Counting) && s.readers[r].members == s.members
    requires |s.readers[r].counted| <= |s.members|
    requires s.readers[r].counted == Current(s)[..|s.readers[r].counted|]
    ensures IsRun(s, run) && After(s, run) == t && forall a <- run :: a == Count(r)
    ensures t == s.(readers := s.readers[r := s.readers[r].(counted := Current(s))])
    decreases |s.members| - |s.readers[r].counted|
  {
    var c := s.readers[r];
    if |c.counted| == |s.members| {
      run, t := [], s;
      assert Current(s)[..|s.members|] == Current(s);
      assert c.(counted := Current(s)) == c && s.readers[r := c] == s.readers;
    } else {
      var a := Count(r);
      assert s.members[|c.counted|] in s.members;
      assert Enabled(s, a);
      StepKeepsShape(s, a);
      var next := Do(s, a);
      assert Current(next) == Current(s);
      assert Current(s)[..|c.counted| + 1] == Current(s)[..|c.counted|] + [Current(s)[|c.counted|]];
      var rest;
      rest, t := Counts(next, r);
      FirstStep(s, a, rest);
      run := [a] + rest;
    }
  }

  /** A reader that has added the counters up loads the revision, finds the view held under its key, and is answered. */
  lemma KeyedIsHit(s: State, r: nat)
    requires s.log != [] && InPhase(s, r, Counting) && |s.readers[r].counted| == |s.readers[r].members|
    requires s.merged.Some? && s.merged.value.generation == Total(s.readers[r].counted) && s.merged.value.revision == s.revision
    ensures var run := [LoadRevision(r), Check(r)];
            && IsRun(s, run)
            && After(s, run) == s.(readers := s.readers[r := Returned(s.readers[r].start, s.merged.value)])
  {
    var t := Do(s, LoadRevision(r));
    assert Do(t, Check(r)).readers == s.readers[r := Returned(s.readers[r].start, s.merged.value)];
    OneStep(t, Check(r));
    FirstStep(s, LoadRevision(r), [Check(r)]);
    assert [LoadRevision(r)] + [Check(r)] == [LoadRevision(r), Check(r)];
  }

  /** While nothing has moved since a view was put in place, a call is handed that very view, without locking or merging. */
  lemma UnmovedIsHit(s: State, r: nat) returns (run: seq<Action>)
    requires Shape(s) && r < |s.readers| && !s.readers[r].Call?
    requires s.merged.Some? && s.merged.value.generation == Total(Current(s)) && s.merged.value.revision == s.revision
    ensures IsRun(s, run) && forall a <- run :: a in {Begin(r), Count(r), LoadRevision(r), Check(r)}
    ensures After(s, run) == s.(readers := s.readers[r := Returned(Now(s), s.merged.value)])
  {
    var begun := Do(s, Begin(r));
    StepKeepsShape(s, Begin(r));
    assert Current(begun) == Current(s);
    var counts, counted := Counts(begun, r);
    KeyedIsHit(counted, r);
    var last := [LoadRevision(r), Check(r)];
    RunConcat(begun, counts, last);
    FirstStep(s, Begin(r), counts + last);
    run := [Begin(r)] + (counts + last);
    assert After(counted, last).readers == s.readers[r := Returned(Now(s), s.merged.value)];
  }
}
