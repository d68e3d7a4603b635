/** What a replacement in the middle of a reader's key loads does. The set and the revision are two stores in
    the router and two loads in a reader, and there are two ways to pair them wrongly; either can hand a
    later call a view older than the refreshes it is owed. Two readers, two workspaces. */
module RouterMispairing {
  import opened Wrappers
  import opened ResourceCaches
  import opened Merging
  import opened RouterInterleaving

  /** A reader about to load a later revision, or an earlier one, than its set is meant for. */
  predicate Late(s: State, a: Action) {
    a.LoadRevision? && InPhase(s, a.reader, Counting) && s.readers[a.reader].loaded < s.revision
  }

  predicate Early(s: State, a: Action) {
    a.LoadRevision? && InPhase(s, a.reader, Counting) && s.readers[a.reader].loaded > s.revision
  }

  ghost function LateIn(s: State, run: seq<Action>): nat
    requires s.log != [] && IsRun(s, run)
    decreases |run|
  {
    if run == [] then 0 else (if Late(s, run[0]) then 1 else 0) + LateIn(Do(s, run[0]), run[1..])
  }

  ghost function EarlyIn(s: State, run: seq<Action>): nat
    requires s.log != [] && IsRun(s, run)
    decreases |run|
  {
    if run == [] then 0 else (if Early(s, run[0]) then 1 else 0) + EarlyIn(Do(s, run[0]), run[1..])
  }

  lemma {:induction false} RunSnoc(s: State, actions: seq<Action>, a: Action)
    requires s.log != [] && IsRun(s, actions) && Enabled(After(s, actions), a)
    ensures IsRun(s, actions + [a]) && After(s, actions + [a]) == Do(After(s, actions), a)
    ensures LateIn(s, actions + [a]) == LateIn(s, actions) + (if Late(After(s, actions), a) then 1 else 0)
    ensures EarlyIn(s, actions + [a]) == EarlyIn(s, actions) + (if Early(After(s, actions), a) then 1 else 0)
    decreases |actions|
  {
    if actions == [] {
      assert [a][1..] == [] && actions + [a] == [a];
    } else {
      assert (actions + [a])[1..] == actions[1..] + [a];
      RunSnoc(Do(s, actions[0]), actions[1..], a);
    }
  }

  ghost predicate Reaches(s: State, late: nat, early: nat, t: State)
    requires s.log != []
  {
    exists run :: IsRun(s, run) && LateIn(s, run) == late && EarlyIn(s, run) == early && After(s, run) == t
  }

  /** Some run with just so many late and early keys leads there. */
  ghost predicate Reachable(late: nat, early: nat, s: State) {
    Reaches(Initial(2, 2), late, early, s)
  }

  lemma ThenAny(late: nat, early: nat, s: State, a: Action, t: State)
    requires s.log != [] && Reachable(late, early, s) && Enabled(s, a) && Do(s, a) == t
    ensures Reachable(late + (if Late(s, a) then 1 else 0), early + (if Early(s, a) then 1 else 0), t)
  {
    var run :| IsRun(Initial(2, 2), run) && LateIn(Initial(2, 2), run) == late && EarlyIn(Initial(2, 2), run) == early
               && After(Initial(2, 2), run) == s;
    RunSnoc(Initial(2, 2), run, a);
  }

  lemma Then(late: nat, early: nat, s: State, a: Action, t: State)
    requires s.log != [] && Reachable(late, early, s) && !a.LoadRevision? && Enabled(s, a) && Do(s, a) == t
    ensures Reachable(late, early, t)
  {
    ThenAny(late, early, s, a, t);
  }

  lemma ThenLoadRevision(late: nat, early: nat, s: State, r: nat, t: State)
    requires s.log != [] && Reachable(late, early, s) && Enabled(s, LoadRevision(r)) && Do(s, LoadRevision(r)) == t
    ensures var loaded := s.readers[r].loaded;
            Reachable(if loaded < s.revision then late + 1 else late, if loaded > s.revision then early + 1 else early, t)
  {
    ThenAny(late, early, s, LoadRevision(r), t);
  }

  // -------- longer steps --------

  /** A cache is refreshed: the snapshot stored, then the counter bumped. */
  function Refreshed(s: State, i: nat, next: Snapshot): State
    requires i < |s.caches|
  {
    var caches := s.caches[i := Cache(s.caches[i].stored + [next], s.caches[i].generation + 1)];
    s.(caches := caches, log := s.log + [Counters(caches)])
  }

  lemma ThenRefresh(late: nat, early: nat, s: State, i: nat, next: Snapshot)
    requires s.log != [] && Enabled(s, StoreSnapshot(i, next)) && Reachable(late, early, s)
    ensures Reachable(late, early, Refreshed(s, i, next))
  {
    var mid := Do(s, StoreSnapshot(i, next));
    var t := Refreshed(s, i, next);
    assert mid.caches[i := mid.caches[i].(generation := mid.caches[i].generation + 1)] == t.caches;
    Then(late, early, s, StoreSnapshot(i, next), mid);
    Then(late, early, mid, Bump(i), t);
  }

  lemma RefreshFirst(late: nat, early: nat, s: State, next: Snapshot, t: State)
    requires s.log != [] && |s.caches| == 2 && Enabled(s, StoreSnapshot(0, next)) && Reachable(late, early, s)
    requires var a, b := s.caches[0], s.caches[1];
             t == s.(caches := [Cache(a.stored + [next], a.generation + 1), b],
                     log := s.log + [[a.generation + 1, b.generation]])
    ensures Reachable(late, early, t)
  {
    assert Refreshed(s, 0, next).caches == t.caches;
    assert Counters(t.caches) == [t.caches[0].generation, t.caches[1].generation];
    ThenRefresh(late, early, s, 0, next);
  }

  lemma RefreshSecond(late: nat, early: nat, s: State, next: Snapshot, t: State)
    requires s.log != [] && |s.caches| == 2 && Enabled(s, StoreSnapshot(1, next)) && Reachable(late, early, s)
    requires var a, b := s.caches[0], s.caches[1];
             t == s.(caches := [a, Cache(b.stored + [next], b.generation + 1)],
                     log := s.log + [[a.generation, b.generation + 1]])
    ensures Reachable(late, early, t)
  {
    assert Refreshed(s, 1, next).caches == t.caches;
    assert Counters(t.caches) == [t.caches[0].generation, t.caches[1].generation];
    ThenRefresh(late, early, s, 1, next);
  }

  lemma ThenReplace(late: nat, early: nat, s: State, next: seq<nat>, t: State)
    requires s.log != [] && !s.replacing && Reachable(late, early, s) && forall i <- next :: i < |s.caches|
    requires t == s.(members := next, revision := s.revision + 1, sets := s.sets + [next], since := s.since + [Now(s)])
    ensures Reachable(late, early, t)
  {
    var mid := Do(s, StoreSet(next));
    Then(late, early, s, StoreSet(next), mid);
    Then(late, early, mid, AddRevision, t);
  }

  /** A reader of a set of one workspace, `i`, that has its key. */
  function KeyOf(s: State, i: nat): Reader
    requires s.log != [] && i < |s.caches|
  {
    Call(Keyed, Now(s), s.members, Latest(s), [s.caches[i].generation], s.revision, Now(s), [], 0, 0, [], [])
  }

  lemma ThenKey(late: nat, early: nat, s: State, r: nat, i: nat)
    requires s.log != [] && Reachable(late, early, s) && r < |s.readers| && s.readers[r].Idle?
    requires s.members == [i] && i < |s.caches|
    ensures Reachable(late, if s.replacing then early + 1 else early, s.(readers := s.readers[r := KeyOf(s, i)]))
  {
    var begun := Call(Counting, Now(s), s.members, Latest(s), [], 0, 0, [], 0, 0, [], []);
    var counted := begun.(counted := [s.caches[i].generation]);
    var s1, s2 := s.(readers := s.readers[r := begun]), s.(readers := s.readers[r := counted]);
    assert [] + counted.counted == counted.counted;
    Then(late, early, s, Begin(r), s1);
    Then(late, early, s1, Count(r), s2);
    ThenLoadRevision(late, early, s2, r, s.(readers := s.readers[r := KeyOf(s, i)]));
  }

  /** What a reader with key `c` leaves behind that rebuilds the view of one workspace, `i`. */
  function RebuiltBy(s: State, c: Reader, i: nat): Entry
    requires s.log != [] && c.Call? && i < |s.caches| && s.caches[i].stored != []
  {
    var last := |s.caches[i].stored| - 1;
    Entry(Total(c.counted), c.revision, Merge([s.caches[i].stored[last]]),
          c.counted, c.summed, [i], Latest(s), Now(s), [last])
  }

  lemma ThenRebuild(late: nat, early: nat, s: State, c: Reader, i: nat)
    requires s.log != [] && Reachable(late, early, s) && s.merged.None? && !s.locked
    requires s.readers == [c, Idle] && c.Call? && c.phase == Keyed
    requires s.members == [i] && i < |s.caches| && s.caches[i].stored != []
    ensures var e := RebuiltBy(s, c, i);
            Reachable(late, early, s.(readers := [Returned(c.start, e), Idle], merged := Some(e)))
  {
    var waiting := s.(readers := [c.(phase := Waiting), Idle]);
    Then(late, early, s, Check(0), waiting);
    var locked := s.(readers := [c.(phase := Locked), Idle], locked := true);
    Then(late, early, waiting, Acquire(0), locked);
    var b := c.(phase := Building, target := [i], targetRevision := Latest(s), built := Now(s), from := [], views := []);
    var building := s.(readers := [b, Idle], locked := true);
    Then(late, early, locked, Recheck(0), building);
    RebuildLoads(late, early, s, c, b, i, building);
  }

  lemma RebuildLoads(late: nat, early: nat, s: State, c: Reader, b: Reader, i: nat, building: State)
    requires s.log != [] && s.merged.None? && !s.locked && c.Call? && i < |s.caches| && s.caches[i].stored != []
    requires b == c.(phase := Building, target := [i], targetRevision := Latest(s), built := Now(s), from := [], views := [])
    requires building == s.(readers := [b, Idle], locked := true) && Reachable(late, early, building)
    ensures var e := RebuiltBy(s, c, i);
            Reachable(late, early, s.(readers := [Returned(c.start, e), Idle], merged := Some(e)))
  {
    var stored := s.caches[i].stored;
    var loaded := b.(from := [|stored| - 1], views := [stored[|stored| - 1]]);
    assert b.from + [|stored| - 1] == loaded.from && b.views + [stored[|stored| - 1]] == loaded.views;
    var viewed := s.(readers := [loaded, Idle], locked := true);
    Then(late, early, building, LoadView(0), viewed);
    RebuildPublishes(late, early, s, c, loaded, i, viewed);
  }

  lemma RebuildPublishes(late: nat, early: nat, s: State, c: Reader, loaded: Reader, i: nat, viewed: State)
    requires s.log != [] && s.merged.None? && !s.locked && c.Call? && i < |s.caches| && s.caches[i].stored != []
    requires var stored := s.caches[i].stored;
             loaded == c.(phase := Building, target := [i], targetRevision := Latest(s), built := Now(s),
                          from := [|stored| - 1], views := [stored[|stored| - 1]])
    requires viewed == s.(readers := [loaded, Idle], locked := true) && Reachable(late, early, viewed)
    ensures var e := RebuiltBy(s, c, i);
            Reachable(late, early, s.(readers := [Returned(c.start, e), Idle], merged := Some(e)))
  {
    var e := RebuiltBy(s, c, i);
    assert Built(loaded) == e;
    Then(late, early, viewed, Publish(0), s.(readers := [Returned(c.start, e), Idle], merged := Some(e)));
  }

  // -------- two workspaces --------

  /** The first refreshed twice, the second once; the first is routed. */
  function TwoWorkspaces(first: Snapshot, older: Snapshot): State {
    State([Cache([EMPTY_SNAPSHOT, first, first], 2), Cache([EMPTY_SNAPSHOT, older], 1)], [0], 1, false, None, false,
          [Idle, Idle], [[0, 0], [1, 0], [2, 0], [2, 1]], [[], [0]], [0, 3])
  }

  function Unrouted(first: Cache, second: Cache, log: seq<seq<nat>>): State {
    State([first, second], [], 0, false, None, false, [Idle, Idle], log, [[]], [0])
  }

  lemma StartTwo()
    ensures var none := Cache([EMPTY_SNAPSHOT], 0);
            Reachable(0, 0, Unrouted(none, none, [[0, 0]]))
  {
    var none := Cache([EMPTY_SNAPSHOT], 0);
    var s, s0 := Initial(2, 2), Unrouted(none, none, [[0, 0]]);
    assert s.caches == s0.caches && s.readers == s0.readers && s.log[0] == s0.log[0];
    assert IsRun(s0, []) && After(s0, []) == s0;
  }

  lemma PrepareFirst(first: Snapshot)
    ensures Reachable(0, 0, Unrouted(Cache([EMPTY_SNAPSHOT, first, first], 2), Cache([EMPTY_SNAPSHOT], 0),
                                     [[0, 0], [1, 0], [2, 0]]))
  {
    StartTwo();
    var none := Cache([EMPTY_SNAPSHOT], 0);
    var s0 := Unrouted(none, none, [[0, 0]]);
    var s1 := Unrouted(Cache([EMPTY_SNAPSHOT, first], 1), none, [[0, 0], [1, 0]]);
    assert [EMPTY_SNAPSHOT] + [first] == s1.caches[0].stored && s0.log + [[1, 0]] == s1.log;
    RefreshFirst(0, 0, s0, first, s1);
    var s2 := Unrouted(Cache([EMPTY_SNAPSHOT, first, first], 2), none, [[0, 0], [1, 0], [2, 0]]);
    assert s1.caches[0].stored + [first] == s2.caches[0].stored && s1.log + [[2, 0]] == s2.log;
    RefreshFirst(0, 0, s1, first, s2);
  }

  lemma PrepareTwo(first: Snapshot, older: Snapshot)
    ensures Reachable(0, 0, TwoWorkspaces(first, older))
  {
    PrepareFirst(first);
    var s2 := Unrouted(Cache([EMPTY_SNAPSHOT, first, first], 2), Cache([EMPTY_SNAPSHOT], 0), [[0, 0], [1, 0], [2, 0]]);
    var s3 := Unrouted(s2.caches[0], Cache([EMPTY_SNAPSHOT, older], 1), [[0, 0], [1, 0], [2, 0], [2, 1]]);
    assert [EMPTY_SNAPSHOT] + [older] == s3.caches[1].stored && s2.log + [[2, 1]] == s3.log;
    RefreshSecond(0, 0, s2, older, s3);
    assert s3.sets + [[0]] == [[], [0]] && s3.since + [3] == [0, 3];
    ThenReplace(0, 0, s3, [0], TwoWorkspaces(first, older));
  }

  // -------- the old set's sum under the new revision --------

  /** The key of a reader that adds up the first workspace's counter, and loads the revision after the
      second has been put in its place. */
  function OldSumNewRevision(): Reader {
    Call(Keyed, 3, [0], 1, [2], 2, 3, [], 0, 0, [], [])
  }

  function MiskeyedState(first: Snapshot, older: Snapshot): State {
    TwoWorkspaces(first, older).(members := [1], revision := 2, sets := [[], [0], [1]], since := [0, 3, 3],
                                 readers := [OldSumNewRevision(), Idle])
  }

  lemma Miskey(first: Snapshot, older: Snapshot)
    ensures Reachable(1, 0, MiskeyedState(first, older))
  {
    PrepareTwo(first, older);
    var s0 := TwoWorkspaces(first, older);
    var c := Call(Counting, 3, [0], 1, [], 0, 0, [], 0, 0, [], []);
    var s1 := s0.(readers := [c, Idle]);
    Then(0, 0, s0, Begin(0), s1);
    var s2 := s0.(readers := [c.(counted := [2]), Idle]);
    assert c.counted + [2] == [2];
    Then(0, 0, s1, Count(0), s2);
    var s3 := s2.(members := [1], revision := 2, sets := [[], [0], [1]], since := [0, 3, 3]);
    assert s2.sets + [[1]] == s3.sets && s2.since + [3] == s3.since;
    ThenReplace(0, 0, s2, [1], s3);
    ThenLoadRevision(0, 0, s3, 0, MiskeyedState(first, older));
  }

  function Mispaired(older: Snapshot): Entry {
    Entry(2, 2, Merge([older]), [2], 3, [1], 2, 3, [1])
  }

  function MispairedState(first: Snapshot, older: Snapshot): State {
    MiskeyedState(first, older).(merged := Some(Mispaired(older)), readers := [Returned(3, Mispaired(older)), Idle])
  }

  lemma Mispair(first: Snapshot, older: Snapshot)
    ensures Reachable(1, 0, MispairedState(first, older))
  {
    Miskey(first, older);
    var s := MiskeyedState(first, older);
    assert Total([2]) == 2;
    assert RebuiltBy(s, OldSumNewRevision(), 1) == Mispaired(older);
    ThenRebuild(1, 0, s, OldSumNewRevision(), 1);
  }

  /** The second workspace has been refreshed once more. */
  function CaughtUp(first: Snapshot, older: Snapshot, newer: Snapshot): State {
    MispairedState(first, older).(
      caches := [Cache([EMPTY_SNAPSHOT, first, first], 2), Cache([EMPTY_SNAPSHOT, older, newer], 2)],
      log := [[0, 0], [1, 0], [2, 0], [2, 1], [2, 2]])
  }

  lemma CatchUp(first: Snapshot, older: Snapshot, newer: Snapshot)
    ensures Reachable(1, 0, CaughtUp(first, older, newer))
  {
    Mispair(first, older);
    var s, t := MispairedState(first, older), CaughtUp(first, older, newer);
    assert s.caches[1].stored + [newer] == t.caches[1].stored && s.log + [[2, 2]] == t.log;
    RefreshSecond(1, 0, s, newer, t);
  }

  /** A replacement between the two key loads pairs the old set's sum with the new revision. When the new
      set's counters later reach that sum, a call is handed what was merged then: here, for any snapshots,
      the older one although the newer was published before the call. */
  lemma ReplaceBetweenKeyLoads(first: Snapshot, older: Snapshot, newer: Snapshot) returns (s: State)
    ensures Reachable(1, 0, s) && |s.readers| == 2 && s.readers[1].Returned?
    ensures s.members == [1] && |s.caches| == 2 && s.caches[1].stored == [EMPTY_SNAPSHOT, older, newer]
    ensures s.readers[1].start < |s.log| && s.log[s.readers[1].start] == [2, 2]
    ensures s.readers[1].entry.view == Merge([older])
    ensures !Covers(s, s.readers[1].start, s.readers[1].entry)
  {
    CatchUp(first, older, newer);
    var before := CaughtUp(first, older, newer);
    ThenKey(1, 0, before, 1, 1);
    var keyed := before.(readers := before.readers[1 := KeyOf(before, 1)]);
    assert Total([2]) == 2;
    s := before.(readers := [Returned(3, Mispaired(older)), Returned(4, Mispaired(older))]);
    Then(1, 0, keyed, Check(1), s);
    assert !Recent(s, 4, Mispaired(older).members[0], Mispaired(older).from[0]);
  }

  // -------- the new set's sum under the old revision --------

  /** The view of the first workspace, rightly keyed. */
  function RightlyPaired(first: Snapshot): Entry {
    Entry(2, 1, Merge([first]), [2], 3, [0], 1, 3, [2])
  }

  function PairedState(first: Snapshot, older: Snapshot): State {
    TwoWorkspaces(first, older).(merged := Some(RightlyPaired(first)), readers := [Returned(3, RightlyPaired(first)), Idle])
  }

  lemma Pair(first: Snapshot, older: Snapshot)
    ensures Reachable(0, 0, PairedState(first, older))
  {
    PrepareTwo(first, older);
    var s := TwoWorkspaces(first, older);
    ThenKey(0, 0, s, 0, 0);
    var c := KeyOf(s, 0);
    var keyed := s.(readers := [c, Idle]);
    assert s.readers[0 := c] == keyed.readers;
    assert Total([2]) == 2;
    var stored := keyed.caches[0].stored;
    assert stored == [EMPTY_SNAPSHOT, first, first] && stored[|stored| - 1] == first;
    assert RebuiltBy(keyed, c, 0) == RightlyPaired(first);
    ThenRebuild(0, 0, keyed, c, 0);
    assert keyed.(readers := [Returned(3, RightlyPaired(first)), Idle], merged := Some(RightlyPaired(first)))
        == PairedState(first, older);
  }

  /** Both workspaces have been refreshed, and the second has been stored as the set, the revision not
      having been raised yet. */
  function HalfReplaced(first: Snapshot, older: Snapshot, newer: Snapshot): State {
    PairedState(first, older).(
      caches := [Cache([EMPTY_SNAPSHOT, first, first, newer], 3), Cache([EMPTY_SNAPSHOT, older, older], 2)],
      log := [[0, 0], [1, 0], [2, 0], [2, 1], [3, 1], [3, 2]],
      members := [1], replacing := true, sets := [[], [0], [1]], since := [0, 3, 5])
  }

  /** The first workspace refreshed a third time. */
  function FirstMoved(first: Snapshot, older: Snapshot, newer: Snapshot): State {
    PairedState(first, older).(
      caches := [Cache([EMPTY_SNAPSHOT, first, first, newer], 3), Cache([EMPTY_SNAPSHOT, older], 1)],
      log := [[0, 0], [1, 0], [2, 0], [2, 1], [3, 1]])
  }

  lemma MoveFirst(first: Snapshot, older: Snapshot, newer: Snapshot)
    ensures Reachable(0, 0, FirstMoved(first, older, newer))
  {
    Pair(first, older);
    var s, t := PairedState(first, older), FirstMoved(first, older, newer);
    assert s.caches[0].stored + [newer] == t.caches[0].stored && s.log + [[3, 1]] == t.log;
    RefreshFirst(0, 0, s, newer, t);
  }

  /** And the second a second time. */
  function BothMoved(first: Snapshot, older: Snapshot, newer: Snapshot): State {
    FirstMoved(first, older, newer).(
      caches := [Cache([EMPTY_SNAPSHOT, first, first, newer], 3), Cache([EMPTY_SNAPSHOT, older, older], 2)],
      log := [[0, 0], [1, 0], [2, 0], [2, 1], [3, 1], [3, 2]])
  }

  lemma MoveBoth(first: Snapshot, older: Snapshot, newer: Snapshot)
    ensures Reachable(0, 0, BothMoved(first, older, newer))
  {
    MoveFirst(first, older, newer);
    var s, t := FirstMoved(first, older, newer), BothMoved(first, older, newer);
    assert s.caches[1].stored + [older] == t.caches[1].stored && s.log + [[3, 2]] == t.log;
    RefreshSecond(0, 0, s, older, t);
  }

  lemma HalfReplace(first: Snapshot, older: Snapshot, newer: Snapshot)
    ensures Reachable(0, 0, HalfReplaced(first, older, newer))
  {
    MoveBoth(first, older, newer);
    var s, t := BothMoved(first, older, newer), HalfReplaced(first, older, newer);
    assert s.sets + [[1]] == t.sets && s.since + [5] == t.since;
    Then(0, 0, s, StoreSet([1]), t);
  }

  /** The key of a reader that adds up the second workspace's counter, and loads the revision before it is raised. */
  function NewSumOldRevision(): Reader {
    Call(Keyed, 5, [1], 2, [2], 1, 5, [], 0, 0, [], [])
  }

  function EarlyKeyed(first: Snapshot, older: Snapshot, newer: Snapshot): State {
    HalfReplaced(first, older, newer).(readers := [Returned(3, RightlyPaired(first)), NewSumOldRevision()])
  }

  lemma KeyEarly(first: Snapshot, older: Snapshot, newer: Snapshot)
    ensures Reachable(0, 1, EarlyKeyed(first, older, newer))
  {
    HalfReplace(first, older, newer);
    var s, t := HalfReplaced(first, older, newer), EarlyKeyed(first, older, newer);
    assert KeyOf(s, 1) == NewSumOldRevision();
    assert s.readers[1 := NewSumOldRevision()] == t.readers;
    ThenKey(0, 0, s, 1, 1);
  }

  /** A call that begins and reads its key between the two stores of a replacement pairs the new set's sum
      with the old revision, though no store of the set falls between its loads. If that was the old
      set's key once, it is handed the old set's view of then: here, for any snapshots, the first
      workspace's older one, although its newer one was published, and the new set stored, before the call. */
  lemma CallBetweenStores(first: Snapshot, older: Snapshot, newer: Snapshot) returns (s: State)
    ensures Reachable(0, 1, s) && |s.readers| == 2 && s.readers[1].Returned?
    ensures s.members == [1] && |s.caches| == 2 && s.caches[0].stored == [EMPTY_SNAPSHOT, first, first, newer]
    ensures s.readers[1].start < |s.log| && s.log[s.readers[1].start] == [3, 2]
    ensures s.readers[1].entry.view == Merge([first])
    ensures !Covers(s, s.readers[1].start, s.readers[1].entry)
  {
    KeyEarly(first, older, newer);
    var keyed := EarlyKeyed(first, older, newer);
    assert Total([2]) == 2;
    s := keyed.(readers := [Returned(3, RightlyPaired(first)), Returned(5, RightlyPaired(first))]);
    Then(0, 1, keyed, Check(1), s);
    assert !Recent(s, 5, RightlyPaired(first).members[0], RightlyPaired(first).from[0]);
  }

  // -------- neither kind will do --------

  /** The run, with at most so many late and early keys, ends with an answer to the reader. */
  ghost predicate Answers(late: nat, early: nat, caches: nat, readers: nat, run: seq<Action>, reader: nat) {
    && IsRun(Initial(caches, readers), run)
    && LateIn(Initial(caches, readers), run) <= late && EarlyIn(Initial(caches, readers), run) <= early
    && reader < |After(Initial(caches, readers), run).readers|
    && After(Initial(caches, readers), run).readers[reader].Returned?
  }

  /** In every run with at most so many late and early keys, every call is current. */
  ghost predicate AllCurrent(late: nat, early: nat) {
    forall caches: nat, readers: nat, run, reader: nat | Answers(late, early, caches, readers, run, reader) ::
      var s := After(Initial(caches, readers), run);
      Covers(s, s.readers[reader].start, s.readers[reader].entry)
  }

  lemma {:induction false} PairedIsCalm(s: State, run: seq<Action>)
    requires s.log != [] && IsRun(s, run)
    ensures LateIn(s, run) == EarlyIn(s, run) == 0 <==> CalmRun(s, run)
    decreases |run|
  {
    if run != [] {
      PairedIsCalm(Do(s, run[0]), run[1..]);
    }
  }

  lemma StaleRun(late: nat, early: nat, l: nat, e: nat, s: State, reader: nat)
    requires Reachable(l, e, s) && l <= late && e <= early
    requires reader < |s.readers| && s.readers[reader].Returned?
    requires !Covers(s, s.readers[reader].start, s.readers[reader].entry)
    ensures !AllCurrent(late, early)
  {
    var run :| IsRun(Initial(2, 2), run) && LateIn(Initial(2, 2), run) == l && EarlyIn(Initial(2, 2), run) == e
               && After(Initial(2, 2), run) == s;
    assert Answers(late, early, 2, 2, run, reader);
  }

  /** Exactly when every call is current: whatever bounds there are on late and early keys, only that there be none of
      either makes it so. A single key of one kind is enough for a stale call. */
  lemma CurrentExactlyIfPaired(late: nat, early: nat)
    ensures AllCurrent(late, early) <==> late == early == 0
  {
    if late == early == 0 {
      forall caches: nat, readers: nat, run, reader: nat | Answers(late, early, caches, readers, run, reader)
        ensures var s := After(Initial(caches, readers), run);
                Covers(s, s.readers[reader].start, s.readers[reader].entry)
      {
        PairedIsCalm(Initial(caches, readers), run);
        EveryCallIsCurrent(caches, readers, run, reader);
      }
    } else if late > 0 {
      var s := ReplaceBetweenKeyLoads(EMPTY_SNAPSHOT, EMPTY_SNAPSHOT, EMPTY_SNAPSHOT);
      StaleRun(late, early, 1, 0, s, 1);
    } else {
      var s := CallBetweenStores(EMPTY_SNAPSHOT, EMPTY_SNAPSHOT, EMPTY_SNAPSHOT);
      StaleRun(late, early, 0, 1, s, 1);
    }
  }
}
