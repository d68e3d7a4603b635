/** The router's cached merge with every atomic load and store its own step: caches store a snapshot
    and then bump their counter, readers add the counters one at a time, and several readers run at
    once (`pkg/apiserver/router.go`, `pkg/kcp/discovery.go`). */
module RouterInterleaving {
  import opened Wrappers
  import opened ResourceCaches
  import opened Merging

  /** A cache: every snapshot it ever stored, the last being the current one, and its counter. */
  datatype Cache = Cache(stored: seq<Snapshot>, generation: nat)

  /** What the router holds: the key, and the view under it. The remaining fields are the history
      the proof speaks of: the counters added up for the key and when that was finished, the set
      merged and when it was loaded, and which stored snapshot each view is. */
  datatype Entry = Entry(
    generation: nat, revision: nat, view: Merged,
    counted: seq<nat>, summed: nat, members: seq<nat>, setRevision: nat, built: nat, from: seq<nat>)

  datatype Phase = Counting | Keyed | Waiting | Locked | Building

  /** A reader, between calls, in the middle of one that started at `start`, or done. */
  datatype Reader =
    | Idle
    | Call(phase: Phase, start: nat, members: seq<nat>, loaded: nat, counted: seq<nat>, revision: nat, summed: nat,
           target: seq<nat>, targetRevision: nat, built: nat, from: seq<nat>, views: seq<Snapshot>)
    | Returned(start: nat, entry: Entry)

  /** `replacing` holds between the two stores of a replacement: of the set, and of the revision. `log`
      lists the counters after each bump, and `sets` every set stored, with the moment of the store in
      `since`; set `n` is the one revision `n` is meant for. A moment is a position in `log`. */
  datatype State = State(
    caches: seq<Cache>, members: seq<nat>, revision: nat, replacing: bool, merged: Option<Entry>, locked: bool,
    readers: seq<Reader>, log: seq<seq<nat>>, sets: seq<seq<nat>>, since: seq<nat>)

  datatype Action =
    | StoreSnapshot(cache: nat, snapshot: Snapshot)
    | Bump(cache: nat)
    | StoreSet(newMembers: seq<nat>)
    | AddRevision
    | Begin(reader: nat)
    | Count(reader: nat)
    | LoadRevision(reader: nat)
    | Check(reader: nat)
    | Acquire(reader: nat)
    | Recheck(reader: nat)
    | LoadView(reader: nat)
    | Publish(reader: nat)

  function Initial(caches: nat, readers: nat): State {
    State(seq(caches, _ => Cache([EMPTY_SNAPSHOT], 0)), [], 0, false, None, false, seq(readers, _ => Idle),
          [seq(caches, _ => 0)], [[]], [0])
  }

  function Now(s: State): nat
    requires s.log != []
  {
    |s.log| - 1
  }

  /** The number of the set in place. */
  function Latest(s: State): nat {
    if s.replacing then s.revision + 1 else s.revision
  }

  predicate Hit(s: State, c: Reader)
    requires c.Call?
  {
    s.merged.Some? && s.merged.value.generation == Total(c.counted) && s.merged.value.revision == c.revision
  }

  predicate InPhase(s: State, reader: nat, phase: Phase) {
    reader < |s.readers| && s.readers[reader].Call? && s.readers[reader].phase == phase
  }

  predicate Enabled(s: State, a: Action) {
    match a
    case StoreSnapshot(i, _) => i < |s.caches| && |s.caches[i].stored| == s.caches[i].generation + 1
    case Bump(i) => i < |s.caches| && |s.caches[i].stored| == s.caches[i].generation + 2
    case StoreSet(next) => !s.replacing && forall i <- next :: i < |s.caches|
    case AddRevision => s.replacing
    case Begin(r) => r < |s.readers| && !s.readers[r].Call?
    case Count(r) =>
      && InPhase(s, r, Counting) && |s.readers[r].counted| < |s.readers[r].members|
      && s.readers[r].members[|s.readers[r].counted|] < |s.caches|
    case LoadRevision(r) => InPhase(s, r, Counting) && |s.readers[r].counted| == |s.readers[r].members|
    case Check(r) => InPhase(s, r, Keyed)
    case Acquire(r) => InPhase(s, r, Waiting) && !s.locked
    case Recheck(r) => InPhase(s, r, Locked)
    case LoadView(r) =>
      && InPhase(s, r, Building) && |s.readers[r].views| < |s.readers[r].target|
      && var i := s.readers[r].target[|s.readers[r].views|]; i < |s.caches| && s.caches[i].stored != []
    case Publish(r) => InPhase(s, r, Building) && |s.readers[r].views| == |s.readers[r].target|
  }

  function Built(c: Reader): Entry
    requires c.Call?
  {
    Entry(Total(c.counted), c.revision, Merge(c.views),
          c.counted, c.summed, c.target, c.targetRevision, c.built, c.from)
  }

  function Counters(caches: seq<Cache>): seq<nat> {
    seq(|caches|, i requires 0 <= i < |caches| => caches[i].generation)
  }

  function Do(s: State, a: Action): State
    requires s.log != [] && Enabled(s, a)
    ensures Do(s, a).log != []
  {
    match a
    case StoreSnapshot(i, next) =>
      s.(caches := s.caches[i := s.caches[i].(stored := s.caches[i].stored + [next])])
    case Bump(i) =>
      var caches := s.caches[i := s.caches[i].(generation := s.caches[i].generation + 1)];
      s.(caches := caches, log := s.log + [Counters(caches)])
    case StoreSet(next) =>
      s.(members := next, replacing := true, sets := s.sets + [next], since := s.since + [Now(s)])
    case AddRevision =>
      s.(revision := s.revision + 1, replacing := false)
    case Begin(r) =>
      s.(readers := s.readers[r := Call(Counting, Now(s), s.members, Latest(s), [], 0, 0, [], 0, 0, [], [])])
    case Count(r) =>
      var c := s.readers[r];
      s.(readers := s.readers[r := c.(counted := c.counted + [s.caches[c.members[|c.counted|]].generation])])
    case LoadRevision(r) =>
      s.(readers := s.readers[r := s.readers[r].(phase := Keyed, revision := s.revision, summed := Now(s))])
    case Check(r) =>
      var c := s.readers[r];
      s.(readers := s.readers[r := if Hit(s, c) then Returned(c.start, s.merged.value) else c.(phase := Waiting)])
    case Acquire(r) =>
      s.(readers := s.readers[r := s.readers[r].(phase := Locked)], locked := true)
    case Recheck(r) =>
      var c := s.readers[r];
      if Hit(s, c) then s.(readers := s.readers[r := Returned(c.start, s.merged.value)], locked := false)
      else s.(readers := s.readers[r := c.(phase := Building, target := s.members, targetRevision := Latest(s),
                                            built := Now(s), from := [], views := [])])
    case LoadView(r) =>
      var c := s.readers[r];
      var stored := s.caches[c.target[|c.views|]].stored;
      s.(readers := s.readers[r := c.(views := c.views + [stored[|stored| - 1]], from := c.from + [|stored| - 1])])
    case Publish(r) =>
      var entry := Built(s.readers[r]);
      s.(readers := s.readers[r := Returned(s.readers[r].start, entry)], merged := Some(entry), locked := false)
  }

  /** A reader that loads the revision loads the one its set is meant for. */
  predicate Calm(s: State, a: Action) {
    a.LoadRevision? && InPhase(s, a.reader, Counting) ==> s.readers[a.reader].loaded == s.revision
  }

  ghost predicate IsRun(s: State, actions: seq<Action>)
    requires s.log != []
    decreases |actions|
  {
    actions == [] || (Enabled(s, actions[0]) && IsRun(Do(s, actions[0]), actions[1..]))
  }

  ghost function After(s: State, actions: seq<Action>): (t: State)
    requires s.log != [] && IsRun(s, actions)
    ensures t.log != []
    decreases |actions|
  {
    if actions == [] then s else After(Do(s, actions[0]), actions[1..])
  }

  ghost predicate CalmRun(s: State, actions: seq<Action>)
    requires s.log != [] && IsRun(s, actions)
    decreases |actions|
  {
    actions == [] || (Calm(s, actions[0]) && CalmRun(Do(s, actions[0]), actions[1..]))
  }

  /** The snapshots at these places among those each cache stored. */
  function ViewsFrom(s: State, members: seq<nat>, from: seq<nat>): seq<Snapshot>
    requires |members| == |from|
    requires forall k | 0 <= k < |members| :: members[k] < |s.caches| && from[k] < |s.caches[members[k]].stored|
  {
    seq(|members|, k requires 0 <= k < |members| => s.caches[members[k]].stored[from[k]])
  }

  /** The cache stored a snapshot at this place, no earlier than the bumps that preceded `start`. */
  ghost predicate Recent(s: State, start: nat, cache: nat, from: nat)
    requires start < |s.log|
  {
    cache < |s.caches| == |s.log[start]| && s.log[start][cache] <= from < |s.caches[cache].stored|
  }

  /** What a call that started at `start` is owed. The view is a merge of snapshots the workspaces of
      one set stored, each at least as recent as every refresh whose bump preceded the call; and that
      set was in place at the start of the call or later. */
  ghost predicate Covers(s: State, start: nat, e: Entry) {
    && start < |s.log| && e.setRevision < |s.sets| && e.members == s.sets[e.setRevision]
    && (e.setRevision + 1 < |s.since| ==> start <= s.since[e.setRevision + 1])
    && |e.from| == |e.members|
    && (forall k | 0 <= k < |e.members| :: Recent(s, start, e.members[k], e.from[k]))
    && e.view == Merge(ViewsFrom(s, e.members, e.from))
  }

  // -------- invariants --------

  ghost predicate HistoryOk(s: State) {
    && s.log != []
    && (forall t | 0 <= t < |s.log| :: |s.log[t]| == |s.caches|)
    && (forall t, u, i | 0 <= t <= u < |s.log| && 0 <= i < |s.caches| :: s.log[t][i] <= s.log[u][i])
    && s.log[Now(s)] == Counters(s.caches)
    && (forall i | 0 <= i < |s.caches| ::
          s.caches[i].generation + 1 <= |s.caches[i].stored| <= s.caches[i].generation + 2)
    && |s.sets| == |s.since| == Latest(s) + 1 && s.sets[Latest(s)] == s.members
    && (forall r | 0 <= r < |s.sets| :: forall i <- s.sets[r] :: i < |s.caches|)
    && (forall q, r | 0 <= q <= r < |s.since| :: s.since[q] <= s.since[r] < |s.log|)
  }

  /** `counted` are counters of the set, read no later than `by`. */
  ghost predicate CountedBy(s: State, members: seq<nat>, counted: seq<nat>, until: nat) {
    && |counted| <= |members| && until < |s.log|
    && forall k | 0 <= k < |counted| ::
         members[k] < |s.caches| == |s.log[until]| && counted[k] <= s.log[until][members[k]]
  }

  ghost predicate CountedSince(s: State, members: seq<nat>, counted: seq<nat>, start: nat) {
    && |counted| <= |members| && start < |s.log|
    && forall k | 0 <= k < |counted| ::
         members[k] < |s.caches| == |s.log[start]| && s.log[start][members[k]] <= counted[k]
  }

  /** `from` are snapshots of the set, stored at `built` or later. */
  ghost predicate ViewedSince(s: State, members: seq<nat>, from: seq<nat>, built: nat) {
    && |from| <= |members| && built < |s.log|
    && forall k | 0 <= k < |from| :: Recent(s, built, members[k], from[k])
  }

  ghost predicate ViewsAre(s: State, members: seq<nat>, from: seq<nat>, views: seq<Snapshot>) {
    && |views| == |from| <= |members|
    && forall k | 0 <= k < |from| ::
         && members[k] < |s.caches| && from[k] < |s.caches[members[k]].stored|
         && views[k] == s.caches[members[k]].stored[from[k]]
  }

  /** Set `later` was loaded at `built`, after a key under `revision` was read. */
  ghost predicate LoadedAfter(s: State, revision: nat, later: nat, built: nat) {
    && revision <= later < |s.sets| == |s.since|
    && (revision < later ==> s.since[revision + 1] <= built)
  }

  ghost predicate EntryOk(s: State, e: Entry) {
    && LoadedAfter(s, e.revision, e.setRevision, e.built)
    && e.members == s.sets[e.setRevision] && |e.from| == |e.members|
    && |e.counted| == |s.sets[e.revision]| && e.generation == Total(e.counted)
    && e.summed <= e.built
    && CountedBy(s, s.sets[e.revision], e.counted, e.summed)
    && ViewedSince(s, e.members, e.from, e.built)
    && exists views :: ViewsAre(s, e.members, e.from, views) && e.view == Merge(views)
  }

  ghost predicate KeyOk(s: State, c: Reader)
    requires c.Call?
  {
    && c.revision < |s.sets| == |s.since| && c.members == s.sets[c.revision] && |c.counted| == |c.members|
    && c.start <= c.summed
    && (c.revision + 1 < |s.since| ==> c.start <= s.since[c.revision + 1])
    && CountedBy(s, c.members, c.counted, c.summed)
    && CountedSince(s, c.members, c.counted, c.start)
  }

  ghost predicate ReaderOk(s: State, c: Reader) {
    match c
    case Idle => true
    case Returned(start, e) => Covers(s, start, e)
    case Call(phase, start, members, loaded, counted, _, _, target, targetRevision, built, from, views) =>
      if phase == Counting then
        && s.log != [] && loaded < |s.sets| == |s.since| && members == s.sets[loaded]
        && (loaded + 1 < |s.since| ==> start <= s.since[loaded + 1])
        && CountedBy(s, members, counted, Now(s)) && CountedSince(s, members, counted, start)
      else
        && KeyOk(s, c)
        && (phase == Building ==>
              && c.summed <= built
              && LoadedAfter(s, c.revision, targetRevision, built) && target == s.sets[targetRevision]
              && ViewedSince(s, target, from, built) && ViewsAre(s, target, from, views))
  }

  ghost predicate Inv(s: State) {
    && HistoryOk(s)
    && (s.merged.Some? ==> EntryOk(s, s.merged.value))
    && (forall r | 0 <= r < |s.readers| :: ReaderOk(s, s.readers[r]))
  }

  /** What never changes: the past. */
  ghost predicate Extends(s: State, t: State) {
    && |s.caches| == |t.caches|
    && (forall i | 0 <= i < |s.caches| :: s.caches[i].stored <= t.caches[i].stored)
    && s.log <= t.log && s.sets <= t.sets && s.since <= t.since
    && |s.sets| == |s.since| && |t.sets| == |t.since| && s.log != []
    && (forall q | |s.since| <= q < |t.since| :: Now(s) <= t.since[q])
  }

  lemma CoversExtends(s: State, t: State, start: nat, e: Entry)
    requires Extends(s, t) && Covers(s, start, e)
    ensures Covers(t, start, e)
  {
    assert t.log[start] == s.log[start] && t.sets[e.setRevision] == s.sets[e.setRevision];
    if e.setRevision + 1 < |s.since| {
      assert t.since[e.setRevision + 1] == s.since[e.setRevision + 1];
    }
    forall k | 0 <= k < |e.members|
      ensures Recent(t, start, e.members[k], e.from[k])
      ensures t.caches[e.members[k]].stored[e.from[k]] == s.caches[e.members[k]].stored[e.from[k]]
    {
      assert Recent(s, start, e.members[k], e.from[k]);
      assert s.caches[e.members[k]].stored <= t.caches[e.members[k]].stored;
    }
    assert ViewsFrom(s, e.members, e.from) == ViewsFrom(t, e.members, e.from);
  }

  lemma EntryExtends(s: State, t: State, e: Entry)
    requires Extends(s, t) && EntryOk(s, e)
    ensures EntryOk(t, e)
  {
    assert t.log[e.built] == s.log[e.built] && t.log[e.summed] == s.log[e.summed];
    forall k | 0 <= k < |e.from| ensures Recent(t, e.built, e.members[k], e.from[k]) {
      assert Recent(s, e.built, e.members[k], e.from[k]);
    }
    var views :| ViewsAre(s, e.members, e.from, views) && e.view == Merge(views);
    assert ViewsAre(t, e.members, e.from, views);
  }

  lemma ReaderExtends(s: State, t: State, c: Reader)
    requires HistoryOk(s) && HistoryOk(t) && Extends(s, t) && ReaderOk(s, c)
    ensures ReaderOk(t, c)
  {
    match c
    case Idle =>
    case Returned(start, e) => CoversExtends(s, t, start, e);
    case Call(_, _, _, _, _, _, _, _, _, _, _, _) =>
      if c.phase == Counting {
        assert forall i | 0 <= i < |t.caches| :: t.log[Now(s)][i] <= t.log[Now(t)][i];
      }
  }

  // -------- the argument for a hit --------

  lemma EntryCovers(s: State, e: Entry, start: nat)
    requires HistoryOk(s) && EntryOk(s, e) && start < |s.log|
    requires e.setRevision + 1 < |s.since| ==> start <= s.since[e.setRevision + 1]
    requires forall k | 0 <= k < |e.members| :: s.log[start][e.members[k]] <= e.from[k]
    ensures Covers(s, start, e)
  {
    var views :| ViewsAre(s, e.members, e.from, views) && e.view == Merge(views);
    assert views == ViewsFrom(s, e.members, e.from);
  }

  /** An entry under the key a reader computed covers that reader's call. Either the entry was built
      after the call began; or the counters it was keyed on are, one by one, no larger than those the
      reader read, and having the same sum are the same counters. */
  lemma HitCovers(s: State, c: Reader, e: Entry)
    requires HistoryOk(s) && c.Call? && KeyOk(s, c) && EntryOk(s, e)
    requires e.generation == Total(c.counted) && e.revision == c.revision
    ensures Covers(s, c.start, e)
  {
    forall k | 0 <= k < |e.members| ensures s.log[c.start][e.members[k]] <= e.from[k] {
      if c.start <= e.built {
        assert s.log[c.start][e.members[k]] <= s.log[e.built][e.members[k]];
      } else {
        assert e.setRevision == e.revision;
        forall j | 0 <= j < |e.counted| ensures e.counted[j] <= c.counted[j] {
          assert s.log[e.summed][c.members[j]] <= s.log[c.start][c.members[j]];
        }
        EqualTotals(e.counted, c.counted);
        assert s.log[e.summed][e.members[k]] <= s.log[e.built][e.members[k]];
      }
    }
    EntryCovers(s, e, c.start);
  }

  lemma BuiltOk(s: State, c: Reader)
    requires HistoryOk(s) && c.Call? && c.phase == Building && ReaderOk(s, c) && |c.views| == |c.target|
    ensures EntryOk(s, Built(c)) && Covers(s, c.start, Built(c))
  {
    var e := Built(c);
    assert ViewsAre(s, e.members, e.from, c.views);
    forall k | 0 <= k < |e.members| ensures s.log[c.start][e.members[k]] <= e.from[k] {
      assert s.log[c.start][e.members[k]] <= s.log[e.built][e.members[k]];
    }
    EntryCovers(s, e, c.start);
  }

  // -------- every step keeps the invariant --------

  lemma StoreExtends(s: State, i: nat, next: Snapshot)
    requires HistoryOk(s) && Enabled(s, StoreSnapshot(i, next))
    ensures var t := Do(s, StoreSnapshot(i, next)); HistoryOk(t) && Extends(s, t)
  {
    var t := Do(s, StoreSnapshot(i, next));
    assert Counters(t.caches) == Counters(s.caches);
  }

  lemma BumpExtends(s: State, i: nat)
    requires HistoryOk(s) && Enabled(s, Bump(i))
    ensures var t := Do(s, Bump(i)); HistoryOk(t) && Extends(s, t)
  {
    var t := Do(s, Bump(i));
    assert forall j | 0 <= j < |s.caches| :: s.log[Now(s)][j] <= t.log[|s.log|][j];
  }

  lemma ReplaceExtends(s: State, a: Action)
    requires HistoryOk(s) && Enabled(s, a) && (a.StoreSet? || a.AddRevision?)
    ensures HistoryOk(Do(s, a)) && Extends(s, Do(s, a))
  {
  }

  lemma ReaderKeepsHistory(s: State, a: Action)
    requires HistoryOk(s) && Enabled(s, a) && Actor(a).Some?
    ensures var t := Do(s, a); t.caches == s.caches && t.members == s.members && t.revision == s.revision
    ensures Do(s, a).replacing == s.replacing
    ensures var t := Do(s, a); t.log == s.log && t.sets == s.sets && t.since == s.since
  {
  }

  lemma DoExtends(s: State, a: Action)
    requires Inv(s) && Enabled(s, a)
    ensures HistoryOk(Do(s, a)) && Extends(s, Do(s, a))
  {
    match a
    case StoreSnapshot(i, next) => StoreExtends(s, i, next);
    case Bump(i) => BumpExtends(s, i);
    case StoreSet(_) => ReplaceExtends(s, a);
    case AddRevision => ReplaceExtends(s, a);
    case _ => ReaderKeepsHistory(s, a);
  }

  /** The acting reader, if the action is a reader's. */
  function Actor(a: Action): Option<nat> {
    match a
    case StoreSnapshot(_, _) => None
    case Bump(_) => None
    case StoreSet(_) => None
    case AddRevision => None
    case _ => Some(a.reader)
  }

  lemma BeginKeepsOk(s: State, r: nat)
    requires Inv(s) && Enabled(s, Begin(r))
    ensures ReaderOk(Do(s, Begin(r)), Do(s, Begin(r)).readers[r])
  {
  }

  lemma CountKeepsOk(s: State, r: nat)
    requires Inv(s) && Enabled(s, Count(r))
    ensures ReaderOk(Do(s, Count(r)), Do(s, Count(r)).readers[r])
  {
    var c := s.readers[r];
    assert ReaderOk(s, c);
    CountedOne(s, c.members, c.counted, c.start);
  }

  lemma CountedOne(s: State, members: seq<nat>, counted: seq<nat>, start: nat)
    requires HistoryOk(s) && CountedBy(s, members, counted, Now(s)) && CountedSince(s, members, counted, start)
    requires |counted| < |members| && members[|counted|] < |s.caches|
    ensures var more := counted + [s.caches[members[|counted|]].generation];
            CountedBy(s, members, more, Now(s)) && CountedSince(s, members, more, start)
  {
    var i := members[|counted|];
    assert s.log[start][i] <= s.log[Now(s)][i] == s.caches[i].generation;
  }

  lemma RevisionKeepsOk(s: State, r: nat)
    requires Inv(s) && Enabled(s, LoadRevision(r)) && Calm(s, LoadRevision(r))
    ensures ReaderOk(Do(s, LoadRevision(r)), Do(s, LoadRevision(r)).readers[r])
  {
    assert ReaderOk(s, s.readers[r]);
  }

  lemma AcquireKeepsOk(s: State, r: nat)
    requires Inv(s) && Enabled(s, Acquire(r))
    ensures ReaderOk(Do(s, Acquire(r)), Do(s, Acquire(r)).readers[r])
  {
    assert ReaderOk(s, s.readers[r]);
  }

  lemma CheckingKeepsOk(s: State, a: Action)
    requires Inv(s) && Enabled(s, a) && (a.Check? || a.Recheck?)
    ensures ReaderOk(Do(s, a), Do(s, a).readers[a.reader])
  {
    var t, c := Do(s, a), s.readers[a.reader];
    assert ReaderOk(s, c);
    if Hit(s, c) {
      HitCovers(s, c, s.merged.value);
      DoExtends(s, a);
      CoversExtends(s, t, c.start, s.merged.value);
    }
  }

  lemma LoadingKeepsOk(s: State, a: Action)
    requires Inv(s) && Enabled(s, a) && a.LoadView?
    ensures ReaderOk(Do(s, a), Do(s, a).readers[a.reader])
  {
    var t, c := Do(s, a), s.readers[a.reader];
    assert ReaderOk(s, c);
    LoadedView(s, c.target, c.from, c.views, c.built);
    var c' := t.readers[a.reader];
    assert ViewedSince(t, c'.target, c'.from, c'.built) && ViewsAre(t, c'.target, c'.from, c'.views);
  }

  lemma LoadedView(s: State, target: seq<nat>, from: seq<nat>, views: seq<Snapshot>, built: nat)
    requires HistoryOk(s) && ViewedSince(s, target, from, built) && ViewsAre(s, target, from, views)
    requires |views| < |target| && target[|views|] < |s.caches|
    ensures var stored := s.caches[target[|views|]].stored;
            && stored != []
            && ViewedSince(s, target, from + [|stored| - 1], built)
            && ViewsAre(s, target, from + [|stored| - 1], views + [stored[|stored| - 1]])
  {
    var i := target[|views|];
    assert s.log[built][i] <= s.log[Now(s)][i] == s.caches[i].generation;
  }

  lemma PublishedOk(s: State, a: Action)
    requires Inv(s) && Enabled(s, a) && a.Publish?
    ensures ReaderOk(Do(s, a), Do(s, a).readers[a.reader])
    ensures EntryOk(Do(s, a), Do(s, a).merged.value)
  {
    var t, c := Do(s, a), s.readers[a.reader];
    assert ReaderOk(s, c);
    BuiltOk(s, c);
    DoExtends(s, a);
    CoversExtends(s, t, c.start, Built(c));
    EntryExtends(s, t, Built(c));
  }

  lemma BystanderKeepsOk(s: State, a: Action, r: nat)
    requires Inv(s) && Enabled(s, a) && r < |s.readers| && Actor(a) != Some(r)
    ensures |Do(s, a).readers| == |s.readers| && ReaderOk(Do(s, a), Do(s, a).readers[r])
  {
    var t := Do(s, a);
    assert t.readers[r] == s.readers[r];
    DoExtends(s, a);
    assert ReaderOk(s, s.readers[r]);
    ReaderExtends(s, t, s.readers[r]);
  }

  lemma ReadersKeepOk(s: State, a: Action, r: nat)
    requires Inv(s) && Enabled(s, a) && Calm(s, a) && r < |s.readers|
    ensures |Do(s, a).readers| == |s.readers| && ReaderOk(Do(s, a), Do(s, a).readers[r])
  {
    if Actor(a) == Some(r) {
      match a
      case Begin(_) => BeginKeepsOk(s, r);
      case Count(_) => CountKeepsOk(s, r);
      case LoadRevision(_) => RevisionKeepsOk(s, r);
      case Acquire(_) => AcquireKeepsOk(s, r);
      case Check(_) => CheckingKeepsOk(s, a);
      case Recheck(_) => CheckingKeepsOk(s, a);
      case LoadView(_) => LoadingKeepsOk(s, a);
      case Publish(_) => PublishedOk(s, a);
    } else {
      BystanderKeepsOk(s, a, r);
    }
  }

  lemma StepKeepsInv(s: State, a: Action)
    requires Inv(s) && Enabled(s, a) && Calm(s, a)
    ensures Inv(Do(s, a))
  {
    var t := Do(s, a);
    DoExtends(s, a);
    if a.Publish? {
      PublishedOk(s, a);
    } else if s.merged.Some? {
      EntryExtends(s, t, s.merged.value);
    }
    forall r | 0 <= r < |t.readers| ensures ReaderOk(t, t.readers[r]) {
      ReadersKeepOk(s, a, r);
    }
  }

  lemma {:induction false} RunKeepsInv(s: State, actions: seq<Action>)
    requires Inv(s) && IsRun(s, actions) && CalmRun(s, actions)
    ensures Inv(After(s, actions))
    decreases |actions|
  {
    if actions != [] {
      StepKeepsInv(s, actions[0]);
      RunKeepsInv(Do(s, actions[0]), actions[1..]);
    }
  }

  /** In every interleaving in which each reader loads the revision its set is meant for, every call
      returns, for each workspace of the set it merged, a snapshot at least as recent as every refresh
      whose bump preceded the call: on the lock-free hit, the hit under the lock and the rebuild alike. */
  lemma EveryCallIsCurrent(caches: nat, readers: nat, actions: seq<Action>, reader: nat)
    requires IsRun(Initial(caches, readers), actions) && CalmRun(Initial(caches, readers), actions)
    requires var s := After(Initial(caches, readers), actions); reader < |s.readers| && s.readers[reader].Returned?
    ensures var s := After(Initial(caches, readers), actions);
            Covers(s, s.readers[reader].start, s.readers[reader].entry)
  {
    RunKeepsInv(Initial(caches, readers), actions);
    var s := After(Initial(caches, readers), actions);
    assert ReaderOk(s, s.readers[reader]);
  }

  // -------- a condition on replacements --------

  /** A replacement keeps clear of the readers' key loads: no reader is between loading the set and
      loading the revision when the set is stored, and none begins before the revision is. */
  predicate Quiet(s: State, a: Action) {
    && (a.StoreSet? ==> forall r | 0 <= r < |s.readers| :: !InPhase(s, r, Counting))
    && (a.Begin? ==> !s.replacing)
  }

  ghost predicate QuietRun(s: State, actions: seq<Action>)
    requires s.log != [] && IsRun(s, actions)
    decreases |actions|
  {
    actions == [] || (Quiet(s, actions[0]) && QuietRun(Do(s, actions[0]), actions[1..]))
  }

  /** Whoever is adding up counters has the set of the revision, and no replacement is under way. */
  predicate KeysInStep(s: State) {
    forall r | 0 <= r < |s.readers| && InPhase(s, r, Counting) :: !s.replacing && s.readers[r].loaded == s.revision
  }

  lemma QuietKeepsInStep(s: State, a: Action)
    requires s.log != [] && Enabled(s, a) && Quiet(s, a) && KeysInStep(s)
    ensures Calm(s, a) && KeysInStep(Do(s, a))
  {
    var t := Do(s, a);
    forall r | 0 <= r < |t.readers| && InPhase(t, r, Counting) ensures !t.replacing && t.readers[r].loaded == t.revision {
      if !(a.Begin? && a.reader == r) {
        assert InPhase(s, r, Counting);
      }
    }
  }

  lemma {:induction false} QuietIsCalm(s: State, actions: seq<Action>)
    requires s.log != [] && IsRun(s, actions) && QuietRun(s, actions) && KeysInStep(s)
    ensures CalmRun(s, actions)
    decreases |actions|
  {
    if actions != [] {
      QuietKeepsInStep(s, actions[0]);
      QuietIsCalm(Do(s, actions[0]), actions[1..]);
    }
  }

  /** So it is enough that replacements keep clear of the key loads. */
  lemma QuietReplacementsSuffice(caches: nat, readers: nat, actions: seq<Action>, reader: nat)
    requires IsRun(Initial(caches, readers), actions) && QuietRun(Initial(caches, readers), actions)
    requires var s := After(Initial(caches, readers), actions); reader < |s.readers| && s.readers[reader].Returned?
    ensures var s := After(Initial(caches, readers), actions);
            Covers(s, s.readers[reader].start, s.readers[reader].entry)
  {
    QuietIsCalm(Initial(caches, readers), actions);
    EveryCallIsCurrent(caches, readers, actions, reader);
  }
}
