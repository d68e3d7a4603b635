/** Keeping the running workspaces matching the configuration, while launches may fail
    (`pkg/apiserver/workspacemanager.go`). */
module WorkspaceManager {
  import opened Wrappers
  import opened Groups
  import opened Configuration
  import opened ResourceCaches
  import opened Router

  type Prints = WorkspaceConfig -> string

  function Fingerprints(formats: Formats): Prints {
    (c: WorkspaceConfig) => Fingerprint(c, formats)
  }

  /** The workspaces requests are routed to, and those launched and not cancelled. */
  datatype Fleet = Fleet(routed: seq<Workspace>, live: set<Workspace>)

  ghost predicate DistinctNames(workspaces: seq<Workspace>) {
    forall i, j | 0 <= i < j < |workspaces| :: workspaces[i].name != workspaces[j].name
  }

  function Members(workspaces: seq<Workspace>): set<Workspace> {
    set w | w in workspaces
  }

  ghost predicate Sound(fleet: Fleet) {
    DistinctNames(fleet.routed) && fleet.live == Members(fleet.routed)
  }

  /** The running workspace of a name. */
  function Find(current: seq<Workspace>, name: string): Option<Workspace> {
    if current == [] then None
    else
      var last := current[|current| - 1];
      if last.name == name then Some(last) else Find(current[..|current| - 1], name)
  }

  predicate Unchanged(current: seq<Workspace>, entry: WorkspaceConfig, f: Prints) {
    var running := Find(current, entry.name);
    running.Some? && running.value.fingerprint == f(entry)
  }

  /** What is running under the entry's name goes on running: it is what the entry asks for, or its
      replacement did not come up. `built` is what was launched for the entry. */
  predicate Keeps(current: seq<Workspace>, entry: WorkspaceConfig, built: Option<Workspace>, f: Prints) {
    Find(current, entry.name).Some? && (Unchanged(current, entry, f) || built.None?)
  }

  function Turn(current: seq<Workspace>, entry: WorkspaceConfig, built: Option<Workspace>, f: Prints): seq<Workspace> {
    if Keeps(current, entry, built, f) then [Find(current, entry.name).value]
    else match built case Some(w) => [w] case None => []
  }

  /** The set to route to, in the order of the configuration. */
  function Next(current: seq<Workspace>, desired: seq<WorkspaceConfig>, built: seq<Option<Workspace>>, f: Prints): seq<Workspace>
    requires |built| == |desired|
  {
    if desired == [] then []
    else
      var n := |desired| - 1;
      Next(current, desired[..n], built[..n], f) + Turn(current, desired[n], built[n], f)
  }

  function Kept(current: seq<Workspace>, desired: seq<WorkspaceConfig>, built: seq<Option<Workspace>>, f: Prints): set<string>
    requires |built| == |desired|
  {
    set i | 0 <= i < |desired| && Keeps(current, desired[i], built[i], f) :: desired[i].name
  }

  function Launches(built: seq<Option<Workspace>>): nat {
    if built == [] then 0
    else Launches(built[..|built| - 1]) + (if built[|built| - 1].Some? then 1 else 0)
  }

  function Removals(current: seq<Workspace>, keep: set<string>, next: seq<Workspace>): nat {
    if current == [] then 0
    else
      var last := current[|current| - 1];
      Removals(current[..|current| - 1], keep, next) + (if last.name !in keep && last !in next then 1 else 0)
  }

  function Changes(current: seq<Workspace>, desired: seq<WorkspaceConfig>, built: seq<Option<Workspace>>, f: Prints): nat
    requires |built| == |desired|
  {
    Launches(built) + Removals(current, Kept(current, desired, built, f), Next(current, desired, built, f))
  }

  function Stopped(current: seq<Workspace>, keep: set<string>): set<Workspace> {
    set w | w in current && w.name !in keep
  }

  function Started(built: seq<Option<Workspace>>): set<Workspace> {
    set i | 0 <= i < |built| && built[i].Some? :: built[i].value
  }

  function Reconciled(fleet: Fleet, desired: seq<WorkspaceConfig>, built: seq<Option<Workspace>>, f: Prints): Fleet
    requires |built| == |desired|
  {
    Fleet(if Changes(fleet.routed, desired, built, f) == 0 then fleet.routed else Next(fleet.routed, desired, built, f),
          fleet.live + Started(built) - Stopped(fleet.routed, Kept(fleet.routed, desired, built, f)))
  }

  ghost predicate DistinctEntries(desired: seq<WorkspaceConfig>) {
    forall i, j | 0 <= i < j < |desired| :: desired[i].name != desired[j].name
  }

  /** What was launched was launched for a changed or new entry, as that entry describes it, and is new. */
  ghost predicate BuiltFor(fleet: Fleet, desired: seq<WorkspaceConfig>, built: seq<Option<Workspace>>, f: Prints) {
    && |built| == |desired|
    && forall i | 0 <= i < |built| && built[i].Some? ::
         && built[i].value.name == desired[i].name && built[i].value.fingerprint == f(desired[i])
         && built[i].value !in fleet.live
         && !Unchanged(fleet.routed, desired[i], f)
  }

  // -------- what is routed --------

  lemma {:induction false} FindFinds(current: seq<Workspace>, name: string)
    ensures var r := Find(current, name);
            && (r.Some? ==> r.value in current && r.value.name == name)
            && (r.None? ==> forall w <- current :: w.name != name)
  {
    if current != [] {
      FindFinds(current[..|current| - 1], name);
      assert current == current[..|current| - 1] + [current[|current| - 1]];
    }
  }

  lemma FindUnique(current: seq<Workspace>, w: Workspace)
    requires DistinctNames(current) && w in current
    ensures Find(current, w.name) == Some(w)
  {
    FindFinds(current, w.name);
    var i :| 0 <= i < |current| && current[i] == w;
    var j :| 0 <= j < |current| && current[j] == Find(current, w.name).value;
    assert i == j by { assert i < j || j < i || i == j; }
  }

  lemma NextSnoc(current: seq<Workspace>, desired: seq<WorkspaceConfig>, built: seq<Option<Workspace>>, f: Prints,
                 entry: WorkspaceConfig, launch: Option<Workspace>)
    requires |built| == |desired|
    ensures Next(current, desired + [entry], built + [launch], f)
         == Next(current, desired, built, f) + Turn(current, entry, launch, f)
    ensures Launches(built + [launch]) == Launches(built) + (if launch.Some? then 1 else 0)
  {
    assert (desired + [entry])[..|desired|] == desired && (built + [launch])[..|built|] == built;
  }

  lemma {:induction false} NextConcat(current: seq<Workspace>, desired: seq<WorkspaceConfig>, built: seq<Option<Workspace>>,
                                      later: seq<WorkspaceConfig>, laterBuilt: seq<Option<Workspace>>, f: Prints)
    requires |built| == |desired| && |laterBuilt| == |later|
    ensures Next(current, desired + later, built + laterBuilt, f)
         == Next(current, desired, built, f) + Next(current, later, laterBuilt, f)
    decreases |later|
  {
    if later == [] {
      assert desired + later == desired && built + laterBuilt == built;
    } else {
      var n := |later| - 1;
      assert desired + later == (desired + later[..n]) + [later[n]];
      assert built + laterBuilt == (built + laterBuilt[..n]) + [laterBuilt[n]];
      NextConcat(current, desired, built, later[..n], laterBuilt[..n], f);
      NextSnoc(current, desired + later[..n], built + laterBuilt[..n], f, later[n], laterBuilt[n]);
      Associative(Next(current, desired, built, f), Next(current, later[..n], laterBuilt[..n], f),
                  Turn(current, later[n], laterBuilt[n], f));
    }
  }

  /** An entry's workspace stands where the entry stands. */
  lemma NextSplits(current: seq<Workspace>, desired: seq<WorkspaceConfig>, built: seq<Option<Workspace>>, f: Prints, i: nat)
    requires |built| == |desired| && i < |desired|
    ensures Next(current, desired, built, f)
              == Next(current, desired[..i], built[..i], f) + Turn(current, desired[i], built[i], f)
                   + Next(current, desired[i + 1..], built[i + 1..], f)
  {
    assert desired == (desired[..i] + [desired[i]]) + desired[i + 1..] && built == (built[..i] + [built[i]]) + built[i + 1..];
    NextConcat(current, desired[..i] + [desired[i]], built[..i] + [built[i]], desired[i + 1..], built[i + 1..], f);
    NextSnoc(current, desired[..i], built[..i], f, desired[i], built[i]);
  }

  lemma Associative<T>(a: seq<T>, b: seq<T>, c: seq<T>)
    ensures (a + b) + c == a + (b + c)
  {
  }

  /** Some entry's turn is the workspace. */
  ghost predicate Placed(current: seq<Workspace>, desired: seq<WorkspaceConfig>, built: seq<Option<Workspace>>, f: Prints,
                         w: Workspace)
    requires |built| == |desired|
  {
    exists i | 0 <= i < |desired| :: w in Turn(current, desired[i], built[i], f)
  }

  lemma {:induction false} NextHolds(current: seq<Workspace>, desired: seq<WorkspaceConfig>, built: seq<Option<Workspace>>,
                                     f: Prints, w: Workspace)
    requires |built| == |desired|
    ensures w in Next(current, desired, built, f) <==> Placed(current, desired, built, f, w)
  {
    if desired != [] {
      var n := |desired| - 1;
      NextHolds(current, desired[..n], built[..n], f, w);
      if i :| 0 <= i < |desired| && w in Turn(current, desired[i], built[i], f) {
        if i < n {
          assert desired[..n][i] == desired[i] && built[..n][i] == built[i];
        }
      }
    }
  }

  lemma TurnNamed(fleet: Fleet, desired: seq<WorkspaceConfig>, built: seq<Option<Workspace>>, f: Prints, i: nat)
    requires BuiltFor(fleet, desired, built, f) && i < |desired|
    ensures |Turn(fleet.routed, desired[i], built[i], f)| <= 1
    ensures forall w <- Turn(fleet.routed, desired[i], built[i], f) :: w.name == desired[i].name
  {
    FindFinds(fleet.routed, desired[i].name);
  }

  lemma {:induction false} NextDistinct(fleet: Fleet, desired: seq<WorkspaceConfig>, built: seq<Option<Workspace>>, f: Prints)
    requires BuiltFor(fleet, desired, built, f) && DistinctEntries(desired)
    ensures DistinctNames(Next(fleet.routed, desired, built, f))
    decreases |desired|
  {
    if desired != [] {
      var n := |desired| - 1;
      var next := Next(fleet.routed, desired[..n], built[..n], f);
      NextDistinct(fleet, desired[..n], built[..n], f);
      TurnNamed(fleet, desired, built, f, n);
      forall w | w in next ensures w.name != desired[n].name {
        NextHolds(fleet.routed, desired[..n], built[..n], f, w);
        var i :| 0 <= i < n && w in Turn(fleet.routed, desired[..n][i], built[..n][i], f);
        TurnNamed(fleet, desired, built, f, i);
      }
    }
  }

  // -------- what runs --------

  lemma {:induction false} NoRemovals(current: seq<Workspace>, keep: set<string>, next: seq<Workspace>)
    ensures Removals(current, keep, next) == 0 <==> forall w <- current :: w.name in keep || w in next
  {
    if current != [] {
      var shorter := current[..|current| - 1];
      NoRemovals(shorter, keep, next);
      assert current == shorter + [current[|current| - 1]];
    }
  }

  lemma {:induction false} NoLaunches(built: seq<Option<Workspace>>)
    ensures Launches(built) == 0 <==> Started(built) == {}
  {
    if built != [] {
      var n := |built| - 1;
      NoLaunches(built[..n]);
      if built[n].Some? {
        assert built[n].value in Started(built);
      } else {
        assert Started(built) == Started(built[..n]);
      }
    }
  }

  lemma StartedPlaced(fleet: Fleet, desired: seq<WorkspaceConfig>, built: seq<Option<Workspace>>, f: Prints, w: Workspace)
    requires BuiltFor(fleet, desired, built, f) && w in Started(built)
    ensures Placed(fleet.routed, desired, built, f, w)
  {
    var i :| 0 <= i < |built| && built[i].Some? && built[i].value == w;
    assert w in Turn(fleet.routed, desired[i], built[i], f);
  }

  lemma KeptPlaced(fleet: Fleet, desired: seq<WorkspaceConfig>, built: seq<Option<Workspace>>, f: Prints, w: Workspace)
    requires Sound(fleet) && |built| == |desired| && w in fleet.routed && w.name in Kept(fleet.routed, desired, built, f)
    ensures Placed(fleet.routed, desired, built, f, w)
  {
    var i :| 0 <= i < |desired| && Keeps(fleet.routed, desired[i], built[i], f) && desired[i].name == w.name;
    FindUnique(fleet.routed, w);
    assert w in Turn(fleet.routed, desired[i], built[i], f);
  }

  lemma KeptOrStarted(fleet: Fleet, desired: seq<WorkspaceConfig>, built: seq<Option<Workspace>>, f: Prints, w: Workspace)
    requires Sound(fleet) && BuiltFor(fleet, desired, built, f)
    ensures w in Next(fleet.routed, desired, built, f) <==>
              w in Started(built) || (w in fleet.routed && w.name in Kept(fleet.routed, desired, built, f))
  {
    NextHolds(fleet.routed, desired, built, f, w);
    if Placed(fleet.routed, desired, built, f, w) {
      var i :| 0 <= i < |desired| && w in Turn(fleet.routed, desired[i], built[i], f);
      FindFinds(fleet.routed, desired[i].name);
    }
    if w in Started(built) {
      StartedPlaced(fleet, desired, built, f, w);
    }
    if w in fleet.routed && w.name in Kept(fleet.routed, desired, built, f) {
      KeptPlaced(fleet, desired, built, f, w);
    }
  }

  lemma SameSet(a: set<Workspace>, b: set<Workspace>)
    requires forall w :: w in a <==> w in b
    ensures a == b
  {
  }

  /** What a round leaves running is exactly the set it would route to. */
  lemma LiveIsNext(fleet: Fleet, desired: seq<WorkspaceConfig>, built: seq<Option<Workspace>>, f: Prints)
    requires Sound(fleet) && BuiltFor(fleet, desired, built, f)
    ensures Reconciled(fleet, desired, built, f).live == Members(Next(fleet.routed, desired, built, f))
    ensures Started(built) !! fleet.live
  {
    var next, keep := Next(fleet.routed, desired, built, f), Kept(fleet.routed, desired, built, f);
    var live := fleet.live + Started(built) - Stopped(fleet.routed, keep);
    forall w ensures w in live <==> w in Members(next) {
      KeptOrStarted(fleet, desired, built, f, w);
    }
    SameSet(live, Members(next));
  }

  /** Nothing counts as a change exactly when the round would route to the workspaces already routed
      to, perhaps in another order. */
  lemma UnchangedSet(fleet: Fleet, desired: seq<WorkspaceConfig>, built: seq<Option<Workspace>>, f: Prints)
    requires Sound(fleet) && BuiltFor(fleet, desired, built, f)
    ensures Changes(fleet.routed, desired, built, f) == 0 <==>
              Members(Next(fleet.routed, desired, built, f)) == Members(fleet.routed)
  {
    var current := fleet.routed;
    var next, keep := Next(current, desired, built, f), Kept(current, desired, built, f);
    NoRemovals(current, keep, next);
    NoLaunches(built);
    LiveIsNext(fleet, desired, built, f);
    forall w ensures w in Members(next) <==> w in Started(built) || (w in current && w.name in keep) {
      KeptOrStarted(fleet, desired, built, f, w);
    }
    if Members(next) == Members(current) {
      forall w | w in current ensures w in next {
        assert w in Members(current);
      }
      forall w ensures w !in Started(built) {
        assert w in Started(built) ==> w in Members(next);
      }
    }
  }

  /** Live equals routed, and names stay distinct, whatever fails to launch. */
  lemma ReconcileKeepsSound(fleet: Fleet, desired: seq<WorkspaceConfig>, built: seq<Option<Workspace>>, f: Prints)
    requires Sound(fleet) && BuiltFor(fleet, desired, built, f) && DistinctEntries(desired)
    ensures Sound(Reconciled(fleet, desired, built, f))
    ensures Members(Reconciled(fleet, desired, built, f).routed) == Members(Next(fleet.routed, desired, built, f))
  {
    NextDistinct(fleet, desired, built, f);
    UnchangedSet(fleet, desired, built, f);
    LiveIsNext(fleet, desired, built, f);
  }

  /** What a round makes of each name. Exactly the configured names with something running, or launched,
      are routed to afterwards: the launched workspace if there is one, and otherwise the very
      workspace that ran before, be it unchanged or impossible to replace. */
  lemma RoutedByName(fleet: Fleet, desired: seq<WorkspaceConfig>, built: seq<Option<Workspace>>, f: Prints, name: string)
    requires Sound(fleet) && BuiltFor(fleet, desired, built, f) && DistinctEntries(desired)
    ensures var before, after := Find(fleet.routed, name), Find(Reconciled(fleet, desired, built, f).routed, name);
            && (forall i | 0 <= i < |desired| && desired[i].name == name ::
                  after == if built[i].Some? then built[i] else before)
            && ((forall i | 0 <= i < |desired| :: desired[i].name != name) ==> after == None)
  {
    var found := Find(Reconciled(fleet, desired, built, f).routed, name);
    forall w: Workspace | w.name == name ensures found == Some(w) <==> Placed(fleet.routed, desired, built, f, w) {
      FoundIfPlaced(fleet, desired, built, f, w);
    }
    FindFinds(Reconciled(fleet, desired, built, f).routed, name);
    NameFollowsTurn(fleet, desired, built, f, name, found);
  }

  lemma FoundIfPlaced(fleet: Fleet, desired: seq<WorkspaceConfig>, built: seq<Option<Workspace>>, f: Prints, w: Workspace)
    requires Sound(fleet) && BuiltFor(fleet, desired, built, f) && DistinctEntries(desired)
    ensures Find(Reconciled(fleet, desired, built, f).routed, w.name) == Some(w) <==> Placed(fleet.routed, desired, built, f, w)
  {
    var after := Reconciled(fleet, desired, built, f).routed;
    ReconcileKeepsSound(fleet, desired, built, f);
    NextHolds(fleet.routed, desired, built, f, w);
    assert w in after <==> w in Members(after);
    FindFinds(after, w.name);
    if w in after {
      FindUnique(after, w);
    }
  }

  lemma NameFollowsTurn(fleet: Fleet, desired: seq<WorkspaceConfig>, built: seq<Option<Workspace>>, f: Prints, name: string,
                        found: Option<Workspace>)
    requires BuiltFor(fleet, desired, built, f) && DistinctEntries(desired)
    requires found.Some? ==> found.value.name == name
    requires forall w: Workspace | w.name == name :: found == Some(w) <==> Placed(fleet.routed, desired, built, f, w)
    ensures forall i | 0 <= i < |desired| && desired[i].name == name ::
              found == if built[i].Some? then built[i] else Find(fleet.routed, name)
    ensures (forall i | 0 <= i < |desired| :: desired[i].name != name) ==> found == None
  {
    var current := fleet.routed;
    forall i | 0 <= i < |desired|
      ensures forall w <- Turn(current, desired[i], built[i], f) :: w.name == desired[i].name
    {
      TurnNamed(fleet, desired, built, f, i);
    }
    forall i | 0 <= i < |desired| && desired[i].name == name
      ensures found == if built[i].Some? then built[i] else Find(current, name)
    {
      FindFinds(current, name);
      var turn := Turn(current, desired[i], built[i], f);
      if turn != [] {
        assert turn[0] in turn && Placed(current, desired, built, f, turn[0]);
      }
      if found.Some? {
        var j :| 0 <= j < |desired| && found.value in Turn(current, desired[j], built[j], f);
        assert i == j by { assert i < j || j < i || i == j; }
      }
    }
  }

  // -------- runs --------

  datatype Round = Round(desired: seq<WorkspaceConfig>, built: seq<Option<Workspace>>)

  ghost predicate Legal(fleet: Fleet, rounds: seq<Round>, f: Prints)
    decreases |rounds|
  {
    rounds == [] ||
    (&& BuiltFor(fleet, rounds[0].desired, rounds[0].built, f) && DistinctEntries(rounds[0].desired)
     && Legal(Reconciled(fleet, rounds[0].desired, rounds[0].built, f), rounds[1..], f))
  }

  ghost function RunRounds(fleet: Fleet, rounds: seq<Round>, f: Prints): Fleet
    requires Legal(fleet, rounds, f)
    decreases |rounds|
  {
    if rounds == [] then fleet
    else RunRounds(Reconciled(fleet, rounds[0].desired, rounds[0].built, f), rounds[1..], f)
  }

  lemma {:induction false} RunsStaySound(fleet: Fleet, rounds: seq<Round>, f: Prints)
    requires Sound(fleet) && Legal(fleet, rounds, f)
    ensures Sound(RunRounds(fleet, rounds, f))
    decreases |rounds|
  {
    if rounds != [] {
      ReconcileKeepsSound(fleet, rounds[0].desired, rounds[0].built, f);
      RunsStaySound(Reconciled(fleet, rounds[0].desired, rounds[0].built, f), rounds[1..], f);
    }
  }

  ghost predicate AsksFor(desired: seq<WorkspaceConfig>, w: Workspace, f: Prints) {
    exists i | 0 <= i < |desired| :: desired[i].name == w.name && f(desired[i]) == w.fingerprint
  }

  /** An entry that never changes keeps the very same workspace through every run. */
  lemma {:induction false} UnchangedSurvives(fleet: Fleet, rounds: seq<Round>, f: Prints, w: Workspace)
    requires Sound(fleet) && Legal(fleet, rounds, f) && w in fleet.routed
    requires forall round <- rounds :: AsksFor(round.desired, w, f)
    ensures w in RunRounds(fleet, rounds, f).routed && w in RunRounds(fleet, rounds, f).live
    decreases |rounds|
  {
    if rounds != [] {
      var round, next := rounds[0], Reconciled(fleet, rounds[0].desired, rounds[0].built, f);
      ReconcileKeepsSound(fleet, round.desired, round.built, f);
      assert AsksFor(round.desired, w, f);
      var i :| 0 <= i < |round.desired| && round.desired[i].name == w.name && f(round.desired[i]) == w.fingerprint;
      FindUnique(fleet.routed, w);
      RoutedByName(fleet, round.desired, round.built, f, w.name);
      FindFinds(next.routed, w.name);
      UnchangedSurvives(next, rounds[1..], f, w);
    }
  }

  /** Once every launch a round needs succeeds, exactly the configured workspaces run, as configured,
      and a further round with the same configuration has nothing to launch, stop or replace. */
  lemma Converges(fleet: Fleet, desired: seq<WorkspaceConfig>, built: seq<Option<Workspace>>, f: Prints)
    requires Sound(fleet) && BuiltFor(fleet, desired, built, f) && DistinctEntries(desired)
    requires forall i | 0 <= i < |desired| :: built[i].Some? || Unchanged(fleet.routed, desired[i], f)
    ensures var after := Reconciled(fleet, desired, built, f);
            && (forall i | 0 <= i < |desired| :: Unchanged(after.routed, desired[i], f))
            && (forall w <- after.routed :: AsksFor(desired, w, f))
            && forall again | BuiltFor(after, desired, again, f) ::
                 Changes(after.routed, desired, again, f) == 0 && Reconciled(after, desired, again, f) == after
  {
    var after := Reconciled(fleet, desired, built, f);
    ReconcileKeepsSound(fleet, desired, built, f);
    forall i | 0 <= i < |desired| ensures Unchanged(after.routed, desired[i], f) {
      RoutedByName(fleet, desired, built, f, desired[i].name);
    }
    forall w | w in after.routed ensures AsksFor(desired, w, f) {
      FindUnique(after.routed, w);
      RoutedByName(fleet, desired, built, f, w.name);
      var i :| 0 <= i < |desired| && desired[i].name == w.name;
      assert Unchanged(after.routed, desired[i], f);
    }
    forall again | BuiltFor(after, desired, again, f)
      ensures Changes(after.routed, desired, again, f) == 0 && Reconciled(after, desired, again, f) == after
    {
      ConvergedStays(after, desired, again, f);
    }
  }

  lemma ConvergedStays(fleet: Fleet, desired: seq<WorkspaceConfig>, again: seq<Option<Workspace>>, f: Prints)
    requires Sound(fleet) && BuiltFor(fleet, desired, again, f)
    requires forall i | 0 <= i < |desired| :: Unchanged(fleet.routed, desired[i], f)
    requires forall w <- fleet.routed :: AsksFor(desired, w, f)
    ensures Changes(fleet.routed, desired, again, f) == 0 && Reconciled(fleet, desired, again, f) == fleet
  {
    var keep := Kept(fleet.routed, desired, again, f);
    forall w | w in fleet.routed ensures w.name in keep {
      var i :| 0 <= i < |desired| && desired[i].name == w.name;
      assert Keeps(fleet.routed, desired[i], again[i], f);
    }
    assert Started(again) == {} && Stopped(fleet.routed, keep) == {};
    NoLaunches(again);
    NoRemovals(fleet.routed, keep, Next(fleet.routed, desired, again, f));
  }

  lemma {:induction false} NextOfUnchanged(current: seq<Workspace>, desired: seq<WorkspaceConfig>,
                                           built: seq<Option<Workspace>>, f: Prints)
    requires |built| == |desired| && forall i | 0 <= i < |desired| :: Unchanged(current, desired[i], f)
    ensures |Next(current, desired, built, f)| == |desired|
    ensures forall i | 0 <= i < |desired| :: Find(current, desired[i].name) == Some(Next(current, desired, built, f)[i])
    decreases |desired|
  {
    if desired != [] {
      NextOfUnchanged(current, desired[..|desired| - 1], built[..|desired| - 1], f);
    }
  }

  /** A configuration that only reorders the entries is not applied: the workspaces it asks for, in the order it
      asks for them, are the routed ones, and the router goes on deciding overlapping wildcards in the old order. */
  lemma ReorderIsNotApplied(fleet: Fleet, desired: seq<WorkspaceConfig>, built: seq<Option<Workspace>>, f: Prints)
    requires Sound(fleet) && BuiltFor(fleet, desired, built, f)
    requires forall i | 0 <= i < |desired| :: Unchanged(fleet.routed, desired[i], f)
    requires forall w <- fleet.routed :: AsksFor(desired, w, f)
    ensures Reconciled(fleet, desired, built, f) == fleet
    ensures var next := Next(fleet.routed, desired, built, f);
            && Members(next) == Members(fleet.routed) && |next| == |desired|
            && forall i | 0 <= i < |desired| :: next[i].name == desired[i].name
  {
    ConvergedStays(fleet, desired, built, f);
    UnchangedSet(fleet, desired, built, f);
    NextOfUnchanged(fleet.routed, desired, built, f);
    forall i | 0 <= i < |desired| ensures Next(fleet.routed, desired, built, f)[i].name == desired[i].name {
      FindFinds(fleet.routed, desired[i].name);
    }
  }

  /** Exactly when the router ends up with the set, in the order, the configuration describes: unless only the order
      is new. */
  lemma AppliedExactly(fleet: Fleet, desired: seq<WorkspaceConfig>, built: seq<Option<Workspace>>, f: Prints)
    requires Sound(fleet) && BuiltFor(fleet, desired, built, f)
    ensures var next := Next(fleet.routed, desired, built, f);
            Reconciled(fleet, desired, built, f).routed == next <==>
              Members(next) != Members(fleet.routed) || next == fleet.routed
  {
    UnchangedSet(fleet, desired, built, f);
  }

  // -------- between stopping and replacing --------

  /** The entry is launched anew, or there is none: what runs under the name is replaced or removed. */
  ghost predicate GivesWay(w: Workspace, desired: seq<WorkspaceConfig>, built: seq<Option<Workspace>>)
    requires |built| == |desired|
  {
    forall i | 0 <= i < |desired| && desired[i].name == w.name :: built[i].Some?
  }

  lemma StoppedGiveWay(fleet: Fleet, desired: seq<WorkspaceConfig>, built: seq<Option<Workspace>>, f: Prints, w: Workspace)
    requires Sound(fleet) && BuiltFor(fleet, desired, built, f) && w in fleet.routed
    ensures w.name !in Kept(fleet.routed, desired, built, f) <==> GivesWay(w, desired, built)
  {
    FindUnique(fleet.routed, w);
    forall i | 0 <= i < |desired| && desired[i].name == w.name
      ensures Keeps(fleet.routed, desired[i], built[i], f) <==> built[i].None?
    {
    }
  }

  /** Workspaces are stopped before the set is replaced. In between, the router names a stopped workspace if and only
      if the round removes or replaces one: rounds that only add, or keep, never leave a gap. */
  lemma StoppedWhileRouted(fleet: Fleet, desired: seq<WorkspaceConfig>, built: seq<Option<Workspace>>, f: Prints)
    requires Sound(fleet) && BuiltFor(fleet, desired, built, f)
    ensures (exists w <- fleet.routed :: w !in Reconciled(fleet, desired, built, f).live) <==>
              exists w <- fleet.routed :: GivesWay(w, desired, built)
  {
    forall w | w in fleet.routed
      ensures w !in Reconciled(fleet, desired, built, f).live <==> GivesWay(w, desired, built)
    {
      LiveIsNext(fleet, desired, built, f);
      assert w in fleet.live;
      StoppedGiveWay(fleet, desired, built, f, w);
    }
  }

  /** In particular every workspace that is replaced is stopped while the router still names it. */
  lemma ReplacedIsStoppedFirst(fleet: Fleet, desired: seq<WorkspaceConfig>, built: seq<Option<Workspace>>, f: Prints, i: nat)
    requires Sound(fleet) && BuiltFor(fleet, desired, built, f) && DistinctEntries(desired)
    requires i < |desired| && built[i].Some? && Find(fleet.routed, desired[i].name).Some?
    ensures var replaced := Find(fleet.routed, desired[i].name).value;
            replaced in fleet.routed && replaced !in Reconciled(fleet, desired, built, f).live
  {
    FindFinds(fleet.routed, desired[i].name);
    var w := Find(fleet.routed, desired[i].name).value;
    forall j | 0 <= j < |desired| && desired[j].name == w.name ensures built[j].Some? {
      assert i == j by { assert i < j || j < i || i == j; }
    }
    LiveIsNext(fleet, desired, built, f);
    StoppedGiveWay(fleet, desired, built, f, w);
  }

  /** What stays running as it is was built from the very settings the file now gives: two loaded entries
      that print alike are configured alike, and so match the same groups. */
  lemma UnchangedMeansSameSettings(fleet: Fleet, before: WorkspaceEntry, now: WorkspaceEntry,
                                   defaultsBefore: Defaults, defaultsNow: Defaults, formats: Formats, w: Workspace)
    requires formats.Faithful() && Plain(before) && Plain(now)
    requires WellFormed(before, defaultsBefore) && WellFormed(now, defaultsNow)
    requires w.fingerprint == Fingerprints(formats)(Configured(before, defaultsBefore))
    requires Find(fleet.routed, now.name) == Some(w)
    ensures Unchanged(fleet.routed, Configured(now, defaultsNow), Fingerprints(formats)) <==>
              Configured(before, defaultsBefore) == Configured(now, defaultsNow)
  {
    if Unchanged(fleet.routed, Configured(now, defaultsNow), Fingerprints(formats)) {
      FingerprintSound(before, now, defaultsBefore, defaultsNow, formats);
    }
  }

  // -------- the manager --------

  /** How launching a workspace goes: it cannot be built, or kcp answers its first read and its watch
      starts or not. */
  datatype Outcome = Unbuildable | Built(answer: Answer, watches: bool)

  predicate ComesUp(entry: WorkspaceConfig, outcome: Outcome) {
    outcome.Built? && Read(entry.groups, outcome.answer).Some? && outcome.watches
  }

  /** What was launched for an entry: something if the entry is new or changed and comes up. */
  predicate LaunchedFor(current: seq<Workspace>, entry: WorkspaceConfig, outcome: Outcome, launch: Option<Workspace>,
                        f: Prints) {
    && (launch.Some? <==> !Unchanged(current, entry, f) && ComesUp(entry, outcome))
    && (launch.Some? ==> launch.value.name == entry.name && launch.value.fingerprint == f(entry))
  }

  ghost predicate AllLaunchedFor(current: seq<Workspace>, desired: seq<WorkspaceConfig>, env: string -> Outcome,
                                 built: seq<Option<Workspace>>, f: Prints) {
    && |built| == |desired|
    && forall i | 0 <= i < |desired| :: LaunchedFor(current, desired[i], env(desired[i].name), built[i], f)
  }

  /** A round took the fleet to `after`, counting `changes`: it launched what it should, and did with it
      what `Reconciled` says. */
  ghost predicate Adopted(before: Fleet, desired: seq<WorkspaceConfig>, env: string -> Outcome,
                          built: seq<Option<Workspace>>, f: Prints, changes: nat, after: Fleet) {
    && AllLaunchedFor(before.routed, desired, env, built, f) && BuiltFor(before, desired, built, f)
    && after == Reconciled(before, desired, built, f) && changes == Changes(before.routed, desired, built, f)
  }

  /** What going through these entries comes to. */
  ghost predicate Applied(current: seq<Workspace>, desired: seq<WorkspaceConfig>, env: string -> Outcome,
                          built: seq<Option<Workspace>>, f: Prints, next: seq<Workspace>, keep: set<string>, launches: nat) {
    && AllLaunchedFor(current, desired, env, built, f)
    && next == Next(current, desired, built, f) && keep == Kept(current, desired, built, f) && launches == Launches(built)
  }

  lemma AppliedStep(current: seq<Workspace>, desired: seq<WorkspaceConfig>, env: string -> Outcome,
                    built: seq<Option<Workspace>>, f: Prints, next: seq<Workspace>, keep: set<string>, launches: nat,
                    entry: WorkspaceConfig, launch: Option<Workspace>)
    requires Applied(current, desired, env, built, f, next, keep, launches)
    requires LaunchedFor(current, entry, env(entry.name), launch, f)
    ensures Applied(current, desired + [entry], env, built + [launch], f,
                    next + Turn(current, entry, launch, f),
                    if Keeps(current, entry, launch, f) then keep + {entry.name} else keep,
                    if launch.Some? then launches + 1 else launches)
  {
    AllOneMore(current, desired, env, built, entry, launch, f);
    NextSnoc(current, desired, built, f, entry, launch);
    KeptOneMore(current, desired, built, entry, launch, f);
  }

  class Manager {
    const routes: Routes
    /** How a configuration is told from another. */
    const prints: Prints
    /** Every workspace for which anything was started. */
    ghost var launched: set<Workspace>

    constructor (routes: Routes, formats: Formats)
      ensures this.routes == routes && this.prints == Fingerprints(formats) && launched == {}
    {
      this.routes, this.prints := routes, Fingerprints(formats);
      launched := {};
    }

    ghost function Live(): set<Workspace>
      reads this, launched
    {
      set w | w in launched && !w.cancelled
    }

    ghost function View(): Fleet
      reads this, routes, launched
    {
      Fleet(routes.workspaces, Live())
    }

    /** Builds a workspace and reads it once. */
    method Build(entry: WorkspaceConfig, answer: Answer) returns (built: Option<Workspace>)
      ensures built.Some? <==> Read(entry.groups, answer).Some?
      ensures built.Some? ==>
                && fresh(built.value) && fresh(built.value.cache) && !built.value.cancelled
                && built.value.name == entry.name && built.value.fingerprint == prints(entry)
                && built.value.cache.View() == NewCache(entry.groups).Refreshed(answer) && built.value.cache.View().Valid()
    {
      var cache := new ResourceCache(entry.groups);
      var workspace := new Workspace(entry.name, prints(entry), cache);
      var read := cache.Refresh(answer);
      NewCacheValid(entry.groups);
      RefreshKeepsValid(NewCache(entry.groups), answer);
      return if read then Some(workspace) else None;
    }

    /** Launches one workspace; one whose watch does not start is cancelled again. */
    method Launch(entry: WorkspaceConfig, outcome: Outcome) returns (built: Option<Workspace>)
      modifies this`launched
      ensures built.Some? <==> ComesUp(entry, outcome)
      ensures built.Some? <==>
                && outcome.Built? && outcome.answer.Some? && AllAnswered(entry.groups, outcome.answer.value)
                && outcome.watches
      ensures old(launched) <= launched
      ensures forall w | w in launched && w !in old(launched) :: fresh(w) && (w.cancelled <==> built != Some(w))
      ensures built.Some? ==>
                && built.value in launched && built.value !in old(launched) && fresh(built.value.cache)
                && built.value.name == entry.name && built.value.fingerprint == prints(entry)
                && built.value.cache.View() == NewCache(entry.groups).Refreshed(outcome.answer)
    {
      if outcome.Unbuildable? {
        return None;
      }
      ReadExactly(entry.groups, outcome.answer);
      built := Build(entry, outcome.answer);
      if built.None? {
        return None;
      }
      launched := launched + {built.value};
      if !outcome.watches {
        built.value.Stop();
        return None;
      }
    }

    /** Launches every entry, up to the first that does not come up. */
    method LaunchAll(configured: seq<WorkspaceConfig>, env: string -> Outcome) returns (ok: bool, running: seq<Workspace>)
      requires launched == {}
      modifies this`launched
      ensures ok <==> forall entry <- configured :: ComesUp(entry, env(entry.name))
      ensures ok ==> |running| == |configured| && Live() == Members(running)
      ensures ok ==> forall i | 0 <= i < |configured| ::
                running[i].name == configured[i].name && running[i].fingerprint == prints(configured[i])
    {
      running := [];
      for i := 0 to |configured|
        invariant |running| == i
        invariant forall w <- launched :: fresh(w) && (w.cancelled <==> w !in running)
        invariant forall w <- running :: w in launched
        invariant forall j | 0 <= j < i ::
                    && ComesUp(configured[j], env(configured[j].name))
                    && running[j].name == configured[j].name
                    && running[j].fingerprint == prints(configured[j])
      {
        ghost var before, earlier := launched, running;
        var built := Launch(configured[i], env(configured[i].name));
        if built.None? {
          assert configured[i] in configured;
          return false, running;
        }
        running := running + [built.value];
        forall w | w in launched ensures fresh(w) && (w.cancelled <==> w !in running) {
          assert w in before ==> (w.cancelled <==> w !in earlier);
        }
      }
      SameSet(Live(), Members(running));
      return true, running;
    }

    /** Brings up every configured workspace, or gives up at the first that does not come up. */
    method Start(configured: seq<WorkspaceConfig>, env: string -> Outcome) returns (ok: bool)
      requires launched == {} && DistinctEntries(configured)
      modifies this`launched, routes
      ensures ok <==> forall entry <- configured :: ComesUp(entry, env(entry.name))
      ensures ok ==> Sound(View()) && |routes.workspaces| == |configured|
      ensures ok ==> forall i | 0 <= i < |configured| ::
                && routes.workspaces[i].name == configured[i].name
                && routes.workspaces[i].fingerprint == prints(configured[i])
      ensures !ok ==> routes.workspaces == old(routes.workspaces)
    {
      var launches, running := LaunchAll(configured, env);
      if !launches {
        return false;
      }
      NamesApart(running, configured);
      routes.Replace(running);
      return true;
    }

    /** Of the workspaces launched since `before`, those in `started` run and the others are cancelled. */
    ghost predicate LaunchedSince(before: set<Workspace>, started: set<Workspace>)
      reads this, launched
    {
      && before <= launched && started <= launched && started !! before
      && forall w | w in launched && w !in before :: w.cancelled <==> w !in started
    }

    /** One entry of a re-read configuration: what is running stays if it is what the entry asks for, or
        if its replacement does not come up. */
    method Place(byName: map<string, Workspace>, ghost current: seq<Workspace>, entry: WorkspaceConfig, outcome: Outcome,
                 ghost before: set<Workspace>, ghost started: set<Workspace>)
      returns (keeps: bool, placed: seq<Workspace>, launch: Option<Workspace>)
      requires Find(current, entry.name) == if entry.name in byName then Some(byName[entry.name]) else None
      requires LaunchedSince(before, started)
      modifies this`launched
      ensures keeps == Keeps(current, entry, launch, prints) && placed == Turn(current, entry, launch, prints)
      ensures LaunchedFor(current, entry, outcome, launch, prints)
      ensures LaunchedSince(before, started + (if launch.Some? then {launch.value} else {}))
    {
      var found := entry.name in byName;
      if found && byName[entry.name].fingerprint == prints(entry) {
        return true, [byName[entry.name]], None;
      }
      launch := Launch(entry, outcome);
      if launch.None? {
        keeps, placed := found, if found then [byName[entry.name]] else [];
      } else {
        keeps, placed := false, [launch.value];
      }
    }

    /** Goes through the entries of a re-read configuration, launching what is new or changed. */
    method LaunchChanged(current: seq<Workspace>, desired: seq<WorkspaceConfig>, env: string -> Outcome)
      returns (next: seq<Workspace>, keep: set<string>, launches: nat, ghost built: seq<Option<Workspace>>)
      modifies this`launched
      ensures Applied(current, desired, env, built, prints, next, keep, launches)
      ensures LaunchedSince(old(launched), Started(built))
    {
      var byName := IndexByName(current);
      next, keep, launches, built := [], {}, 0, [];
      ghost var done: seq<WorkspaceConfig>, started: set<Workspace> := [], {};
      for i := 0 to |desired|
        invariant done == desired[..i] && started == Started(built)
        invariant Applied(current, done, env, built, prints, next, keep, launches)
        invariant LaunchedSince(old(launched), started)
      {
        var entry := desired[i];
        var keeps, placed, launch := Place(byName, current, entry, env(entry.name), old(launched), started);
        AppliedStep(current, done, env, built, prints, next, keep, launches, entry, launch);
        StartedOneMore(built, launch);
        next := next + placed;
        if keeps {
          keep := keep + {entry.name};
        }
        if launch.Some? {
          launches := launches + 1;
        }
        done, built := done + [entry], built + [launch];
        started := started + (if launch.Some? then {launch.value} else {});
      }
      assert done == desired;
    }

    twostate lemma LiveAfterLaunches(new started: set<Workspace>)
      requires LaunchedSince(old(launched), started)
      requires forall w <- old(launched) :: w.cancelled == old(w.cancelled)
      ensures Live() == old(Live()) + started
    {
      SameSet(Live(), old(Live()) + started);
    }

    twostate lemma LiveAfterStops(stopped: set<Workspace>)
      requires launched == old(launched)
      requires forall w <- launched :: w.cancelled == (old(w.cancelled) || w in stopped)
      ensures Live() == old(Live()) - stopped
    {
      SameSet(Live(), old(Live()) - stopped);
    }

    /** Stops what is not kept, and counts what is gone for good. */
    method StopOthers(current: seq<Workspace>, keep: set<string>, next: seq<Workspace>) returns (removals: nat)
      requires forall w <- current :: w in launched
      modifies Members(current)
      ensures removals == Removals(current, keep, next)
      ensures Live() == old(Live()) - Stopped(current, keep)
    {
      removals := 0;
      ghost var done: seq<Workspace>, stopped: set<Workspace> := [], {};
      for i := 0 to |current|
        invariant done == current[..i]
        invariant removals == Removals(done, keep, next) && stopped == Stopped(done, keep)
        invariant forall w <- launched :: w.cancelled == (old(w.cancelled) || w in stopped)
      {
        var running := current[i];
        StoppedSnoc(done, keep, next, running);
        done := done + [running];
        if running.name in keep {
          continue;
        }
        if running !in next {
          removals := removals + 1;
        }
        running.Stop();
        stopped := stopped + {running};
      }
      assert done == current;
      LiveAfterStops(stopped);
    }

    /** Launches what is new or changed, then stops what is not kept. At its end the router still names the
        old set, and some workspace of it is stopped if and only if not all of it is kept. */
    method LaunchAndStop(current: seq<Workspace>, desired: seq<WorkspaceConfig>, env: string -> Outcome)
      returns (next: seq<Workspace>, launches: nat, removals: nat, ghost keep: set<string>, ghost built: seq<Option<Workspace>>)
      requires current == routes.workspaces && forall w <- current :: w in launched && !w.cancelled
      modifies this`launched, Members(current)
      ensures (exists w <- routes.workspaces :: w.cancelled) <==> (exists w <- current :: w.name !in keep)
      ensures Applied(current, desired, env, built, prints, next, keep, launches)
      ensures removals == Removals(current, keep, next)
      ensures Started(built) !! old(launched)
      ensures Live() == old(Live()) + Started(built) - Stopped(current, keep)
    {
      var kept;
      next, kept, launches, built := LaunchChanged(current, desired, env);
      keep := kept;
      LiveAfterLaunches(Started(built));
      removals := StopOthers(current, kept, next);
      forall w | w in current ensures w.cancelled <==> w.name !in keep {
        assert w in old(Live()) && (w in Live() <==> w !in Stopped(current, keep));
      }
    }

    lemma RoutedRun()
      requires Sound(View())
      ensures forall w <- routes.workspaces :: w in launched && !w.cancelled
    {
      assert forall w <- routes.workspaces :: w in Members(routes.workspaces);
    }

    /** Brings the running workspaces in line with a loaded configuration. */
    method Adopt(desired: seq<WorkspaceConfig>, env: string -> Outcome)
      returns (changes: nat, ghost built: seq<Option<Workspace>>)
      requires Sound(View()) && DistinctEntries(desired)
      modifies this`launched, routes, launched
      ensures Sound(View()) && Adopted(old(View()), desired, env, built, prints, changes, View())
      ensures routes.revision == old(routes.revision) + (if changes == 0 then 0 else 1)
    {
      var current := routes.workspaces;
      ghost var fleet := View();
      RoutedRun();
      var next, launches, removals, keep, built' := LaunchAndStop(current, desired, env);
      built := built';
      changes := launches + removals;
      if changes != 0 {
        routes.Replace(next);
      }
      AdoptedBy(fleet, desired, env, built, prints, next, keep, launches, removals, View());
    }

    /** Applies the configuration as it now reads. Nothing changes if it cannot be loaded. */
    method Reconcile(entries: seq<WorkspaceEntry>, defaults: Defaults, env: string -> Outcome)
      returns (r: Result<nat, LoadError>, ghost desired: seq<WorkspaceConfig>, ghost built: seq<Option<Workspace>>)
      requires Sound(View())
      modifies this`launched, routes, launched
      ensures r.Ok? <==> entries != [] && Loadable(entries, defaults)
      ensures r.Err? ==> View() == old(View()) && routes.revision == old(routes.revision)
      ensures Sound(View())
      ensures r.Ok? ==>
                && |desired| == |entries|
                && (forall i | 0 <= i < |entries| ::
                      Parsed(entries[i].apiGroups).Ok? && desired[i] == Configured(entries[i], defaults))
                && Adopted(old(View()), desired, env, built, prints, r.value, View())
                && routes.revision == old(routes.revision) + (if r.value == 0 then 0 else 1)
    {
      desired, built := [], [];
      var loaded := LoadWorkspaces(entries, defaults);
      if loaded.Err? {
        return Err(loaded.error), desired, built;
      }
      desired := loaded.value;
      LoadedApart(entries, defaults, desired);
      var changes, built' := Adopt(loaded.value, env);
      built := built';
      r := Ok(changes);
    }
  }

  lemma AdoptedBy(fleet: Fleet, desired: seq<WorkspaceConfig>, env: string -> Outcome, built: seq<Option<Workspace>>, f: Prints,
                  next: seq<Workspace>, keep: set<string>, launches: nat, removals: nat, after: Fleet)
    requires Sound(fleet) && DistinctEntries(desired) && Started(built) !! fleet.live
    requires Applied(fleet.routed, desired, env, built, f, next, keep, launches)
    requires removals == Removals(fleet.routed, keep, next)
    requires after == Fleet(if launches + removals == 0 then fleet.routed else next,
                            fleet.live + Started(built) - Stopped(fleet.routed, keep))
    ensures Adopted(fleet, desired, env, built, f, launches + removals, after) && Sound(after)
  {
    NewlyBuilt(fleet, desired, env, built, f);
    ReconcileKeepsSound(fleet, desired, built, f);
  }

  lemma NewlyBuilt(fleet: Fleet, desired: seq<WorkspaceConfig>, env: string -> Outcome, built: seq<Option<Workspace>>, f: Prints)
    requires AllLaunchedFor(fleet.routed, desired, env, built, f) && Started(built) !! fleet.live
    ensures BuiltFor(fleet, desired, built, f)
  {
    forall i | 0 <= i < |built| && built[i].Some? ensures built[i].value !in fleet.live {
      assert built[i].value in Started(built);
    }
    forall i | 0 <= i < |desired| ensures LaunchedFor(fleet.routed, desired[i], env(desired[i].name), built[i], f) {
    }
  }

  lemma NamesApart(running: seq<Workspace>, configured: seq<WorkspaceConfig>)
    requires |running| == |configured| && DistinctEntries(configured)
    requires forall i | 0 <= i < |running| :: running[i].name == configured[i].name
    ensures DistinctNames(running)
  {
  }

  method IndexByName(current: seq<Workspace>) returns (byName: map<string, Workspace>)
    ensures forall name :: Find(current, name) == if name in byName then Some(byName[name]) else None
  {
    byName := map[];
    for i := 0 to |current|
      invariant forall name :: Find(current[..i], name) == if name in byName then Some(byName[name]) else None
    {
      assert current[..i + 1][..i] == current[..i];
      byName := byName[current[i].name := current[i]];
    }
    assert current[..|current|] == current;
  }

  lemma AllOneMore(current: seq<Workspace>, desired: seq<WorkspaceConfig>, env: string -> Outcome,
                   built: seq<Option<Workspace>>, entry: WorkspaceConfig, launch: Option<Workspace>, f: Prints)
    requires AllLaunchedFor(current, desired, env, built, f)
    requires LaunchedFor(current, entry, env(entry.name), launch, f)
    ensures AllLaunchedFor(current, desired + [entry], env, built + [launch], f)
  {
    var longer, more := desired + [entry], built + [launch];
    forall i | 0 <= i < |longer| ensures LaunchedFor(current, longer[i], env(longer[i].name), more[i], f) {
      if i < |desired| {
        assert longer[i] == desired[i] && more[i] == built[i];
      }
    }
  }

  lemma StartedOneMore(built: seq<Option<Workspace>>, launch: Option<Workspace>)
    ensures Started(built + [launch]) == Started(built) + (if launch.Some? then {launch.value} else {})
  {
    var more := built + [launch];
    assert launch.Some? ==> more[|built|].value in Started(more);
    forall w | w in Started(built) ensures w in Started(more) {
      var j :| 0 <= j < |built| && built[j].Some? && built[j].value == w;
      assert more[j] == built[j];
    }
  }

  lemma KeptOneMore(current: seq<Workspace>, desired: seq<WorkspaceConfig>, built: seq<Option<Workspace>>,
                    entry: WorkspaceConfig, launch: Option<Workspace>, f: Prints)
    requires |built| == |desired|
    ensures Kept(current, desired + [entry], built + [launch], f) == Kept(current, desired, built, f)
              + (if Keeps(current, entry, launch, f) then {entry.name} else {})
  {
    var more, longer := built + [launch], desired + [entry];
    forall name | name in Kept(current, desired, built, f) ensures name in Kept(current, longer, more, f) {
      var j :| 0 <= j < |desired| && Keeps(current, desired[j], built[j], f) && desired[j].name == name;
      assert longer[j] == desired[j] && more[j] == built[j];
    }
    forall name | name in Kept(current, longer, more, f)
      ensures name in Kept(current, desired, built, f) || (Keeps(current, entry, launch, f) && name == entry.name)
    {
      var j :| 0 <= j < |longer| && Keeps(current, longer[j], more[j], f) && longer[j].name == name;
      if j < |desired| {
        assert longer[j] == desired[j] && more[j] == built[j];
      }
    }
    if Keeps(current, entry, launch, f) {
      assert longer[|desired|] == entry && more[|desired|] == launch;
    }
  }

  lemma StoppedSnoc(current: seq<Workspace>, keep: set<string>, next: seq<Workspace>, w: Workspace)
    ensures Stopped(current + [w], keep) == Stopped(current, keep) + (if w.name in keep then {} else {w})
    ensures Removals(current + [w], keep, next)
         == Removals(current, keep, next) + (if w.name !in keep && w !in next then 1 else 0)
  {
    assert (current + [w])[..|current|] == current;
  }

  lemma LoadedApart(entries: seq<WorkspaceEntry>, defaults: Defaults, desired: seq<WorkspaceConfig>)
    requires Loadable(entries, defaults) && |desired| == |entries|
    requires forall i | 0 <= i < |entries| :: Parsed(entries[i].apiGroups).Ok? && desired[i] == Configured(entries[i], defaults)
    ensures DistinctEntries(desired)
  {
    forall i, j | 0 <= i < j < |desired| ensures desired[i].name != desired[j].name {
      LoadedDisjoint(entries, defaults, i, j);
    }
  }
}
