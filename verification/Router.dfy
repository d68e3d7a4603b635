/** Spreading groups over workspaces, with the merged view cached under the sum of the workspaces'
    generations and a revision of the set (`pkg/apiserver/router.go`). Calls are atomic here;
    RouterInterleaving.dfy takes them apart. */
module Router {
  import opened Wrappers
  import opened ResourceCaches
  import opened Merging

  datatype MergedSnapshot<W> = MergedSnapshot(
    generation: nat, revision: nat,
    groups: map<string, APIGroup>, resources: map<GroupVersion, seq<APIResource>>, owners: map<string, W>)

  /** A routed workspace, by identity, and the state of its cache. */
  datatype Routed<W> = Routed(id: W, cache: CacheState)

  datatype RouterState<W> = RouterState(routed: seq<Routed<W>>, revision: nat, merged: Option<MergedSnapshot<W>>)

  function Snapshots<W>(routed: seq<Routed<W>>): seq<Snapshot> {
    seq(|routed|, i requires 0 <= i < |routed| => routed[i].cache.snapshot)
  }

  function Generations<W>(routed: seq<Routed<W>>): seq<nat> {
    seq(|routed|, i requires 0 <= i < |routed| => routed[i].cache.generation)
  }

  function Sum<W>(routed: seq<Routed<W>>): nat {
    Total(Generations(routed))
  }

  /** The answer without any cache. */
  function FromScratch<W>(routed: seq<Routed<W>>, revision: nat): MergedSnapshot<W> {
    var m := Merge(Snapshots(routed));
    MergedSnapshot(Sum(routed), revision, m.groups, m.resources, Owners(routed, m))
  }

  function Owners<W>(routed: seq<Routed<W>>, m: Merged): map<string, W> {
    map group | group in m.owners && m.owners[group] < |routed| :: routed[m.owners[group]].id
  }

  predicate Hit<W>(s: RouterState<W>) {
    s.merged.Some? && s.merged.value.generation == Sum(s.routed) && s.merged.value.revision == s.revision
  }

  /** The answer the router gives: what it holds if the key still fits, else a rebuild. */
  function Answered<W>(s: RouterState<W>): MergedSnapshot<W> {
    if Hit(s) then s.merged.value else FromScratch(s.routed, s.revision)
  }

  datatype Op<W> =
    | Refresh(position: nat, answer: Answer)
    | Replace(routed: seq<Routed<W>>)
    | Current

  function Apply<W>(s: RouterState<W>, op: Op<W>): RouterState<W> {
    match op
    case Refresh(i, answer) =>
      if i < |s.routed| then s.(routed := s.routed[i := Routed(s.routed[i].id, s.routed[i].cache.Refreshed(answer))])
      else s
    case Replace(routed) => s.(routed := routed, revision := s.revision + 1)
    case Current => s.(merged := Some(Answered(s)))
  }

  /** A run of the router from its construction. */
  function Run<W>(routed: seq<Routed<W>>, ops: seq<Op<W>>): RouterState<W>
    decreases |ops|
  {
    if ops == [] then RouterState(routed, 1, None)
    else Apply(Run(routed, ops[..|ops| - 1]), ops[|ops| - 1])
  }

  /** The held view was merged from `at`; since then generations only rose, and a cache whose
      generation did not move holds what it held. */
  ghost predicate MergedAt<W>(s: RouterState<W>, at: seq<Routed<W>>) {
    s.merged.Some? ==>
      && s.merged.value.revision <= s.revision
      && (s.merged.value.revision == s.revision ==>
            && |at| == |s.routed|
            && s.merged.value == FromScratch(at, s.revision)
            && forall i | 0 <= i < |at| ::
                 && at[i].id == s.routed[i].id
                 && at[i].cache.generation <= s.routed[i].cache.generation
                 && (at[i].cache.generation == s.routed[i].cache.generation ==> at[i].cache == s.routed[i].cache))
  }

  lemma HitIsFresh<W>(s: RouterState<W>, at: seq<Routed<W>>)
    requires MergedAt(s, at)
    ensures Answered(s) == FromScratch(s.routed, s.revision)
  {
    if Hit(s) {
      var was, now := Generations(at), Generations(s.routed);
      EqualTotals(was, now);
      forall i | 0 <= i < |at| ensures at[i] == s.routed[i] {
        assert was == now ==> was[i] == now[i];
      }
      assert at == s.routed;
    }
  }

  lemma {:induction false} RunMergedAt<W>(routed: seq<Routed<W>>, ops: seq<Op<W>>) returns (at: seq<Routed<W>>)
    ensures MergedAt(Run(routed, ops), at)
    decreases |ops|
  {
    if ops == [] {
      return [];
    }
    var before := Run(routed, ops[..|ops| - 1]);
    at := RunMergedAt(routed, ops[..|ops| - 1]);
    match ops[|ops| - 1]
    case Refresh(i, answer) =>
    case Replace(_) =>
    case Current =>
      HitIsFresh(before, at);
      at := before.routed;
  }

  /** Over every run of replacements, successful and failed refreshes, and reads, the cached answer
      is the one a merge from scratch would give. */
  lemma CacheRefinesRecomputation<W>(routed: seq<Routed<W>>, ops: seq<Op<W>>)
    ensures var s := Run(routed, ops);
            Answered(s) == FromScratch(s.routed, s.revision)
  {
    var at := RunMergedAt(routed, ops);
    HitIsFresh(Run(routed, ops), at);
  }

  ghost predicate AllValid<W>(routed: seq<Routed<W>>) {
    forall i | 0 <= i < |routed| :: routed[i].cache.Valid()
  }

  lemma {:induction false} RunKeepsValid<W>(routed: seq<Routed<W>>, ops: seq<Op<W>>)
    requires AllValid(routed)
    requires forall i | 0 <= i < |ops| && ops[i].Replace? :: AllValid(ops[i].routed)
    ensures AllValid(Run(routed, ops).routed)
    decreases |ops|
  {
    if ops != [] {
      var earlier, op := ops[..|ops| - 1], ops[|ops| - 1];
      assert forall i | 0 <= i < |earlier| :: earlier[i] == ops[i];
      RunKeepsValid(routed, earlier);
      var before := Run(routed, earlier);
      if op.Refresh? && op.position < |before.routed| {
        RefreshKeepsValid(before.routed[op.position].cache, op.answer);
      }
    }
  }

  /** The first listed workspace with the group. */
  ghost predicate FirstServing<W>(routed: seq<Routed<W>>, group: string, i: nat) {
    && i < |routed| && group in routed[i].cache.snapshot.groups
    && forall j | 0 <= j < i :: group !in routed[j].cache.snapshot.groups
  }

  /** The group's entry and resources in `m` are those of workspace `i`, and nobody else's. */
  ghost predicate ServedBy<W>(routed: seq<Routed<W>>, m: MergedSnapshot<W>, group: string, i: nat)
    requires i < |routed| && group in routed[i].cache.snapshot.groups
  {
    && group in m.groups && m.groups[group] == routed[i].cache.snapshot.groups[group]
    && group in m.owners && m.owners[group] == routed[i].id
    && forall gv: GroupVersion | gv.group == group ::
         && (gv in m.resources <==> gv in routed[i].cache.snapshot.resources)
         && (gv in m.resources ==> m.resources[gv] == routed[i].cache.snapshot.resources[gv])
  }

  ghost predicate Unserved<W>(m: MergedSnapshot<W>, group: string) {
    group !in m.groups && group !in m.owners && forall gv: GroupVersion | gv.group == group :: gv !in m.resources
  }

  lemma FirstIsOwner<W>(routed: seq<Routed<W>>, group: string, i: nat)
    requires FirstServing(routed, group, i)
    ensures OwnerOf(Snapshots(routed), group) == i && group in Merge(Snapshots(routed)).owners
  {
    var snapshots := Snapshots(routed);
    assert group in snapshots[i].groups;
    assert forall j | 0 <= j < i :: group !in snapshots[j].groups;
    OwnerFound(snapshots, group);
  }

  lemma ScratchServed<W>(routed: seq<Routed<W>>, revision: nat, group: string, i: nat)
    requires FirstServing(routed, group, i)
    ensures ServedBy(routed, FromScratch(routed, revision), group, i)
  {
    FirstIsOwner(routed, group, i);
    MergeOwnership(Snapshots(routed), group);
  }

  lemma ScratchUnserved<W>(routed: seq<Routed<W>>, revision: nat, group: string)
    requires forall i: nat :: !FirstServing(routed, group, i)
    ensures Unserved(FromScratch(routed, revision), group)
  {
    var snapshots := Snapshots(routed);
    MergeOwnership(snapshots, group);
    if group in Merge(snapshots).owners {
      var owner := Merge(snapshots).owners[group];
      assert forall j | 0 <= j < owner :: snapshots[j] == routed[j].cache.snapshot;
      assert FirstServing(routed, group, owner);
    }
  }

  /** In every reachable state each group of the answer is the first listed workspace's that has it,
      that workspace's matcher covers it, and its resources are exactly that workspace's. */
  lemma OwnershipInEveryRun<W>(routed: seq<Routed<W>>, ops: seq<Op<W>>, group: string)
    requires AllValid(routed)
    requires forall i | 0 <= i < |ops| && ops[i].Replace? :: AllValid(ops[i].routed)
    ensures var s := Run(routed, ops);
            && (forall i: nat | FirstServing(s.routed, group, i) ::
                  ServedBy(s.routed, Answered(s), group, i) && s.routed[i].cache.owned.Matches(group))
            && ((forall i: nat :: !FirstServing(s.routed, group, i)) ==> Unserved(Answered(s), group))
  {
    var s := Run(routed, ops);
    CacheRefinesRecomputation(routed, ops);
    RunKeepsValid(routed, ops);
    if forall i: nat :: !FirstServing(s.routed, group, i) {
      ScratchUnserved(s.routed, s.revision, group);
    }
    forall i: nat | FirstServing(s.routed, group, i)
      ensures ServedBy(s.routed, Answered(s), group, i) && s.routed[i].cache.owned.Matches(group)
    {
      ScratchServed(s.routed, s.revision, group, i);
      assert s.routed[i].cache.Valid();
    }
  }

  /** Which workspace would serve a group, from the configuration alone. */
  ghost predicate FirstConfigured<W>(routed: seq<Routed<W>>, group: string, i: nat) {
    && i < |routed| && routed[i].cache.owned.Matches(group)
    && forall j | 0 <= j < i :: !routed[j].cache.owned.Matches(group)
  }

  /** The workspace serving a group is never listed before the one configured for it: an exact name
      further down does not take a group back from a wildcard that has it. */
  lemma ServingNotBeforeConfigured<W>(routed: seq<Routed<W>>, group: string, serving: nat, configured: nat)
    requires AllValid(routed)
    requires FirstServing(routed, group, serving) && FirstConfigured(routed, group, configured)
    ensures configured <= serving
    ensures group in routed[configured].cache.snapshot.groups ==> serving == configured
  {
    assert routed[serving].cache.Valid();
  }

  // -------- the router and its workspaces --------

  class Workspace {
    const name: string
    const fingerprint: string
    const cache: ResourceCache
    var cancelled: bool

    constructor (name: string, fingerprint: string, cache: ResourceCache)
      ensures this.name == name && this.fingerprint == fingerprint && this.cache == cache && !cancelled
    {
      this.name, this.fingerprint, this.cache := name, fingerprint, cache;
      cancelled := false;
    }

    /** Ends everything the workspace was running. */
    method Stop()
      modifies this
      ensures cancelled
    {
      cancelled := true;
    }
  }

  ghost function RoutedView(workspaces: seq<Workspace>): (routed: seq<Routed<Workspace>>)
    reads set w <- workspaces :: w.cache
    ensures |routed| == |workspaces|
    ensures forall i | 0 <= i < |workspaces| :: routed[i] == Routed(workspaces[i], workspaces[i].cache.View())
  {
    if workspaces == [] then []
    else
      var last := workspaces[|workspaces| - 1];
      RoutedView(workspaces[..|workspaces| - 1]) + [Routed(last, last.cache.View())]
  }

  lemma AnswerHeld<W>(s: RouterState<W>)
    requires s.merged.Some? && s.merged.value.generation == Sum(s.routed) && s.merged.value.revision == s.revision
    ensures Answered(s) == s.merged.value && Apply(s, Op.Current) == s
  {
  }

  lemma AnswerRebuilt<W>(s: RouterState<W>, m: MergedSnapshot<W>)
    requires !Hit(s) && m == FromScratch(s.routed, s.revision)
    ensures Answered(s) == m && Apply(s, Op.Current) == s.(merged := Some(m))
  {
  }

  ghost predicate DistinctCaches(workspaces: seq<Workspace>) {
    forall i, j | 0 <= i < j < |workspaces| :: workspaces[i].cache != workspaces[j].cache
  }

  class Routes {
    var workspaces: seq<Workspace>
    var revision: nat
    var merged: Option<MergedSnapshot<Workspace>>

    ghost function View(): RouterState<Workspace>
      reads this, set w <- workspaces :: w.cache
    {
      RouterState(RoutedView(workspaces), revision, merged)
    }

    constructor (workspaces: seq<Workspace>)
      ensures View() == Run(RoutedView(workspaces), [])
    {
      this.workspaces, revision, merged := workspaces, 1, None;
    }

    method Replace(next: seq<Workspace>)
      modifies this
      ensures workspaces == next
      ensures View() == Apply(old(View()), Op.Replace(RoutedView(next)))
    {
      workspaces := next;
      revision := revision + 1;
    }

    /** The refresh loop of one routed workspace reads kcp. */
    method RefreshRouted(i: nat, answer: Answer) returns (ok: bool)
      requires i < |workspaces| && DistinctCaches(workspaces)
      modifies workspaces[i].cache
      ensures ok <==> Read(old(View()).routed[i].cache.owned, answer).Some?
      ensures View() == Apply(old(View()), Op.Refresh(i, answer))
    {
      ok := workspaces[i].cache.Refresh(answer);
      assert RoutedView(workspaces) == Apply(old(View()), Op.Refresh(i, answer)).routed;
    }

    method Generation() returns (total: nat)
      ensures total == Sum(RoutedView(workspaces))
    {
      total := 0;
      for i := 0 to |workspaces|
        invariant total == Sum(RoutedView(workspaces[..i]))
      {
        ghost var before, after := RoutedView(workspaces[..i]), RoutedView(workspaces[..i + 1]);
        assert Generations(after)[..i] == Generations(before);
        total := total + workspaces[i].cache.generation;
      }
      assert workspaces[..|workspaces|] == workspaces;
    }

    method HasSynced() returns (synced: bool)
      ensures synced <==> forall i | 0 <= i < |workspaces| :: workspaces[i].cache.synced
    {
      for i := 0 to |workspaces|
        invariant forall j | 0 <= j < i :: workspaces[j].cache.synced
      {
        if !workspaces[i].cache.synced {
          return false;
        }
      }
      return true;
    }

    method ConfiguredFor(group: string) returns (found: Option<Workspace>)
      ensures found.Some? ==> exists i: nat ::
                FirstConfigured(RoutedView(workspaces), group, i) && found.value == workspaces[i]
      ensures found.None? ==> forall w <- workspaces :: !w.cache.owned.Matches(group)
    {
      for i := 0 to |workspaces|
        invariant forall j | 0 <= j < i :: !workspaces[j].cache.owned.Matches(group)
      {
        if workspaces[i].cache.owned.Matches(group) {
          assert FirstConfigured(RoutedView(workspaces), group, i);
          return Some(workspaces[i]);
        }
      }
      return None;
    }

    /** The merged view, rebuilt if any workspace has moved on. */
    method Current() returns (m: MergedSnapshot<Workspace>)
      modifies this
      ensures View() == Apply(old(View()), Op.Current) && m == Answered(old(View()))
      ensures workspaces == old(workspaces)
    {
      ghost var was := View();
      var generation := Generation();
      var key := revision;
      if merged.Some? && merged.value.generation == generation && merged.value.revision == key {
        AnswerHeld(was);
        return merged.value;
      }
      m := Rebuild(generation, key);
      AnswerRebuilt(was, m);
      Store(m);
    }

    method Store(m: MergedSnapshot<Workspace>)
      modifies this
      ensures workspaces == old(workspaces) && revision == old(revision) && merged == Some(m)
      ensures RoutedView(workspaces) == old(RoutedView(workspaces))
    {
      merged := Some(m);
    }

    method ServingFor(group: string) returns (w: Option<Workspace>)
      modifies this
      ensures View() == Apply(old(View()), Op.Current) && workspaces == old(workspaces)
      ensures w == var m := Answered(old(View())); if group in m.owners then Some(m.owners[group]) else None
    {
      var m := Current();
      w := if group in m.owners then Some(m.owners[group]) else None;
    }

    /** Merges the workspaces' snapshots in their order; within one snapshot, in any order. */
    method Rebuild(generation: nat, key: nat) returns (m: MergedSnapshot<Workspace>)
      requires generation == Sum(RoutedView(workspaces)) && key == revision
      ensures m == FromScratch(RoutedView(workspaces), revision)
    {
      ghost var routed := RoutedView(workspaces);
      ghost var snapshots := Snapshots(routed);
      var groups: map<string, APIGroup> := map[];
      var resources: map<GroupVersion, seq<APIResource>> := map[];
      var owners: map<string, Workspace> := map[];
      for i := 0 to |workspaces|
        invariant Represents(workspaces, Merge(snapshots[..i]), groups, resources, owners)
      {
        var workspace := workspaces[i];
        var snapshot := workspace.cache.snapshot;
        ghost var groups0, resources0, owners0 := groups, resources, owners;
        groups, owners := TakeGroups(workspace, snapshot, groups, owners);
        resources := TakeResources(workspace, snapshot, resources, owners);
        StepRepresented(workspaces, snapshots, i, groups0, resources0, owners0, groups, resources, owners);
      }
      assert snapshots[..|workspaces|] == snapshots;
      m := MergedSnapshot(generation, key, groups, resources, owners);
      AllRepresented(routed, workspaces, groups, resources, owners);
    }
  }

  /** The maps being filled stand for a merge. */
  ghost predicate Represents(workspaces: seq<Workspace>, m: Merged, groups: map<string, APIGroup>,
                             resources: map<GroupVersion, seq<APIResource>>, owners: map<string, Workspace>) {
    && groups == m.groups && resources == m.resources && owners.Keys == m.owners.Keys == m.groups.Keys
    && forall group <- m.owners :: m.owners[group] < |workspaces| && owners[group] == workspaces[m.owners[group]]
  }

  /** What is taken from `offered` so far, over what was held before. */
  ghost predicate Overlaid<K, V>(offered: map<K, V>, held: map<K, V>, todo: set<K>, result: map<K, V>) {
    && result.Keys == held.Keys + (offered.Keys - todo)
    && forall k <- result :: result[k] == if k in held then held[k] else offered[k]
  }

  lemma OverlaidDone<K, V>(offered: map<K, V>, held: map<K, V>, result: map<K, V>)
    requires Overlaid(offered, held, {}, result)
    ensures result == offered + held
  {
  }

  method TakeGroups(workspace: Workspace, snapshot: Snapshot, groups: map<string, APIGroup>, owners: map<string, Workspace>)
    returns (groups': map<string, APIGroup>, owners': map<string, Workspace>)
    requires groups.Keys == owners.Keys
    ensures groups' == snapshot.groups + groups
    ensures owners' == (map group | group in snapshot.groups :: workspace) + owners
  {
    groups', owners' := groups, owners;
    var offered := snapshot.groups;
    ghost var offers := map group | group in offered :: workspace;
    var todo := offered.Keys;
    while todo != {}
      invariant todo <= offered.Keys
      invariant Overlaid(offered, groups, todo, groups') && Overlaid(offers, owners, todo, owners')
      decreases |todo|
    {
      var group :| group in todo;
      if group !in groups' {
        TakenOne(offered, groups, todo, groups', group);
        TakenOne(offers, owners, todo, owners', group);
        groups' := groups'[group := offered[group]];
        owners' := owners'[group := workspace];
      } else {
        Skipped(offered, groups, todo, groups', group);
        Skipped(offers, owners, todo, owners', group);
      }
      todo := todo - {group};
    }
    OverlaidDone(offered, groups, groups');
    OverlaidDone(offers, owners, owners');
  }

  lemma TakenOne<K, V>(offered: map<K, V>, held: map<K, V>, todo: set<K>, result: map<K, V>, k: K)
    requires Overlaid(offered, held, todo, result) && k in todo && k in offered && k !in result
    ensures Overlaid(offered, held, todo - {k}, result[k := offered[k]])
  {
  }

  lemma Skipped<K, V>(offered: map<K, V>, held: map<K, V>, todo: set<K>, result: map<K, V>, k: K)
    requires Overlaid(offered, held, todo, result) && k in todo && k in result
    ensures Overlaid(offered, held, todo - {k}, result)
  {
  }

  predicate Owned(workspace: Workspace, gv: GroupVersion, owners: map<string, Workspace>) {
    gv.group in owners && owners[gv.group] == workspace
  }

  function Taken(workspace: Workspace, snapshot: Snapshot, owners: map<string, Workspace>)
    : map<GroupVersion, seq<APIResource>>
  {
    map gv | gv in snapshot.resources && Owned(workspace, gv, owners) :: snapshot.resources[gv]
  }

  method TakeResources(workspace: Workspace, snapshot: Snapshot,
                       resources: map<GroupVersion, seq<APIResource>>, owners: map<string, Workspace>)
    returns (resources': map<GroupVersion, seq<APIResource>>)
    ensures resources' == resources + Taken(workspace, snapshot, owners)
  {
    resources' := resources;
    var offered := snapshot.resources;
    ghost var taken := Taken(workspace, snapshot, owners);
    var todo := offered.Keys;
    while todo != {}
      invariant todo <= offered.Keys
      invariant Over(taken, resources, todo, resources')
      decreases |todo|
    {
      var gv :| gv in todo;
      if gv.group !in owners || owners[gv.group] != workspace {
        LeftOut(taken, resources, todo, resources', gv);
        todo := todo - {gv};
        continue;
      }
      PutOver(taken, resources, todo, resources', gv);
      resources' := resources'[gv := offered[gv]];
      todo := todo - {gv};
    }
    OverDone(taken, resources, resources');
  }

  /** `taken`, but for what is still to do, over what was held before. */
  ghost predicate Over<K, V>(taken: map<K, V>, held: map<K, V>, todo: set<K>, result: map<K, V>) {
    && result.Keys == held.Keys + (taken.Keys - todo)
    && forall k <- result :: result[k] == if k in taken && k !in todo then taken[k] else held[k]
  }

  lemma LeftOut<K, V>(taken: map<K, V>, held: map<K, V>, todo: set<K>, result: map<K, V>, k: K)
    requires Over(taken, held, todo, result) && k in todo && k !in taken
    ensures Over(taken, held, todo - {k}, result)
  {
  }

  lemma PutOver<K, V>(taken: map<K, V>, held: map<K, V>, todo: set<K>, result: map<K, V>, k: K)
    requires Over(taken, held, todo, result) && k in todo && k in taken
    ensures Over(taken, held, todo - {k}, result[k := taken[k]])
  {
  }

  lemma OverDone<K, V>(taken: map<K, V>, held: map<K, V>, result: map<K, V>)
    requires Over(taken, held, {}, result)
    ensures result == held + taken
  {
  }

  lemma StepRepresented(
    workspaces: seq<Workspace>, snapshots: seq<Snapshot>, i: nat,
    groups0: map<string, APIGroup>, resources0: map<GroupVersion, seq<APIResource>>, owners0: map<string, Workspace>,
    groups: map<string, APIGroup>, resources: map<GroupVersion, seq<APIResource>>, owners: map<string, Workspace>)
    requires |snapshots| == |workspaces| && i < |workspaces|
    requires forall j, k | 0 <= j < k < |workspaces| && workspaces[j] == workspaces[k] :: snapshots[j] == snapshots[k]
    requires Represents(workspaces, Merge(snapshots[..i]), groups0, resources0, owners0)
    requires groups == snapshots[i].groups + groups0
    requires owners == (map group | group in snapshots[i].groups :: workspaces[i]) + owners0
    requires resources == resources0 + Taken(workspaces[i], snapshots[i], owners)
    ensures Represents(workspaces, Merge(snapshots[..i + 1]), groups, resources, owners)
  {
    var before := Merge(snapshots[..i]);
    assert snapshots[..i + 1] == snapshots[..i] + [snapshots[i]];
    MergeExtends(snapshots[..i], snapshots[i]);
    StepOwners(workspaces, before, i, snapshots[i], owners0, owners);
    StepResources(workspaces, snapshots, i, owners);
  }

  lemma StepOwners(workspaces: seq<Workspace>, before: Merged, i: nat, next: Snapshot,
                   owners0: map<string, Workspace>, owners: map<string, Workspace>)
    requires i < |workspaces|
    requires Represents(workspaces, before, before.groups, before.resources, owners0)
    requires owners == (map group | group in next.groups :: workspaces[i]) + owners0
    ensures var stepped := MergeStep(before, i, next);
            && owners.Keys == stepped.owners.Keys == stepped.groups.Keys
            && forall group <- stepped.owners ::
                 stepped.owners[group] < |workspaces| && owners[group] == workspaces[stepped.owners[group]]
  {
  }

  lemma StepResources(workspaces: seq<Workspace>, snapshots: seq<Snapshot>, i: nat, owners: map<string, Workspace>)
    requires |snapshots| == |workspaces| && i < |workspaces|
    requires forall j, k | 0 <= j < k < |workspaces| && workspaces[j] == workspaces[k] :: snapshots[j] == snapshots[k]
    requires var stepped := MergeStep(Merge(snapshots[..i]), i, snapshots[i]);
             && owners.Keys == stepped.owners.Keys
             && forall group <- stepped.owners ::
                  stepped.owners[group] < |workspaces| && owners[group] == workspaces[stepped.owners[group]]
    ensures Merge(snapshots[..i]).resources + Taken(workspaces[i], snapshots[i], owners)
         == MergeStep(Merge(snapshots[..i]), i, snapshots[i]).resources
  {
    var stepped := MergeStep(Merge(snapshots[..i]), i, snapshots[i]).resources;
    var resources := Merge(snapshots[..i]).resources + Taken(workspaces[i], snapshots[i], owners);
    forall gv ensures Agree(resources, stepped, gv) {
      StepTakes(workspaces, snapshots, i, owners, gv);
    }
    SameMap(resources, stepped);
  }

  lemma StepTakes(workspaces: seq<Workspace>, snapshots: seq<Snapshot>, i: nat, owners: map<string, Workspace>, gv: GroupVersion)
    requires |snapshots| == |workspaces| && i < |workspaces|
    requires forall j, k | 0 <= j < k < |workspaces| && workspaces[j] == workspaces[k] :: snapshots[j] == snapshots[k]
    requires var stepped := MergeStep(Merge(snapshots[..i]), i, snapshots[i]);
             && owners.Keys == stepped.owners.Keys
             && forall group <- stepped.owners ::
                  stepped.owners[group] < |workspaces| && owners[group] == workspaces[stepped.owners[group]]
    ensures Agree(Merge(snapshots[..i]).resources + Taken(workspaces[i], snapshots[i], owners),
                  MergeStep(Merge(snapshots[..i]), i, snapshots[i]).resources, gv)
  {
    MergeOwnership(snapshots[..i], gv.group);
  }

  lemma AllRepresented(routed: seq<Routed<Workspace>>, workspaces: seq<Workspace>, groups: map<string, APIGroup>,
                       resources: map<GroupVersion, seq<APIResource>>, owners: map<string, Workspace>)
    requires |routed| == |workspaces| && forall i | 0 <= i < |routed| :: routed[i].id == workspaces[i]
    requires Represents(workspaces, Merge(Snapshots(routed)), groups, resources, owners)
    ensures owners == Owners(routed, Merge(Snapshots(routed)))
  {
    var m := Merge(Snapshots(routed));
    var named := Owners(routed, m);
    forall group ensures Agree(owners, named, group) {
    }
    SameMap(owners, named);
  }
}
