/** The merged view of several workspaces: for each group, the first one that has it. */
module Merging {
  import opened ResourceCaches

  /** The merged snapshot, and for each group the position of the workspace it came from. */
  datatype Merged = Merged(
    groups: map<string, APIGroup>, resources: map<GroupVersion, seq<APIResource>>, owners: map<string, nat>)

  /** The first snapshot that has the group; the number of snapshots when none does. */
  function OwnerOf(snapshots: seq<Snapshot>, group: string): (owner: nat)
    ensures owner <= |snapshots|
    ensures owner < |snapshots| ==> group in snapshots[owner].groups
    ensures forall j | 0 <= j < owner :: group !in snapshots[j].groups
  {
    if snapshots == [] || group in snapshots[0].groups then 0
    else 1 + OwnerOf(snapshots[1..], group)
  }

  function AllGroups(snapshots: seq<Snapshot>): set<string> {
    set i, group | 0 <= i < |snapshots| && group in snapshots[i].groups :: group
  }

  function AllVersions(snapshots: seq<Snapshot>): set<GroupVersion> {
    set i, gv | 0 <= i < |snapshots| && gv in snapshots[i].resources :: gv
  }

  predicate Serves(snapshots: seq<Snapshot>, gv: GroupVersion) {
    var owner := OwnerOf(snapshots, gv.group);
    owner < |snapshots| && gv in snapshots[owner].resources
  }

  lemma OwnerFound(snapshots: seq<Snapshot>, group: string)
    ensures OwnerOf(snapshots, group) < |snapshots| <==> group in AllGroups(snapshots)
  {
  }

  function Merge(snapshots: seq<Snapshot>): Merged {
    assert forall group <- AllGroups(snapshots) :: OwnerOf(snapshots, group) < |snapshots| by {
      forall group | group in AllGroups(snapshots) ensures OwnerOf(snapshots, group) < |snapshots| {
        OwnerFound(snapshots, group);
      }
    }
    Merged(
      map group | group in AllGroups(snapshots) :: snapshots[OwnerOf(snapshots, group)].groups[group],
      map gv | gv in AllVersions(snapshots) && Serves(snapshots, gv) ::
        snapshots[OwnerOf(snapshots, gv.group)].resources[gv],
      map group | group in AllGroups(snapshots) :: OwnerOf(snapshots, group))
  }

  /** Each group comes whole from one workspace: the first that has it. Nobody else's entry or
      resources for it are in the result, and a group nobody has contributes none. */
  lemma MergeOwnership(snapshots: seq<Snapshot>, group: string)
    ensures var m := Merge(snapshots);
            && (group in m.groups <==> exists i | 0 <= i < |snapshots| :: group in snapshots[i].groups)
            && (group in m.groups <==> group in m.owners)
    ensures group in Merge(snapshots).owners ==>
              var m := Merge(snapshots);
              var owner := m.owners[group];
              && owner < |snapshots| && group in snapshots[owner].groups
              && (forall j | 0 <= j < owner :: group !in snapshots[j].groups)
              && m.groups[group] == snapshots[owner].groups[group]
              && (forall gv: GroupVersion | gv.group == group ::
                    && (gv in m.resources <==> gv in snapshots[owner].resources)
                    && (gv in m.resources ==> m.resources[gv] == snapshots[owner].resources[gv]))
    ensures group !in Merge(snapshots).owners ==>
              forall gv: GroupVersion | gv.group == group :: gv !in Merge(snapshots).resources
  {
    OwnerFound(snapshots, group);
    if group in AllGroups(snapshots) {
      var owner := OwnerOf(snapshots, group);
      assert forall gv <- snapshots[owner].resources :: gv in AllVersions(snapshots);
    }
  }

  // -------- adding one workspace at a time --------

  lemma {:induction false} OwnerPrefix(snapshots: seq<Snapshot>, last: Snapshot, group: string)
    ensures OwnerOf(snapshots + [last], group) ==
              if OwnerOf(snapshots, group) < |snapshots| then OwnerOf(snapshots, group)
              else if group in last.groups then |snapshots| else |snapshots| + 1
  {
    var all := snapshots + [last];
    var before, after := OwnerOf(snapshots, group), OwnerOf(all, group);
    assert forall j | 0 <= j < |snapshots| :: all[j] == snapshots[j];
    assert all[|snapshots|] == last;
  }

  /** What one more workspace adds: groups not yet taken, and the resources of the groups it owns. */
  function MergeStep(m: Merged, position: nat, next: Snapshot): Merged {
    var owners := (map group | group in next.groups :: position) + m.owners;
    Merged(
      next.groups + m.groups,
      m.resources + map gv | gv in next.resources && gv.group in owners && owners[gv.group] == position ::
                      next.resources[gv],
      owners)
  }

  ghost predicate Agree<K, V>(a: map<K, V>, b: map<K, V>, k: K) {
    (k in a <==> k in b) && (k in a ==> a[k] == b[k])
  }

  lemma SameMap<K(!new), V>(a: map<K, V>, b: map<K, V>)
    requires forall k :: Agree(a, b, k)
    ensures a == b
  {
    forall k ensures k in a <==> k in b { assert Agree(a, b, k); }
    forall k | k in a ensures a[k] == b[k] { assert Agree(a, b, k); }
  }

  lemma MergeExtendsGroup(snapshots: seq<Snapshot>, next: Snapshot, group: string)
    ensures var m, stepped := Merge(snapshots + [next]), MergeStep(Merge(snapshots), |snapshots|, next);
            && (group in m.owners <==> group in stepped.owners)
            && (group in m.groups <==> group in stepped.groups)
            && (group in m.owners ==> m.owners[group] == stepped.owners[group])
            && (group in m.groups ==> m.groups[group] == stepped.groups[group])
  {
    OwnerPrefix(snapshots, next, group);
    OwnerFound(snapshots, group);
    OwnerFound(snapshots + [next], group);
    var all, owner := snapshots + [next], OwnerOf(snapshots, group);
    assert owner < |snapshots| ==> all[owner] == snapshots[owner];
    assert all[|snapshots|] == next;
  }

  lemma MergeExtendsVersion(snapshots: seq<Snapshot>, next: Snapshot, gv: GroupVersion)
    ensures Agree(Merge(snapshots + [next]).resources, MergeStep(Merge(snapshots), |snapshots|, next).resources, gv)
  {
    var all := snapshots + [next];
    OwnerPrefix(snapshots, next, gv.group);
    VersionFromOwner(all, gv);
    VersionFromOwner(snapshots, gv);
    OwnerFound(snapshots, gv.group);
    var owner := OwnerOf(snapshots, gv.group);
    assert owner < |snapshots| ==> all[owner] == snapshots[owner];
    assert all[|snapshots|] == next;
  }

  lemma VersionFromOwner(snapshots: seq<Snapshot>, gv: GroupVersion)
    ensures var owner, m := OwnerOf(snapshots, gv.group), Merge(snapshots);
            && (gv in m.resources <==> owner < |snapshots| && gv in snapshots[owner].resources)
            && (gv in m.resources ==> m.resources[gv] == snapshots[owner].resources[gv])
            && (gv.group in m.owners <==> owner < |snapshots|)
            && (gv.group in m.owners ==> m.owners[gv.group] == owner)
  {
    OwnerFound(snapshots, gv.group);
    MergeOwnership(snapshots, gv.group);
  }

  lemma OwnersExtend(snapshots: seq<Snapshot>, next: Snapshot)
    ensures Merge(snapshots + [next]).owners == MergeStep(Merge(snapshots), |snapshots|, next).owners
  {
    var merged, stepped := Merge(snapshots + [next]).owners, MergeStep(Merge(snapshots), |snapshots|, next).owners;
    forall group ensures Agree(merged, stepped, group) {
      MergeExtendsGroup(snapshots, next, group);
    }
    SameMap(merged, stepped);
  }

  lemma GroupsExtend(snapshots: seq<Snapshot>, next: Snapshot)
    ensures Merge(snapshots + [next]).groups == MergeStep(Merge(snapshots), |snapshots|, next).groups
  {
    var merged, stepped := Merge(snapshots + [next]).groups, MergeStep(Merge(snapshots), |snapshots|, next).groups;
    forall group ensures Agree(merged, stepped, group) {
      MergeExtendsGroup(snapshots, next, group);
    }
    SameMap(merged, stepped);
  }

  lemma ResourcesExtend(snapshots: seq<Snapshot>, next: Snapshot)
    ensures Merge(snapshots + [next]).resources == MergeStep(Merge(snapshots), |snapshots|, next).resources
  {
    var merged, stepped := Merge(snapshots + [next]).resources, MergeStep(Merge(snapshots), |snapshots|, next).resources;
    forall gv ensures Agree(merged, stepped, gv) {
      MergeExtendsVersion(snapshots, next, gv);
    }
    SameMap(merged, stepped);
  }

  lemma MergeExtends(snapshots: seq<Snapshot>, next: Snapshot)
    ensures Merge(snapshots + [next]) == MergeStep(Merge(snapshots), |snapshots|, next)
  {
    OwnersExtend(snapshots, next);
    GroupsExtend(snapshots, next);
    ResourcesExtend(snapshots, next);
  }
}
