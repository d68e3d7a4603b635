/** What one workspace serves, as last read from kcp (`pkg/kcp/discovery.go`). */
module ResourceCaches {
  import opened Wrappers
  import opened Text
  import opened Groups

  datatype GroupVersion = GroupVersion(group: string, version: string)

  datatype APIResource = APIResource(
    name: string, namespaced: bool, group: string, version: string, kind: string,
    singularName: string, verbs: seq<string>, shortNames: seq<string>, categories: seq<string>)

  /** A group as kcp reported it, its versions written "group/version". */
  datatype APIGroup = APIGroup(name: string, versions: seq<string>)

  datatype Snapshot = Snapshot(groups: map<string, APIGroup>, resources: map<GroupVersion, seq<APIResource>>)

  const EMPTY_SNAPSHOT := Snapshot(map[], map[])

  /** The answers kcp gives during one refresh: to the group list, and to each version's resource
      list. A missing answer is a failed request. */
  datatype VersionAnswer = VersionAnswer(groupVersion: string, resources: Option<seq<APIResource>>)
  datatype GroupAnswer = GroupAnswer(name: string, versions: seq<VersionAnswer>)
  type Answer = Option<seq<GroupAnswer>>

  function ParseGroupVersion(s: string): Option<GroupVersion> {
    if s == "" || s == "/" then Some(GroupVersion("", ""))
    else
      var parts := Split(s, '/');
      if |parts| == 1 then Some(GroupVersion("", s))
      else if |parts| == 2 then Some(GroupVersion(parts[0], parts[1]))
      else None
  }

  function Reported(group: GroupAnswer): APIGroup {
    APIGroup(group.name, seq(|group.versions|, i requires 0 <= i < |group.versions| => group.versions[i].groupVersion))
  }

  function ReadVersions(next: Snapshot, versions: seq<VersionAnswer>): Option<Snapshot>
    decreases |versions|
  {
    if versions == [] then Some(next)
    else
      var gv := ParseGroupVersion(versions[0].groupVersion);
      if gv.None? || versions[0].resources.None? then None
      else ReadVersions(next.(resources := next.resources[gv.value := versions[0].resources.value]), versions[1..])
  }

  function ReadGroups(next: Snapshot, owned: Matcher, groups: seq<GroupAnswer>): Option<Snapshot>
    decreases |groups|
  {
    if groups == [] then Some(next)
    else if !owned.Matches(groups[0].name) then ReadGroups(next, owned, groups[1..])
    else
      match ReadVersions(next.(groups := next.groups[groups[0].name := Reported(groups[0])]), groups[0].versions)
      case None => None
      case Some(read) => ReadGroups(read, owned, groups[1..])
  }

  /** All of what a refresh reads, or nothing if any request fails. */
  function Read(owned: Matcher, answer: Answer): Option<Snapshot> {
    match answer
    case None => None
    case Some(groups) => ReadGroups(EMPTY_SNAPSHOT, owned, groups)
  }

  datatype CacheState = CacheState(owned: Matcher, snapshot: Snapshot, synced: bool, generation: nat) {
    /** Only groups the matcher covers are held, under their own names. */
    ghost predicate Valid() {
      && (forall group <- snapshot.groups :: owned.Matches(group) && snapshot.groups[group].name == group)
      && (synced <==> generation > 0)
    }

    function Refreshed(answer: Answer): CacheState {
      match Read(owned, answer)
      case None => this
      case Some(next) => this.(snapshot := next, synced := true, generation := generation + 1)
    }
  }

  function NewCache(owned: Matcher): CacheState {
    CacheState(owned, EMPTY_SNAPSHOT, false, 0)
  }

  lemma {:induction false} ReadVersionsKeepGroups(next: Snapshot, versions: seq<VersionAnswer>)
    requires ReadVersions(next, versions).Some?
    ensures ReadVersions(next, versions).value.groups == next.groups
    decreases |versions|
  {
    if versions != [] {
      var gv := ParseGroupVersion(versions[0].groupVersion).value;
      ReadVersionsKeepGroups(next.(resources := next.resources[gv := versions[0].resources.value]), versions[1..]);
    }
  }

  lemma {:induction false} ReadGroupsHolds(next: Snapshot, owned: Matcher, groups: seq<GroupAnswer>)
    requires ReadGroups(next, owned, groups).Some?
    ensures var read := ReadGroups(next, owned, groups).value;
            forall group <- read.groups ::
              || (group in next.groups && read.groups[group] == next.groups[group])
              || (owned.Matches(group) && read.groups[group].name == group)
    ensures forall i | 0 <= i < |groups| && owned.Matches(groups[i].name) ::
              groups[i].name in ReadGroups(next, owned, groups).value.groups
    ensures next.groups.Keys <= ReadGroups(next, owned, groups).value.groups.Keys
    decreases |groups|
  {
    if groups != [] {
      if owned.Matches(groups[0].name) {
        var begun := next.(groups := next.groups[groups[0].name := Reported(groups[0])]);
        ReadVersionsKeepGroups(begun, groups[0].versions);
        ReadGroupsHolds(ReadVersions(begun, groups[0].versions).value, owned, groups[1..]);
      } else {
        ReadGroupsHolds(next, owned, groups[1..]);
      }
      forall i | 0 <= i < |groups| && owned.Matches(groups[i].name)
        ensures groups[i].name in ReadGroups(next, owned, groups).value.groups
      {
        if i > 0 { assert groups[1..][i - 1] == groups[i]; }
      }
    }
  }

  /** A refresh holds exactly the groups kcp listed that the matcher covers. */
  lemma ReadCovers(owned: Matcher, groups: seq<GroupAnswer>, group: string)
    requires Read(owned, Some(groups)).Some?
    ensures group in Read(owned, Some(groups)).value.groups <==>
              owned.Matches(group) && exists i | 0 <= i < |groups| :: groups[i].name == group
  {
    ReadGroupsHolds(EMPTY_SNAPSHOT, owned, groups);
    if group in Read(owned, Some(groups)).value.groups {
      ReadGroupsListed(EMPTY_SNAPSHOT, owned, groups, group);
    }
  }

  lemma {:induction false} ReadGroupsListed(next: Snapshot, owned: Matcher, groups: seq<GroupAnswer>, group: string)
    requires ReadGroups(next, owned, groups).Some?
    requires group in ReadGroups(next, owned, groups).value.groups && group !in next.groups
    ensures exists i | 0 <= i < |groups| :: groups[i].name == group
    decreases |groups|
  {
    if groups != [] && groups[0].name != group {
      if owned.Matches(groups[0].name) {
        var begun := next.(groups := next.groups[groups[0].name := Reported(groups[0])]);
        ReadVersionsKeepGroups(begun, groups[0].versions);
        ReadGroupsListed(ReadVersions(begun, groups[0].versions).value, owned, groups[1..], group);
      } else {
        ReadGroupsListed(next, owned, groups[1..], group);
      }
      var i :| 0 <= i < |groups[1..]| && groups[1..][i].name == group;
      assert groups[i + 1].name == group;
    }
  }

  lemma NewCacheValid(owned: Matcher)
    ensures NewCache(owned).Valid()
  {
  }

  lemma RefreshKeepsValid(c: CacheState, answer: Answer)
    requires c.Valid()
    ensures c.Refreshed(answer).Valid()
  {
    if Read(c.owned, answer).Some? {
      ReadGroupsHolds(EMPTY_SNAPSHOT, c.owned, answer.value);
    }
  }

  // -------- which resources a refresh holds --------

  ghost predicate Names(version: VersionAnswer, gv: GroupVersion) {
    ParseGroupVersion(version.groupVersion) == Some(gv)
  }

  /** kcp listed the version under a group the matcher covers. */
  ghost predicate ListsVersion(owned: Matcher, groups: seq<GroupAnswer>, gv: GroupVersion) {
    exists group <- groups :: owned.Matches(group.name) && exists version <- group.versions :: Names(version, gv)
  }

  lemma {:induction false} ReadVersionsHolds(next: Snapshot, versions: seq<VersionAnswer>, gv: GroupVersion)
    requires ReadVersions(next, versions).Some?
    ensures gv in ReadVersions(next, versions).value.resources <==>
              gv in next.resources || exists version <- versions :: Names(version, gv)
    decreases |versions|
  {
    if versions != [] {
      var first := ParseGroupVersion(versions[0].groupVersion).value;
      ReadVersionsHolds(next.(resources := next.resources[first := versions[0].resources.value]), versions[1..], gv);
      assert Names(versions[0], first);
      assert forall version :: version in versions <==> version == versions[0] || version in versions[1..];
    }
  }

  lemma {:induction false} ReadGroupsResources(next: Snapshot, owned: Matcher, groups: seq<GroupAnswer>, gv: GroupVersion)
    requires ReadGroups(next, owned, groups).Some?
    ensures gv in ReadGroups(next, owned, groups).value.resources <==>
              gv in next.resources || ListsVersion(owned, groups, gv)
    decreases |groups|
  {
    if groups != [] {
      assert forall group :: group in groups <==> group == groups[0] || group in groups[1..];
      if owned.Matches(groups[0].name) {
        var begun := next.(groups := next.groups[groups[0].name := Reported(groups[0])]);
        ReadVersionsHolds(begun, groups[0].versions, gv);
        ReadGroupsResources(ReadVersions(begun, groups[0].versions).value, owned, groups[1..], gv);
      } else {
        ReadGroupsResources(next, owned, groups[1..], gv);
      }
    }
  }

  /** Every resource list held is of a group held exactly when the covered groups list no version of any other:
      the version is taken at its word, whatever group it is listed under. */
  lemma ResourcesOfHeldGroups(owned: Matcher, groups: seq<GroupAnswer>)
    requires Read(owned, Some(groups)).Some?
    ensures var read := Read(owned, Some(groups)).value;
            && (forall gv :: gv in read.resources <==> ListsVersion(owned, groups, gv))
            && ((forall gv <- read.resources :: gv.group in read.groups) <==>
                forall gv | ListsVersion(owned, groups, gv) ::
                  owned.Matches(gv.group) && exists i | 0 <= i < |groups| :: groups[i].name == gv.group)
  {
    forall gv ensures gv in Read(owned, Some(groups)).value.resources <==> ListsVersion(owned, groups, gv) {
      ReadGroupsResources(EMPTY_SNAPSHOT, owned, groups, gv);
    }
    forall gv: GroupVersion
      ensures gv.group in Read(owned, Some(groups)).value.groups <==>
                owned.Matches(gv.group) && exists i | 0 <= i < |groups| :: groups[i].name == gv.group
    {
      ReadCovers(owned, groups, gv.group);
    }
  }

  /** So it is when each listed version belongs to the group it is listed under. */
  lemma OwnVersionsAreHeld(owned: Matcher, groups: seq<GroupAnswer>)
    requires Read(owned, Some(groups)).Some?
    requires forall group <- groups, version <- group.versions, gv | Names(version, gv) :: gv.group == group.name
    ensures forall gv <- Read(owned, Some(groups)).value.resources :: gv.group in Read(owned, Some(groups)).value.groups
  {
    ResourcesOfHeldGroups(owned, groups);
    forall gv | ListsVersion(owned, groups, gv)
      ensures owned.Matches(gv.group) && exists i | 0 <= i < |groups| :: groups[i].name == gv.group
    {
      var group :| group in groups && owned.Matches(group.name) && exists version <- group.versions :: Names(version, gv);
      var i :| 0 <= i < |groups| && groups[i] == group;
    }
  }

  /** And it need not: a version of another group leaves resources of a group that is not held. */
  lemma StrayVersion(owned: Matcher, group: string, other: string, version: string, resources: seq<APIResource>)
    requires owned.Matches(group) && other != group && other != "" && '/' !in other && '/' !in version
    ensures var answer := Some([GroupAnswer(group, [VersionAnswer(other + "/" + version, Some(resources))])]);
            && Read(owned, answer).Some?
            && GroupVersion(other, version) in Read(owned, answer).value.resources
            && other !in Read(owned, answer).value.groups
  {
    var text := other + "/" + version;
    SplitConcat(other, version, '/');
    SplitFree(other, '/');
    SplitFree(version, '/');
    assert text == other + ['/'] + version && Split(text, '/') == [other, version];
    assert text[0] == other[0];
    var gv := GroupVersion(other, version);
    assert ParseGroupVersion(text) == Some(gv);
    var versions, groups := [VersionAnswer(text, Some(resources))], [GroupAnswer(group, [VersionAnswer(text, Some(resources))])];
    assert versions[1..] == [] && groups[1..] == [];
    var begun := EMPTY_SNAPSHOT.(groups := EMPTY_SNAPSHOT.groups[group := Reported(groups[0])]);
    var read := begun.(resources := begun.resources[gv := resources]);
    assert ReadVersions(read, versions[1..]) == Some(read);
    assert ReadVersions(begun, versions) == Some(read);
    assert ReadGroups(read, owned, groups[1..]) == Some(read);
    assert ReadGroups(EMPTY_SNAPSHOT, owned, groups) == Some(read);
  }

  // -------- all or nothing, from kcp's answers alone --------

  /** kcp answered everything a refresh asks: each version listed under a covered group can be read, and has its resources. */
  predicate AllAnswered(owned: Matcher, groups: seq<GroupAnswer>) {
    forall group <- groups | owned.Matches(group.name) ::
      forall version <- group.versions :: ParseGroupVersion(version.groupVersion).Some? && version.resources.Some?
  }

  lemma {:induction false} ReadVersionsSucceeds(next: Snapshot, versions: seq<VersionAnswer>)
    ensures ReadVersions(next, versions).Some? <==>
              forall version <- versions :: ParseGroupVersion(version.groupVersion).Some? && version.resources.Some?
    decreases |versions|
  {
    if versions != [] {
      var gv := ParseGroupVersion(versions[0].groupVersion);
      if gv.Some? && versions[0].resources.Some? {
        ReadVersionsSucceeds(next.(resources := next.resources[gv.value := versions[0].resources.value]), versions[1..]);
      }
      assert forall version :: version in versions <==> version == versions[0] || version in versions[1..];
    }
  }

  lemma {:induction false} ReadGroupsSucceeds(next: Snapshot, owned: Matcher, groups: seq<GroupAnswer>)
    ensures ReadGroups(next, owned, groups).Some? <==> AllAnswered(owned, groups)
    decreases |groups|
  {
    if groups != [] {
      assert forall group :: group in groups <==> group == groups[0] || group in groups[1..];
      if owned.Matches(groups[0].name) {
        var begun := next.(groups := next.groups[groups[0].name := Reported(groups[0])]);
        ReadVersionsSucceeds(begun, groups[0].versions);
        if ReadVersions(begun, groups[0].versions).Some? {
          ReadGroupsSucceeds(ReadVersions(begun, groups[0].versions).value, owned, groups[1..]);
        }
      } else {
        ReadGroupsSucceeds(next, owned, groups[1..]);
      }
    }
  }

  /** The versions of the covered groups, in the order kcp lists them. */
  function Covered(owned: Matcher, groups: seq<GroupAnswer>): seq<VersionAnswer>
    decreases |groups|
  {
    if groups == [] then []
    else if owned.Matches(groups[0].name) then groups[0].versions + Covered(owned, groups[1..])
    else Covered(owned, groups[1..])
  }

  /** The list is the one answered for the last version that names `gv`. */
  ghost predicate LastNamed(versions: seq<VersionAnswer>, gv: GroupVersion, list: seq<APIResource>) {
    exists k | 0 <= k < |versions| ::
      && Names(versions[k], gv) && versions[k].resources == Some(list)
      && forall m | k < m < |versions| :: !Names(versions[m], gv)
  }

  ghost predicate Unnamed(versions: seq<VersionAnswer>, gv: GroupVersion) {
    forall k | 0 <= k < |versions| :: !Names(versions[k], gv)
  }

  /** What `next` held is held on, but for versions named since, which have the last list answered. */
  ghost predicate Overwritten(next: Snapshot, versions: seq<VersionAnswer>, read: Snapshot, gv: GroupVersion) {
    if Unnamed(versions, gv)
    then (gv in read.resources <==> gv in next.resources) && (gv in read.resources ==> read.resources[gv] == next.resources[gv])
    else gv in read.resources && LastNamed(versions, gv, read.resources[gv])
  }

  lemma LastOfTwo(a: seq<VersionAnswer>, b: seq<VersionAnswer>, gv: GroupVersion)
    ensures Unnamed(a + b, gv) <==> Unnamed(a, gv) && Unnamed(b, gv)
    ensures forall list | LastNamed(b, gv, list) :: LastNamed(a + b, gv, list)
    ensures forall list | LastNamed(a, gv, list) && Unnamed(b, gv) :: LastNamed(a + b, gv, list)
  {
    var all := a + b;
    assert forall k | 0 <= k < |a| :: all[k] == a[k];
    assert forall k | 0 <= k < |b| :: all[|a| + k] == b[k];
    forall list | LastNamed(b, gv, list) ensures LastNamed(all, gv, list) {
      var k :| 0 <= k < |b| && Names(b[k], gv) && b[k].resources == Some(list) && forall m | k < m < |b| :: !Names(b[m], gv);
      forall m | |a| + k < m < |all| ensures !Names(all[m], gv) {
        assert all[m] == b[m - |a|];
      }
      assert Names(all[|a| + k], gv);
    }
    forall list | LastNamed(a, gv, list) && Unnamed(b, gv) ensures LastNamed(all, gv, list) {
      var k :| 0 <= k < |a| && Names(a[k], gv) && a[k].resources == Some(list) && forall m | k < m < |a| :: !Names(a[m], gv);
      forall m | k < m < |all| ensures !Names(all[m], gv) {
        assert all[m] == if m < |a| then a[m] else b[m - |a|];
      }
      assert Names(all[k], gv);
    }
  }

  lemma OverwrittenTwice(s: Snapshot, a: seq<VersionAnswer>, t: Snapshot, b: seq<VersionAnswer>, u: Snapshot, gv: GroupVersion)
    requires Overwritten(s, a, t, gv) && Overwritten(t, b, u, gv)
    ensures Overwritten(s, a + b, u, gv)
  {
    LastOfTwo(a, b, gv);
  }

  lemma OneOverwritten(next: Snapshot, version: VersionAnswer, gv: GroupVersion)
    requires ParseGroupVersion(version.groupVersion).Some? && version.resources.Some?
    ensures var named := ParseGroupVersion(version.groupVersion).value;
            Overwritten(next, [version], next.(resources := next.resources[named := version.resources.value]), gv)
  {
    assert [version][0] == version;
  }

  lemma {:induction false} ReadVersionsOverwrites(next: Snapshot, versions: seq<VersionAnswer>, gv: GroupVersion)
    requires ReadVersions(next, versions).Some?
    ensures Overwritten(next, versions, ReadVersions(next, versions).value, gv)
    decreases |versions|
  {
    if versions != [] {
      var named := ParseGroupVersion(versions[0].groupVersion).value;
      var mid := next.(resources := next.resources[named := versions[0].resources.value]);
      ReadVersionsOverwrites(mid, versions[1..], gv);
      OneOverwritten(next, versions[0], gv);
      OverwrittenTwice(next, [versions[0]], mid, versions[1..], ReadVersions(next, versions).value, gv);
      assert [versions[0]] + versions[1..] == versions;
    }
  }

  lemma {:induction false} ReadGroupsOverwrites(next: Snapshot, owned: Matcher, groups: seq<GroupAnswer>, gv: GroupVersion)
    requires ReadGroups(next, owned, groups).Some?
    ensures Overwritten(next, Covered(owned, groups), ReadGroups(next, owned, groups).value, gv)
    decreases |groups|
  {
    if groups != [] {
      if owned.Matches(groups[0].name) {
        var begun := next.(groups := next.groups[groups[0].name := Reported(groups[0])]);
        var mid := ReadVersions(begun, groups[0].versions).value;
        ReadVersionsOverwrites(begun, groups[0].versions, gv);
        ReadGroupsOverwrites(mid, owned, groups[1..], gv);
        OverwrittenTwice(next, groups[0].versions, mid, Covered(owned, groups[1..]), ReadGroups(next, owned, groups).value, gv);
      } else {
        ReadGroupsOverwrites(next, owned, groups[1..], gv);
      }
    }
  }

  predicate ReportedAt(groups: seq<GroupAnswer>, group: APIGroup, i: nat) {
    && i < |groups|
    && groups[i].name == group.name && (forall m | i < m < |groups| :: groups[m].name != group.name)
    && |group.versions| == |groups[i].versions|
    && forall j | 0 <= j < |group.versions| :: group.versions[j] == groups[i].versions[j].groupVersion
  }

  /** The group's entry is what kcp reported, the last time it listed it: its name, and its versions as written. */
  ghost predicate LastReported(groups: seq<GroupAnswer>, group: APIGroup) {
    exists i: nat :: ReportedAt(groups, group, i)
  }

  lemma LaterReported(groups: seq<GroupAnswer>, group: APIGroup)
    requires groups != [] && LastReported(groups[1..], group)
    ensures LastReported(groups, group)
  {
    var i: nat :| ReportedAt(groups[1..], group, i);
    forall m | i + 1 < m < |groups| ensures groups[m].name != group.name {
      assert groups[m] == groups[1..][m - 1];
    }
    assert ReportedAt(groups, group, i + 1);
  }

  lemma {:induction false} ReadGroupsReports(next: Snapshot, owned: Matcher, groups: seq<GroupAnswer>, name: string)
    requires ReadGroups(next, owned, groups).Some? && owned.Matches(name)
    ensures var read := ReadGroups(next, owned, groups).value;
            if exists group <- groups :: group.name == name
            then name in read.groups && read.groups[name].name == name && LastReported(groups, read.groups[name])
            else
              && (name in read.groups <==> name in next.groups)
              && (name in read.groups ==> read.groups[name] == next.groups[name])
    decreases |groups|
  {
    if groups != [] {
      var rest := groups[1..];
      assert forall group :: group in groups <==> group == groups[0] || group in rest;
      var mid := next;
      if owned.Matches(groups[0].name) {
        var begun := next.(groups := next.groups[groups[0].name := Reported(groups[0])]);
        ReadVersionsKeepGroups(begun, groups[0].versions);
        mid := ReadVersions(begun, groups[0].versions).value;
      }
      ReadGroupsReports(mid, owned, rest, name);
      if group :| group in rest && group.name == name {
        LaterReported(groups, ReadGroups(next, owned, groups).value.groups[name]);
      } else if groups[0].name == name {
        forall m | 0 < m < |groups| ensures groups[m].name != name {
          assert groups[m] == rest[m - 1] && rest[m - 1] in rest;
        }
        assert ReportedAt(groups, Reported(groups[0]), 0);
      }
    }
  }

  /** The snapshot is what kcp answered of what the matcher covers, and nothing else: the groups listed, as reported, and for
      every version listed under them the resources answered last. */
  ghost predicate ReadOf(owned: Matcher, groups: seq<GroupAnswer>, read: Snapshot) {
    && (forall name :: name in read.groups <==> owned.Matches(name) && exists group <- groups :: group.name == name)
    && (forall name <- read.groups :: read.groups[name].name == name && LastReported(groups, read.groups[name]))
    && (forall gv :: gv in read.resources <==> !Unnamed(Covered(owned, groups), gv))
    && (forall gv <- read.resources :: LastNamed(Covered(owned, groups), gv, read.resources[gv]))
  }

  lemma ReadGroupExactly(owned: Matcher, groups: seq<GroupAnswer>, name: string)
    requires Read(owned, Some(groups)).Some?
    ensures var read := Read(owned, Some(groups)).value;
            && (name in read.groups <==> owned.Matches(name) && exists group <- groups :: group.name == name)
            && (name in read.groups ==> read.groups[name].name == name && LastReported(groups, read.groups[name]))
  {
    ReadCovers(owned, groups, name);
    if owned.Matches(name) {
      ReadGroupsReports(EMPTY_SNAPSHOT, owned, groups, name);
    }
  }

  /** All or nothing. A refresh succeeds exactly if kcp answers everything it asks, and then has read just that. */
  lemma ReadExactly(owned: Matcher, answer: Answer)
    ensures Read(owned, answer).Some? <==> answer.Some? && AllAnswered(owned, answer.value)
    ensures Read(owned, answer).Some? ==> ReadOf(owned, answer.value, Read(owned, answer).value)
  {
    if answer.Some? {
      ReadGroupsSucceeds(EMPTY_SNAPSHOT, owned, answer.value);
      if Read(owned, answer).Some? {
        ReadIsRead(owned, answer.value);
      }
    }
  }

  lemma ReadIsRead(owned: Matcher, groups: seq<GroupAnswer>)
    requires Read(owned, Some(groups)).Some?
    ensures ReadOf(owned, groups, Read(owned, Some(groups)).value)
  {
    var read := Read(owned, Some(groups)).value;
    forall name
      ensures name in read.groups <==> owned.Matches(name) && exists group <- groups :: group.name == name
      ensures name in read.groups ==> read.groups[name].name == name && LastReported(groups, read.groups[name])
    {
      ReadGroupExactly(owned, groups, name);
    }
    forall gv
      ensures gv in read.resources <==> !Unnamed(Covered(owned, groups), gv)
      ensures gv in read.resources ==> LastNamed(Covered(owned, groups), gv, read.resources[gv])
    {
      ReadVersionExactly(owned, groups, gv);
    }
  }

  lemma ReadVersionExactly(owned: Matcher, groups: seq<GroupAnswer>, gv: GroupVersion)
    requires Read(owned, Some(groups)).Some?
    ensures var read := Read(owned, Some(groups)).value;
            && (gv in read.resources <==> !Unnamed(Covered(owned, groups), gv))
            && (gv in read.resources ==> LastNamed(Covered(owned, groups), gv, read.resources[gv]))
  {
    ReadGroupsOverwrites(EMPTY_SNAPSHOT, owned, groups, gv);
  }

  /** How kcp's versions are read: "" and "/" as no group and no version, a text without a slash as a version of no group, one
      with a single slash as what stands on its two sides, and no other text at all. */
  lemma ParseExactly(text: string, gv: GroupVersion)
    ensures ParseGroupVersion(text) == Some(gv) <==>
              || (text in {"", "/"} && gv == GroupVersion("", ""))
              || (text != "" && '/' !in text && gv == GroupVersion("", text))
              || (text != "/" && '/' !in gv.group && '/' !in gv.version && text == gv.group + "/" + gv.version)
  {
    var parts := Split(text, '/');
    JoinSplit(text, '/');
    if |parts| == 2 {
      assert parts[1..] == [parts[1]];
      assert text == parts[0] + ['/'] + parts[1];
      assert parts[0] + "/" + parts[1] == text;
    }
    if '/' !in text {
      SplitFree(text, '/');
    }
    if '/' !in gv.group && '/' !in gv.version && text == gv.group + "/" + gv.version {
      SplitConcat(gv.group, gv.version, '/');
      SplitFree(gv.group, '/');
      SplitFree(gv.version, '/');
      assert text == gv.group + ['/'] + gv.version;
      assert parts == [gv.group, gv.version];
    }
  }

  // -------- sums of generations --------

  function Total(counted: seq<nat>): nat {
    if counted == [] then 0 else Total(counted[..|counted| - 1]) + counted[|counted| - 1]
  }

  /** Counters that only rise and have the same sum are the same counters. */
  lemma {:induction false} EqualTotals(a: seq<nat>, b: seq<nat>)
    requires |a| == |b| && forall k | 0 <= k < |a| :: a[k] <= b[k]
    ensures Total(a) <= Total(b)
    ensures Total(a) == Total(b) ==> a == b
    decreases |a|
  {
    if a != [] {
      var last := |a| - 1;
      EqualTotals(a[..last], b[..last]);
      if Total(a) == Total(b) {
        assert a == a[..last] + [a[last]] && b == b[..last] + [b[last]];
      }
    }
  }

  class ResourceCache {
    const owned: Matcher
    var snapshot: Snapshot
    var synced: bool
    var generation: nat

    function View(): CacheState
      reads this
    {
      CacheState(owned, snapshot, synced, generation)
    }

    constructor (owned: Matcher)
      ensures this.owned == owned && View() == NewCache(owned)
    {
      this.owned := owned;
      snapshot, synced, generation := EMPTY_SNAPSHOT, false, 0;
    }

    /** Replaces the snapshot, or leaves everything alone if any request failed. */
    method Refresh(answer: Answer) returns (ok: bool)
      modifies this
      ensures ok <==> answer.Some? && AllAnswered(owned, answer.value)
      ensures !ok ==> snapshot == old(snapshot) && synced == old(synced) && generation == old(generation)
      ensures ok ==> ReadOf(owned, answer.value, snapshot) && synced && generation == old(generation) + 1
      ensures View() == old(View()).Refreshed(answer) && (ok <==> Read(owned, answer).Some?)
    {
      ReadExactly(owned, answer);
      if answer.None? {
        return false;
      }
      var groups := answer.value;
      var next := EMPTY_SNAPSHOT;
      for i := 0 to |groups|
        invariant ReadGroups(EMPTY_SNAPSHOT, owned, groups) == ReadGroups(next, owned, groups[i..])
        invariant View() == old(View())
      {
        var group := groups[i];
        assert groups[i..][1..] == groups[i + 1..];
        if !owned.Matches(group.name) {
          continue;
        }
        next := next.(groups := next.groups[group.name := Reported(group)]);
        ghost var begun := next;
        for j := 0 to |group.versions|
          invariant ReadVersions(begun, group.versions) == ReadVersions(next, group.versions[j..])
          invariant View() == old(View())
        {
          assert group.versions[j..][1..] == group.versions[j + 1..];
          var gv := ParseGroupVersion(group.versions[j].groupVersion);
          if gv.None? {
            return false;
          }
          if group.versions[j].resources.None? {
            return false;
          }
          next := next.(resources := next.resources[gv.value := group.versions[j].resources.value]);
        }
      }
      snapshot := next;
      synced := true;
      generation := generation + 1;
      return true;
    }
  }
}
