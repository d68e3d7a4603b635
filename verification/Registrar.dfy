/** Keeping the cluster's APIServices matching what the workspaces serve, without ever standing in
    front of what the cluster serves itself (`pkg/apiserver/apiservices.go`,
    `pkg/apiserver/clusterapis.go`). */
module Registrar {
  import opened Wrappers
  import opened Text
  import opened ResourceCaches

  const MANAGED_BY := "app.kubernetes.io/managed-by"
  const SPILLWAY := "spillway"

  datatype ServiceReference = ServiceReference(name: string, namespace: string, port: int)

  datatype Spec = Spec(
    group: string, version: string, service: Option<ServiceReference>, caBundle: string,
    insecureSkipTLSVerify: bool, groupPriorityMinimum: int, versionPriority: int)

  /** `other` is everything of an APIService the registrar neither reads nor sets. */
  datatype APIService = APIService(labels: map<string, string>, spec: Spec, other: string)

  type Services = map<string, APIService>

  datatype Options = Options(
    service: ServiceReference, insecureSkipTLSVerify: bool, groupPriorityMinimum: int, versionPriority: int)

  function NameOf(gv: GroupVersion): string {
    gv.version + "." + gv.group
  }

  predicate Managed(service: APIService) {
    MANAGED_BY in service.labels && service.labels[MANAGED_BY] == SPILLWAY
  }

  /** The APIService routes to spillway's own Service. */
  predicate PointsHere(options: Options, service: APIService) {
    match service.spec.service
    case None => false
    case Some(to) => to.name == options.service.name && to.namespace == options.service.namespace
  }

  function Desired(options: Options, caBundle: string, gv: GroupVersion): APIService {
    APIService(
      map[MANAGED_BY := SPILLWAY],
      Spec(gv.group, gv.version, Some(options.service), caBundle, options.insecureSkipTLSVerify,
           options.groupPriorityMinimum, options.versionPriority),
      "")
  }

  predicate UpToDate(current: APIService, desired: APIService) {
    current.spec == desired.spec && Managed(current)
  }

  function Merged(current: APIService, desired: APIService): APIService {
    current.(spec := desired.spec, labels := current.labels[MANAGED_BY := SPILLWAY])
  }

  /** What the cluster's discovery lists: groups with their versions. */
  datatype ListedGroup = ListedGroup(name: string, versions: seq<string>)

  function Listed(groups: seq<ListedGroup>): set<GroupVersion> {
    set i, j | 0 <= i < |groups| && 0 <= j < |groups[i].versions| :: GroupVersion(groups[i].name, groups[i].versions[j])
  }

  predicate Ours(options: Options, services: Services, gv: GroupVersion) {
    NameOf(gv) in services && PointsHere(options, services[NameOf(gv)])
  }

  /** What the cluster serves without spillway. */
  function Foreign(options: Options, services: Services, groups: seq<ListedGroup>): set<GroupVersion> {
    set gv | gv in Listed(groups) && !Ours(options, services, gv)
  }

  /** The APIService names spillway's Service, whatever the port. */
  predicate Reaches(service: APIService, name: string, namespace: string) {
    service.spec.service.Some? && service.spec.service.value.name == name && service.spec.service.value.namespace == namespace
  }

  /** The cluster's discovery lists the version under the group. */
  ghost predicate ListedUnder(groups: seq<ListedGroup>, gv: GroupVersion) {
    exists group <- groups :: group.name == gv.group && gv.version in group.versions
  }

  lemma ForeignExactly(options: Options, services: Services, groups: seq<ListedGroup>, gv: GroupVersion)
    ensures gv in Foreign(options, services, groups) <==>
              && ListedUnder(groups, gv)
              && !(gv.version + "." + gv.group in services
                   && Reaches(services[gv.version + "." + gv.group], options.service.name, options.service.namespace))
  {
    if gv in Listed(groups) {
      var i, j :| 0 <= i < |groups| && 0 <= j < |groups[i].versions| && gv == GroupVersion(groups[i].name, groups[i].versions[j]);
      assert groups[i] in groups && gv.version in groups[i].versions;
    }
    if group :| group in groups && group.name == gv.group && gv.version in group.versions {
      var i :| 0 <= i < |groups| && groups[i] == group;
      var j :| 0 <= j < |group.versions| && group.versions[j] == gv.version;
      assert gv == GroupVersion(groups[i].name, groups[i].versions[j]);
    }
  }

  method ComputeForeign(options: Options, services: Services, groups: seq<ListedGroup>) returns (foreign: set<GroupVersion>)
    ensures foreign == Foreign(options, services, groups)
  {
    foreign := {};
    for i := 0 to |groups|
      invariant foreign == Foreign(options, services, groups[..i])
    {
      var group := groups[i];
      ghost var before := foreign;
      for j := 0 to |group.versions|
        invariant foreign == before + set k | 0 <= k < j && !Ours(options, services, GroupVersion(group.name, group.versions[k]))
                                       :: GroupVersion(group.name, group.versions[k])
      {
        var gv := GroupVersion(group.name, group.versions[j]);
        if Ours(options, services, gv) {
          continue;
        }
        foreign := foreign + {gv};
      }
      ListedSnoc(groups, i);
      assert foreign == Foreign(options, services, groups[..i + 1]);
    }
    assert groups[..|groups|] == groups;
  }

  lemma ListedSnoc(groups: seq<ListedGroup>, i: nat)
    requires i < |groups|
    ensures Listed(groups[..i + 1]) == Listed(groups[..i])
              + set j | 0 <= j < |groups[i].versions| :: GroupVersion(groups[i].name, groups[i].versions[j])
  {
    var shorter, longer := groups[..i], groups[..i + 1];
    forall gv | gv in Listed(shorter) ensures gv in Listed(longer) {
      var k, j :| 0 <= k < |shorter| && 0 <= j < |shorter[k].versions|
                  && gv == GroupVersion(shorter[k].name, shorter[k].versions[j]);
      assert longer[k] == shorter[k];
    }
    forall j | 0 <= j < |groups[i].versions| ensures GroupVersion(groups[i].name, groups[i].versions[j]) in Listed(longer) {
      assert longer[i] == groups[i];
    }
    forall gv | gv in Listed(longer)
      ensures gv in Listed(shorter) ||
              exists j | 0 <= j < |groups[i].versions| :: gv == GroupVersion(groups[i].name, groups[i].versions[j])
    {
      var k, j :| 0 <= k < |longer| && 0 <= j < |longer[k].versions| && gv == GroupVersion(longer[k].name, longer[k].versions[j]);
      if k < i { assert shorter[k] == longer[k]; }
    }
  }

  // -------- what is wanted --------

  /** The wanted APIServices: for each served version that is not foreign, what it should look like,
      under its name. Versions with one name leave one of them. */
  ghost predicate IsWanted(options: Options, caBundle: string, served: set<GroupVersion>, foreign: set<GroupVersion>,
                           wanted: Services) {
    && (forall gv <- served - foreign :: NameOf(gv) in wanted)
    && (forall name <- wanted :: exists gv <- served - foreign ::
          NameOf(gv) == name && wanted[name] == Desired(options, caBundle, gv))
  }

  method ComputeWanted(options: Options, caBundle: string, served: set<GroupVersion>, foreign: set<GroupVersion>)
    returns (wanted: Services)
    ensures IsWanted(options, caBundle, served, foreign, wanted)
  {
    wanted := map[];
    var todo := served;
    while todo != {}
      invariant todo <= served
      invariant IsWanted(options, caBundle, served - todo, foreign, wanted)
      decreases |todo|
    {
      var gv :| gv in todo;
      ghost var done := served - todo;
      todo := todo - {gv};
      assert served - todo == done + {gv};
      if gv in foreign {
        SkipForeign(options, caBundle, done, foreign, wanted, gv);
        continue;
      }
      WantOne(options, caBundle, done, foreign, wanted, gv);
      wanted := wanted[NameOf(gv) := Desired(options, caBundle, gv)];
    }
    assert served - {} == served;
  }

  lemma SkipForeign(options: Options, caBundle: string, done: set<GroupVersion>, foreign: set<GroupVersion>,
                    wanted: Services, gv: GroupVersion)
    requires IsWanted(options, caBundle, done, foreign, wanted) && gv in foreign
    ensures IsWanted(options, caBundle, done + {gv}, foreign, wanted)
  {
    assert done + {gv} - foreign == done - foreign;
  }

  lemma WantOne(options: Options, caBundle: string, done: set<GroupVersion>, foreign: set<GroupVersion>,
                wanted: Services, gv: GroupVersion)
    requires IsWanted(options, caBundle, done, foreign, wanted) && gv !in foreign
    ensures IsWanted(options, caBundle, done + {gv}, foreign, wanted[NameOf(gv) := Desired(options, caBundle, gv)])
  {
    var after := wanted[NameOf(gv) := Desired(options, caBundle, gv)];
    forall name | name in after
      ensures exists x <- done + {gv} - foreign :: NameOf(x) == name && after[name] == Desired(options, caBundle, x)
    {
      if name == NameOf(gv) {
        assert gv in done + {gv} - foreign;
      } else {
        var x :| x in done - foreign && NameOf(x) == name && wanted[name] == Desired(options, caBundle, x);
        assert x in done + {gv} - foreign;
      }
    }
  }

  // -------- one round of writes --------

  /** What a round does to the APIService of one name. */
  datatype Write = Leave | Update(service: APIService) | Delete | Create(service: APIService)

  /** What becomes of that: the cluster takes it or refuses it, or another writer has got to the name since it was
      read, and left `now`. */
  datatype Answer = Taken | Refused | Raced(now: Option<APIService>)

  type Answers = string -> Answer

  function Undisturbed(): Answers {
    _ => Taken
  }

  function WriteFor(options: Options, wanted: Services, services: Services, name: string): Write {
    if name in services then
      var current := services[name];
      if name in wanted then
        if Managed(current) && !UpToDate(current, wanted[name]) then Update(Merged(current, wanted[name])) else Leave
      else if Managed(current) && PointsHere(options, current) then Delete
      else Leave
    else if name in wanted then Create(wanted[name])
    else Leave
  }

  function Lookup(services: Services, name: string): Option<APIService> {
    if name in services then Some(services[name]) else None
  }

  /** The APIService of the name, but for the write. */
  function Base(current: Option<APIService>, answer: Answer): Option<APIService> {
    match answer case Raced(now) => now case _ => current
  }

  /** An update conflicts with what another writer did. A deletion takes whatever is there, or finds it gone; a
      creation that finds the name taken leaves what it finds. */
  function Outcome(current: Option<APIService>, write: Write, answer: Answer): Option<APIService> {
    var base := Base(current, answer);
    match write
    case Leave => base
    case Update(service) => if answer.Taken? then Some(service) else base
    case Delete => if answer.Refused? then base else None
    case Create(service) => if answer.Refused? || base.Some? then base else Some(service)
  }

  /** Finding the name taken, or gone, is no error of a creation, or a deletion. */
  predicate Fails(write: Write, answer: Answer) {
    write != Leave && (answer.Refused? || (write.Update? && answer.Raced?))
  }

  function FinalOf(options: Options, wanted: Services, services: Services, answers: Answers, name: string): Option<APIService> {
    Outcome(Lookup(services, name), WriteFor(options, wanted, services, name), answers(name))
  }

  /** The APIServices after the round. */
  function Reconciled(options: Options, wanted: Services, services: Services, answers: Answers): Services {
    map name | name in services.Keys + wanted.Keys && FinalOf(options, wanted, services, answers, name).Some? ::
      FinalOf(options, wanted, services, answers, name).value
  }

  function Errors(options: Options, wanted: Services, services: Services, answers: Answers): set<string> {
    set name | name in services.Keys + wanted.Keys && Fails(WriteFor(options, wanted, services, name), answers(name))
  }

  /** The wanted APIServices spillway answers for: those found labelled, and those created or found created. */
  function Mine(options: Options, wanted: Services, services: Services, answers: Answers): set<string> {
    (set name | name in services && name in wanted && Managed(services[name]))
    + set name | name in wanted && name !in services && !answers(name).Refused?
  }

  /** What another writer, if there is one, leaves. */
  function Touched(services: Services, name: string, answer: Answer): Services {
    match answer
    case Raced(Some(theirs)) => services[name := theirs]
    case Raced(None) => services - {name}
    case _ => services
  }

  /** One turn of the cluster: another writer's, if there is one, and then the write. */
  function Written(services: Services, name: string, write: Write, answer: Answer): Services {
    var now := Touched(services, name, answer);
    match write
    case Leave => now
    case Update(service) => if answer.Taken? then now[name := service] else now
    case Delete => if answer.Refused? then now else now - {name}
    case Create(service) => if answer.Refused? || name in now then now else now[name := service]
  }

  /** The cluster, as the registrar writes to it. */
  class Cluster {
    var services: Services
    ghost var writes: nat

    constructor (services: Services)
      ensures this.services == services && writes == 0
    {
      this.services := services;
      writes := 0;
    }

    /** Another writer's turn, if it has one. */
    method Others(name: string, answer: Answer)
      modifies this
      ensures services == Touched(old(services), name, answer) && writes == old(writes)
    {
      match answer {
        case Raced(Some(theirs)) => services := services[name := theirs];
        case Raced(None) => services := services - {name};
        case _ =>
      }
    }

    /** Everything other writers do between two reads. */
    method Become(found: Services)
      modifies this
      ensures services == found && writes == old(writes)
    {
      services := found;
    }

    method Update(name: string, service: APIService, answer: Answer) returns (failed: bool)
      modifies this
      ensures services == Written(old(services), name, Write.Update(service), answer) && writes == old(writes) + 1
      ensures failed <==> Fails(Write.Update(service), answer)
    {
      Others(name, answer);
      writes := writes + 1;
      if !answer.Taken? {
        return true;
      }
      services := services[name := service];
      return false;
    }

    method Delete(name: string, answer: Answer) returns (failed: bool)
      modifies this
      ensures services == Written(old(services), name, Write.Delete, answer) && writes == old(writes) + 1
      ensures failed <==> Fails(Write.Delete, answer)
    {
      Others(name, answer);
      writes := writes + 1;
      if answer.Refused? {
        return true;
      }
      services := services - {name};
      return false;
    }

    method Create(name: string, service: APIService, answer: Answer) returns (failed: bool)
      modifies this
      ensures services == Written(old(services), name, Write.Create(service), answer) && writes == old(writes) + 1
      ensures failed <==> Fails(Write.Create(service), answer)
    {
      Others(name, answer);
      writes := writes + 1;
      if answer.Refused? {
        return true;
      }
      if name !in services {
        services := services[name := service];
      }
      return false;
    }
  }

  function WriteCount(options: Options, wanted: Services, services: Services): nat {
    |set name | name in services.Keys + wanted.Keys && WriteFor(options, wanted, services, name) != Leave|
  }

  /** What a round will have done: the APIServices after it, and the names it counts as managed, fails to
      write and writes. */
  datatype Plan = Plan(final: Services, mine: set<string>, failed: set<string>, written: set<string>)

  ghost function PlanOf(options: Options, wanted: Services, services: Services, answers: Answers): Plan {
    Plan(Reconciled(options, wanted, services, answers), Mine(options, wanted, services, answers),
         Errors(options, wanted, services, answers),
         set name | name in services.Keys + wanted.Keys && WriteFor(options, wanted, services, name) != Leave)
  }

  /** The round so far: names in `done` are as they will be, the others as they were. */
  ghost function Halfway(final: Services, before: Services, done: set<string>): Services {
    map name | name in final.Keys + before.Keys && name in (if name in done then final else before) ::
      (if name in done then final else before)[name]
  }

  ghost predicate Progress(plan: Plan, services: Services, done: set<string>, now: Services) {
    now == Halfway(plan.final, services, done)
  }

  /** The names counted, failed and written so far. */
  datatype Tally = Tally(mine: set<string>, failed: set<string>, written: set<string>)

  ghost predicate Tallied(plan: Plan, done: set<string>, t: Tally) {
    t.mine == plan.mine * done && t.failed == plan.failed * done && t.written == plan.written * done
  }

  ghost function Counted(plan: Plan, t: Tally, name: string): Tally {
    Tally(if name in plan.mine then t.mine + {name} else t.mine,
          if name in plan.failed then t.failed + {name} else t.failed,
          if name in plan.written then t.written + {name} else t.written)
  }

  lemma SetStep(whole: set<string>, done: set<string>, name: string)
    requires name !in done
    ensures var next := if name in whole then whole * done + {name} else whole * done;
            next == whole * (done + {name}) && |next| == |whole * done| + (if name in whole then 1 else 0)
  {
  }

  lemma TallyStep(plan: Plan, done: set<string>, t: Tally, name: string)
    requires Tallied(plan, done, t) && name !in done
    ensures Tallied(plan, done + {name}, Counted(plan, t, name))
    ensures var u := Counted(plan, t, name);
            && |u.mine| == |t.mine| + (if name in plan.mine then 1 else 0)
            && |u.written| == |t.written| + (if name in plan.written then 1 else 0)
  {
    SetStep(plan.mine, done, name);
    SetStep(plan.failed, done, name);
    SetStep(plan.written, done, name);
  }

  lemma HalfwayStep(final: Services, before: Services, done: set<string>, name: string)
    requires name !in done
    ensures var now := Halfway(final, before, done);
            Halfway(final, before, done + {name}) == if name in final then now[name := final[name]] else now - {name}
  {
    var now := Halfway(final, before, done);
    var next := if name in final then now[name := final[name]] else now - {name};
    var later := Halfway(final, before, done + {name});
    forall n ensures (n in later <==> n in next) && (n in later ==> later[n] == next[n]) {
    }
  }

  /** A turn leaves the name as its outcome says, and every other as it was. */
  lemma WrittenIsOutcome(now: Services, name: string, write: Write, answer: Answer)
    ensures Written(now, name, write, answer) ==
              match Outcome(Lookup(now, name), write, answer)
              case Some(service) => now[name := service]
              case None => now - {name}
  {
  }

  lemma ProgressStep(options: Options, wanted: Services, services: Services, answers: Answers, plan: Plan,
                     done: set<string>, now: Services, name: string)
    requires plan == PlanOf(options, wanted, services, answers)
    requires Progress(plan, services, done, now)
    requires name !in done && name in services.Keys + wanted.Keys
    ensures Progress(plan, services, done + {name},
                     Written(now, name, WriteFor(options, wanted, services, name), answers(name)))
  {
    HalfwayStep(plan.final, services, done, name);
    WrittenIsOutcome(now, name, WriteFor(options, wanted, services, name), answers(name));
  }

  lemma ProgressDone(plan: Plan, services: Services, done: set<string>, now: Services)
    requires Progress(plan, services, done, now) && services.Keys <= done && plan.final.Keys <= done
    ensures now == plan.final
  {
  }

  /** The turn of an APIService that exists. */
  method VisitExisting(cluster: Cluster, options: Options, wanted: Services, name: string, current: APIService, answer: Answer)
    returns (mine: bool, failed: bool)
    modifies cluster
    ensures var write := WriteFor(options, wanted, map[name := current], name);
            && cluster.services == Written(old(cluster.services), name, write, answer)
            && cluster.writes == old(cluster.writes) + (if write == Leave then 0 else 1)
            && (failed <==> Fails(write, answer))
    ensures mine <==> name in wanted && Managed(current)
  {
    mine, failed := false, false;
    if name in wanted && Managed(current) {
      mine := true;
      if !UpToDate(current, wanted[name]) {
        failed := cluster.Update(name, Merged(current, wanted[name]), answer);
        return;
      }
    } else if name !in wanted && Managed(current) && PointsHere(options, current) {
      failed := cluster.Delete(name, answer);
      return;
    }
    cluster.Others(name, answer);
  }

  lemma ExistingTurn(options: Options, wanted: Services, services: Services, answers: Answers, plan: Plan, name: string)
    requires plan == PlanOf(options, wanted, services, answers) && name in services
    ensures var write := WriteFor(options, wanted, services, name);
            && write == WriteFor(options, wanted, map[name := services[name]], name)
            && (name in plan.mine <==> name in wanted && Managed(services[name]))
            && (name in plan.failed <==> Fails(write, answers(name)))
            && (name in plan.written <==> write != Leave)
  {
  }

  lemma MissingTurn(options: Options, wanted: Services, services: Services, answers: Answers, plan: Plan, name: string)
    requires plan == PlanOf(options, wanted, services, answers) && name in wanted && name !in services
    ensures WriteFor(options, wanted, services, name) == Create(wanted[name])
    ensures name in plan.written && (name in plan.failed <==> answers(name).Refused?)
    ensures name in plan.mine <==> !answers(name).Refused?
  {
  }

  /** Everything a pass keeps: the APIServices, and the running count, errors and number of writes. */
  ghost predicate Ready(plan: Plan, services: Services, done: set<string>, cluster: Cluster, writes0: nat,
                        mine: nat, failed: set<string>, t: Tally)
    reads cluster
  {
    && Progress(plan, services, done, cluster.services) && Tallied(plan, done, t)
    && mine == |t.mine| && failed == t.failed && cluster.writes == writes0 + |t.written|
  }

  lemma TurnTaken(all: set<string>, todo: set<string>, name: string)
    requires name in todo && todo <= all
    ensures all - (todo - {name}) == (all - todo) + {name}
  {
  }

  method StepExisting(cluster: Cluster, options: Options, wanted: Services, answers: Answers, ghost plan: Plan,
                      ghost services: Services, ghost all: set<string>, ghost todo: set<string>, ghost writes0: nat,
                      name: string, current: APIService,
                      mine0: nat, failed0: set<string>, ghost t0: Tally)
    returns (mine: nat, failed: set<string>, ghost t: Tally)
    requires plan == PlanOf(options, wanted, services, answers)
    requires Ready(plan, services, all - todo, cluster, writes0, mine0, failed0, t0)
    requires name in todo && todo <= all && name in services && services[name] == current
    modifies cluster
    ensures Ready(plan, services, all - (todo - {name}), cluster, writes0, mine, failed, t)
  {
    ghost var done := all - todo;
    TurnTaken(all, todo, name);
    ProgressStep(options, wanted, services, answers, plan, done, cluster.services, name);
    ExistingTurn(options, wanted, services, answers, plan, name);
    TallyStep(plan, done, t0, name);
    var isMine, hasFailed := VisitExisting(cluster, options, wanted, name, current, answers(name));
    mine := if isMine then mine0 + 1 else mine0;
    failed := if hasFailed then failed0 + {name} else failed0;
    t := Counted(plan, t0, name);
  }

  method StepMissing(cluster: Cluster, options: Options, wanted: Services, answers: Answers, ghost plan: Plan,
                     ghost services: Services, ghost all: set<string>, ghost todo: set<string>, ghost writes0: nat, name: string,
                     mine0: nat, failed0: set<string>, ghost t0: Tally)
    returns (mine: nat, failed: set<string>, ghost t: Tally)
    requires plan == PlanOf(options, wanted, services, answers)
    requires Ready(plan, services, all - todo, cluster, writes0, mine0, failed0, t0)
    requires name in todo && todo <= all && name in wanted && name !in services
    modifies cluster
    ensures Ready(plan, services, all - (todo - {name}), cluster, writes0, mine, failed, t)
  {
    ghost var done := all - todo;
    TurnTaken(all, todo, name);
    ProgressStep(options, wanted, services, answers, plan, done, cluster.services, name);
    MissingTurn(options, wanted, services, answers, plan, name);
    TallyStep(plan, done, t0, name);
    var hasFailed := cluster.Create(name, wanted[name], answers(name));
    mine := if hasFailed then mine0 else mine0 + 1;
    failed := if hasFailed then failed0 + {name} else failed0;
    t := Counted(plan, t0, name);
  }

  lemma TallyDone(plan: Plan, done: set<string>, t: Tally)
    requires Tallied(plan, done, t) && plan.mine <= done && plan.failed <= done && plan.written <= done
    ensures t == Tally(plan.mine, plan.failed, plan.written)
  {
  }

  lemma PassesMeet(before: set<string>, wanted: set<string>)
    ensures before - {} == (before + wanted) - (wanted - before)
  {
  }

  lemma PassesDone(options: Options, wanted: Services, services: Services, answers: Answers, plan: Plan,
                   now: Services, t: Tally)
    requires plan == PlanOf(options, wanted, services, answers)
    requires Progress(plan, services, (services.Keys + wanted.Keys) - {}, now)
    requires Tallied(plan, (services.Keys + wanted.Keys) - {}, t)
    ensures now == plan.final && t == Tally(plan.mine, plan.failed, plan.written)
  {
    var all := services.Keys + wanted.Keys;
    assert all - {} == all;
    ProgressDone(plan, services, all, now);
    TallyDone(plan, all, t);
  }

  lemma NothingDone(plan: Plan, services: Services)
    ensures Progress(plan, services, services.Keys - services.Keys, services)
    ensures Tallied(plan, services.Keys - services.Keys, Tally({}, {}, {}))
  {
    assert services.Keys - services.Keys == {};
    var now := Halfway(plan.final, services, {});
    forall n ensures (n in now <==> n in services) && (n in now ==> now[n] == services[n]) {
    }
  }

  /** The first pass: what exists, in any order. */
  method ApplyExisting(cluster: Cluster, options: Options, wanted: Services, answers: Answers, ghost plan: Plan)
    returns (mine: nat, failed: set<string>, ghost t: Tally)
    requires plan == PlanOf(options, wanted, cluster.services, answers)
    modifies cluster
    ensures Ready(plan, old(cluster.services), old(cluster.services).Keys - {}, cluster, old(cluster.writes), mine, failed, t)
  {
    var existing := cluster.services;
    ghost var writes0 := cluster.writes;
    mine, failed, t := 0, {}, Tally({}, {}, {});
    var todo := existing.Keys;
    NothingDone(plan, existing);
    while todo != {}
      invariant todo <= existing.Keys
      invariant Ready(plan, existing, existing.Keys - todo, cluster, writes0, mine, failed, t)
      decreases |todo|
    {
      var name :| name in todo;
      mine, failed, t := StepExisting(cluster, options, wanted, answers, plan, existing, existing.Keys, todo, writes0,
                                      name, existing[name], mine, failed, t);
      todo := todo - {name};
    }
  }

  /** The second pass: what is missing, in any order. */
  method ApplyMissing(cluster: Cluster, options: Options, wanted: Services, answers: Answers, ghost plan: Plan,
                      ghost services: Services, ghost writes0: nat, missing: set<string>, ghost all: set<string>,
                      mine0: nat, failed0: set<string>, ghost t0: Tally)
    returns (mine: nat, failed: set<string>, ghost t: Tally)
    requires plan == PlanOf(options, wanted, services, answers)
    requires missing <= all && forall name <- missing :: name in wanted && name !in services
    requires Ready(plan, services, all - missing, cluster, writes0, mine0, failed0, t0)
    modifies cluster
    ensures Ready(plan, services, all - {}, cluster, writes0, mine, failed, t)
  {
    mine, failed, t := mine0, failed0, t0;
    var todo := missing;
    while todo != {}
      invariant todo <= missing
      invariant Ready(plan, services, all - todo, cluster, writes0, mine, failed, t)
      decreases |todo|
    {
      var name :| name in todo;
      mine, failed, t := StepMissing(cluster, options, wanted, answers, plan, services, all, todo, writes0,
                                     name, mine, failed, t);
      todo := todo - {name};
    }
  }

  /** Writes everything the round calls for. */
  method Apply(cluster: Cluster, options: Options, wanted: Services, answers: Answers)
    returns (mine: nat, failed: set<string>)
    modifies cluster
    ensures cluster.services == Reconciled(options, wanted, old(cluster.services), answers)
    ensures mine == |Mine(options, wanted, old(cluster.services), answers)|
    ensures failed == Errors(options, wanted, old(cluster.services), answers)
    ensures cluster.writes == old(cluster.writes) + WriteCount(options, wanted, old(cluster.services))
  {
    var existing := cluster.services;
    ghost var plan := PlanOf(options, wanted, existing, answers);
    ghost var tally, writes0 := Tally({}, {}, {}), cluster.writes;
    mine, failed, tally := ApplyExisting(cluster, options, wanted, answers, plan);
    var missing := wanted.Keys - existing.Keys;
    ghost var all := existing.Keys + wanted.Keys;
    PassesMeet(existing.Keys, wanted.Keys);
    mine, failed, tally := ApplyMissing(cluster, options, wanted, answers, plan, existing, writes0, missing, all,
                                        mine, failed, tally);
    PassesDone(options, wanted, existing, answers, plan, cluster.services, tally);
  }

  /** Why a round stops before writing anything. */
  datatype Round = NotLeading | NotSynced | NoCABundle | ClusterUnknown | Unlisted | Applied(managed: nat, failed: set<string>)

  /** A round: nothing is written unless this replica leads, the workspaces have been read, and what the cluster serves
      itself is known. `listing` and `caBundle` are absent when reading them fails. The APIServices are read twice, for
      the guard and for the round; `found` is what others have made of them by the second time, absent if that fails. */
  method Reconcile(cluster: Cluster, options: Options, leads: bool, synced: bool, caBundle: Option<string>,
                   listing: Option<seq<ListedGroup>>, served: set<GroupVersion>, found: Option<Services>, answers: Answers)
    returns (r: Round, ghost wanted: Services)
    modifies cluster
    ensures !r.Applied? ==> cluster.services == old(cluster.services) && cluster.writes == old(cluster.writes)
    ensures r.Applied? <==> leads && synced && caBundle.Some? && listing.Some? && found.Some?
    ensures r.Applied? ==>
              && IsWanted(options, caBundle.value, served, Foreign(options, old(cluster.services), listing.value), wanted)
              && cluster.services == Reconciled(options, wanted, found.value, answers)
              && r.managed == |Mine(options, wanted, found.value, answers)|
              && r.failed == Errors(options, wanted, found.value, answers)
              && cluster.writes == old(cluster.writes) + WriteCount(options, wanted, found.value)
  {
    wanted := map[];
    if !leads {
      return NotLeading, wanted;
    }
    if !synced {
      return NotSynced, wanted;
    }
    if caBundle.None? {
      return NoCABundle, wanted;
    }
    if listing.None? {
      return ClusterUnknown, wanted;
    }
    var foreign := ComputeForeign(options, cluster.services, listing.value);
    var wants := ComputeWanted(options, caBundle.value, served, foreign);
    if found.None? {
      return Unlisted, wanted;
    }
    cluster.Become(found.value);
    wanted := wants;
    var mine, failed := Apply(cluster, options, wants, answers);
    r := Applied(mine, failed);
  }

  // -------- names --------

  predicate DotFree(versions: set<GroupVersion>) {
    forall gv <- versions :: '.' !in gv.version
  }

  /** Names tell group versions apart as long as versions have no dots. */
  lemma NamesInjective(a: GroupVersion, b: GroupVersion)
    requires '.' !in a.version && '.' !in b.version && NameOf(a) == NameOf(b)
    ensures a == b
  {
    CutInjective(a.version, a.group, b.version, b.group, '.');
  }

  /** One's version is the other's with a part more, which the other's group begins with. */
  ghost predicate Shifted(a: GroupVersion, b: GroupVersion) {
    exists part :: a.version == b.version + "." + part && b.group == part + "." + a.group
  }

  lemma ShiftedShares(a: GroupVersion, b: GroupVersion)
    requires Shifted(a, b)
    ensures NameOf(a) == NameOf(b) && a != b
  {
    var part :| a.version == b.version + "." + part && b.group == part + "." + a.group;
    assert |a.version| > |b.version|;
    assert NameOf(a) == b.version + "." + (part + "." + a.group) == NameOf(b);
  }

  lemma LongerIsShifted(a: GroupVersion, b: GroupVersion)
    requires NameOf(a) == NameOf(b) && |a.version| > |b.version|
    ensures Shifted(a, b)
  {
    var name, n := NameOf(a), |b.version|;
    var part := a.version[n + 1..];
    assert b.version == NameOf(b)[..n] == name[..n] == a.version[..n];
    assert a.version[n] == name[n] == NameOf(b)[n] == '.';
    assert a.version == b.version + "." + part;
    assert b.group == NameOf(b)[n + 1..] == name[n + 1..] == part + "." + a.group;
  }

  lemma EquallyLong(a: GroupVersion, b: GroupVersion)
    requires NameOf(a) == NameOf(b) && |a.version| == |b.version|
    ensures a == b
  {
    assert a.version == NameOf(a)[..|a.version|] == NameOf(b)[..|b.version|] == b.version;
    assert a.group == NameOf(a)[|a.version| + 1..] == NameOf(b)[|b.version| + 1..] == b.group;
  }

  /** Exactly when two group versions share a name. */
  lemma NamesShared(a: GroupVersion, b: GroupVersion)
    ensures NameOf(a) == NameOf(b) && a != b <==> Shifted(a, b) || Shifted(b, a)
  {
    if Shifted(a, b) {
      ShiftedShares(a, b);
    }
    if Shifted(b, a) {
      ShiftedShares(b, a);
    }
    if NameOf(a) == NameOf(b) && a != b {
      if |a.version| == |b.version| {
        EquallyLong(a, b);
      } else if |a.version| > |b.version| {
        LongerIsShifted(a, b);
      } else {
        LongerIsShifted(b, a);
      }
    }
  }

  // -------- safety --------

  /** A round neither creates nor updates the APIService of a group version that the cluster serves without spillway, as
      the guard read it; and it deletes it exactly if the round's own read finds it labelled and pointing at spillway. */
  lemma ForeignWithdrawnOnly(options: Options, caBundle: string, guard: Services, groups: seq<ListedGroup>,
                             served: set<GroupVersion>, wanted: Services, services: Services, gv: GroupVersion)
    requires IsWanted(options, caBundle, served, Foreign(options, guard, groups), wanted)
    requires DotFree(served) && DotFree(Listed(groups))
    requires gv in Foreign(options, guard, groups)
    ensures NameOf(gv) !in wanted
    ensures WriteFor(options, wanted, services, NameOf(gv)) ==
              if Ours(options, services, gv) && Managed(services[NameOf(gv)]) then Delete else Leave
  {
    if NameOf(gv) in wanted {
      var x :| x in served - Foreign(options, guard, groups) && NameOf(x) == NameOf(gv);
      NamesInjective(x, gv);
    }
  }

  /** So if both reads agree about it, a round leaves it alone: afterwards it is what it was, or what another writer made
      of it. */
  lemma ForeignUntouched(options: Options, caBundle: string, guard: Services, groups: seq<ListedGroup>,
                         served: set<GroupVersion>, wanted: Services, services: Services, answers: Answers, gv: GroupVersion)
    requires IsWanted(options, caBundle, served, Foreign(options, guard, groups), wanted)
    requires DotFree(served) && DotFree(Listed(groups))
    requires gv in Foreign(options, guard, groups) && Lookup(services, NameOf(gv)) == Lookup(guard, NameOf(gv))
    ensures WriteFor(options, wanted, services, NameOf(gv)) == Leave && NameOf(gv) !in wanted
    ensures Lookup(Reconciled(options, wanted, services, answers), NameOf(gv)) ==
              if NameOf(gv) in services then Base(Some(services[NameOf(gv)]), answers(NameOf(gv))) else None
  {
    ForeignWithdrawnOnly(options, caBundle, guard, groups, served, wanted, services, gv);
  }

  /** Whatever else a round does to a name, over what other writers do: it updates only what was read labelled and is as
      it was read, keeping labels and everything it does not set; it deletes only what was read labelled, pointing at
      spillway's Service and no longer wanted; and it creates only what is wanted and missing. */
  lemma WritesOnlyItsOwn(options: Options, wanted: Services, services: Services, answers: Answers, name: string)
    requires name in services || name in wanted
    ensures var base := Base(Lookup(services, name), answers(name));
            var after := Lookup(Reconciled(options, wanted, services, answers), name);
            after == base
            || (name in services && Managed(services[name]) &&
                match after
                case Some(updated) =>
                  && name in wanted && base == Some(services[name]) && updated.spec == wanted[name].spec
                  && updated.other == services[name].other && updated.labels == services[name].labels
                case None => PointsHere(options, services[name]) && name !in wanted)
            || (name !in services && base == None && name in wanted && after == Some(wanted[name]))
  {
    if name in services && name in wanted && Managed(services[name]) {
      assert Merged(services[name], wanted[name]).labels == services[name].labels;
    }
  }

  /** The label by which an APIService is known to be spillway's. */
  predicate Labelled(service: APIService) {
    "app.kubernetes.io/managed-by" in service.labels && service.labels["app.kubernetes.io/managed-by"] == "spillway"
  }

  /** The APIService is spillway's, by its label and by where it points. */
  predicate Own(options: Options, service: APIService) {
    Labelled(service) && Reaches(service, options.service.name, options.service.namespace)
  }

  /** A deletion names no version: it takes whatever is there. Exactly when a round removes an APIService that is not
      labelled, or does not point at spillway: when it deletes one read as both, and another writer has meanwhile put
      such a one in its place. */
  lemma RemovesAnothers(options: Options, wanted: Services, services: Services, answers: Answers, name: string)
    requires name in services || name in wanted
    ensures var base := Base(Lookup(services, name), answers(name));
            base.Some? && !Own(options, base.value) && name !in Reconciled(options, wanted, services, answers) <==>
              && WriteFor(options, wanted, services, name) == Delete
              && answers(name).Raced? && answers(name).now.Some? && !Own(options, answers(name).now.value)
  {
  }

  // -------- what a round is for --------

  /** Exactly which write a name calls for: an update of what is wanted, was read labelled and differs in any part of its
      spec; a deletion of what is not wanted, and was read labelled and pointing at spillway; a creation of what is wanted
      and missing; and else none. */
  lemma WriteExactly(options: Options, wanted: Services, services: Services, name: string)
    ensures var write := WriteFor(options, wanted, services, name);
            && (write.Update? <==>
                  name in services && name in wanted && Labelled(services[name]) && services[name].spec != wanted[name].spec)
            && (write.Delete? <==>
                  && name in services && name !in wanted && Labelled(services[name])
                  && Reaches(services[name], options.service.name, options.service.namespace))
            && (write.Create? <==> name !in services && name in wanted)
            && (write.Update? ==> write.service == APIService(services[name].labels, wanted[name].spec, services[name].other))
            && (write.Create? ==> write.service == wanted[name])
  {
    if name in services && name in wanted && Managed(services[name]) {
      assert Merged(services[name], wanted[name]).labels == services[name].labels;
    }
  }

  /** What the APIService of a served group version says. */
  predicate Announces(service: APIService, options: Options, caBundle: string, gv: GroupVersion) {
    && service.spec.group == gv.group && service.spec.version == gv.version
    && service.spec.service == Some(options.service) && service.spec.caBundle == caBundle
    && service.spec.insecureSkipTLSVerify == options.insecureSkipTLSVerify
    && service.spec.groupPriorityMinimum == options.groupPriorityMinimum
    && service.spec.versionPriority == options.versionPriority
  }

  lemma WantedAnnounces(options: Options, caBundle: string, served: set<GroupVersion>, foreign: set<GroupVersion>,
                        wanted: Services, gv: GroupVersion)
    requires IsWanted(options, caBundle, served, foreign, wanted) && DotFree(served)
    requires gv in served - foreign
    ensures var name := gv.version + "." + gv.group;
            name in wanted && Labelled(wanted[name]) && Announces(wanted[name], options, caBundle, gv)
  {
    var x :| x in served - foreign && NameOf(x) == NameOf(gv) && wanted[NameOf(gv)] == Desired(options, caBundle, x);
    NamesInjective(x, gv);
  }

  /** After a clean round every served group version that is not foreign has its APIService, under its name, and if that is
      labelled it says what it should, in all its parts; nothing labelled that points at spillway is left beyond those;
      and what was read unlabelled is as it was. */
  lemma CleanRoundIsRight(options: Options, caBundle: string, served: set<GroupVersion>, foreign: set<GroupVersion>,
                          wanted: Services, services: Services, answers: Answers)
    requires IsWanted(options, caBundle, served, foreign, wanted) && DotFree(served)
    requires Clean(options, wanted, services, answers)
    ensures var after := Reconciled(options, wanted, services, answers);
            && (forall gv <- served - foreign ::
                  && gv.version + "." + gv.group in after
                  && (Labelled(after[gv.version + "." + gv.group]) ==>
                        Announces(after[gv.version + "." + gv.group], options, caBundle, gv)))
            && (forall name <- after |
                  Labelled(after[name]) && Reaches(after[name], options.service.name, options.service.namespace) ::
                  exists gv <- served - foreign :: name == gv.version + "." + gv.group)
            && (forall name <- services | !Labelled(services[name]) :: name in after && after[name] == services[name])
  {
    CleanIsUndisturbed(options, wanted, services, answers);
    var after := Reconciled(options, wanted, services, answers);
    forall name ensures Lookup(after, name) == Lookup(Reconciled(options, wanted, services, Undisturbed()), name) {
    }
    forall name | name in services || name in wanted
      ensures name in wanted ==> name in after && (Labelled(after[name]) ==> after[name].spec == wanted[name].spec)
      ensures name in after && Labelled(after[name]) && Reaches(after[name], options.service.name, options.service.namespace) ==>
                name in wanted
      ensures name in services && !Labelled(services[name]) ==> name in after && after[name] == services[name]
    {
      RightByName(options, wanted, services, name);
    }
    forall gv | gv in served - foreign
      ensures gv.version + "." + gv.group in after
      ensures Labelled(after[gv.version + "." + gv.group]) ==>
                Announces(after[gv.version + "." + gv.group], options, caBundle, gv)
    {
      WantedAnnounces(options, caBundle, served, foreign, wanted, gv);
    }
    forall name | name in after && name in wanted ensures exists gv <- served - foreign :: name == gv.version + "." + gv.group {
      var gv :| gv in served - foreign && NameOf(gv) == name && wanted[name] == Desired(options, caBundle, gv);
    }
  }

  lemma RightByName(options: Options, wanted: Services, services: Services, name: string)
    requires name in services || name in wanted
    ensures var after := Reconciled(options, wanted, services, Undisturbed());
            && (name in wanted ==> name in after && (Labelled(after[name]) ==> after[name].spec == wanted[name].spec))
            && (name in after && Labelled(after[name])
                && Reaches(after[name], options.service.name, options.service.namespace) ==>
                  name in wanted)
            && (name in services && !Labelled(services[name]) ==> name in after && after[name] == services[name])
  {
    WriteExactly(options, wanted, services, name);
  }

  // -------- fixpoint --------

  /** The cluster's discovery after a round: it differs only in group versions now routed to spillway,
      or that were served through an APIService the round withdrew. */
  ghost predicate OnlySpillwayMoved(options: Options, before: Services, after: Services,
                                    groups: seq<ListedGroup>, groups': seq<ListedGroup>) {
    && (forall gv <- Listed(groups') - Listed(groups) :: Ours(options, after, gv))
    && (forall gv <- Listed(groups) - Listed(groups') :: NameOf(gv) in before && NameOf(gv) !in after)
  }

  lemma WantedStaysOurs(options: Options, caBundle: string, services: Services, groups: seq<ListedGroup>,
                     served: set<GroupVersion>, wanted: Services, gv: GroupVersion)
    requires IsWanted(options, caBundle, served, Foreign(options, services, groups), wanted)
    requires gv in served && gv !in Foreign(options, services, groups)
    ensures Ours(options, services, gv) ==> Ours(options, Reconciled(options, wanted, services, Undisturbed()), gv)
  {
    var name := NameOf(gv);
    assert name in wanted;
    var x :| x in served - Foreign(options, services, groups)
             && NameOf(x) == name && wanted[name] == Desired(options, caBundle, x);
    assert PointsHere(options, wanted[name]);
  }

  /** The second round sees the same foreign versions among those served. */
  lemma SameForeign(options: Options, caBundle: string, services: Services, groups: seq<ListedGroup>, groups': seq<ListedGroup>,
                    served: set<GroupVersion>, wanted: Services, gv: GroupVersion)
    requires IsWanted(options, caBundle, served, Foreign(options, services, groups), wanted)
    requires DotFree(served) && DotFree(Listed(groups))
    requires OnlySpillwayMoved(options, services, Reconciled(options, wanted, services, Undisturbed()), groups, groups')
    requires gv in served
    ensures gv in Foreign(options, services, groups) <==>
              gv in Foreign(options, Reconciled(options, wanted, services, Undisturbed()), groups')
  {
    var after := Reconciled(options, wanted, services, Undisturbed());
    if gv in Foreign(options, services, groups) {
      ForeignUntouched(options, caBundle, services, groups, served, wanted, services, Undisturbed(), gv);
      assert gv in Listed(groups');
    } else {
      WantedStaysOurs(options, caBundle, services, groups, served, wanted, gv);
    }
  }

  lemma SameWanted(options: Options, caBundle: string, served: set<GroupVersion>,
                   foreign: set<GroupVersion>, foreign': set<GroupVersion>,
                   wanted: Services, wanted': Services)
    requires DotFree(served) && served - foreign == served - foreign'
    requires IsWanted(options, caBundle, served, foreign, wanted) && IsWanted(options, caBundle, served, foreign', wanted')
    ensures wanted == wanted'
  {
    forall name | name in wanted ensures name in wanted' && wanted[name] == wanted'[name] {
      var x :| x in served - foreign && NameOf(x) == name && wanted[name] == Desired(options, caBundle, x);
      assert x in served - foreign';
      var y :| y in served - foreign' && NameOf(y) == name && wanted'[name] == Desired(options, caBundle, y);
      NamesInjective(x, y);
    }
    forall name | name in wanted' ensures name in wanted {
      var y :| y in served - foreign' && NameOf(y) == name && wanted'[name] == Desired(options, caBundle, y);
      assert y in served - foreign;
    }
  }

  lemma SettledUndisturbed(options: Options, wanted: Services, services: Services)
    requires forall n <- wanted :: Managed(wanted[n])
    ensures var after := Reconciled(options, wanted, services, Undisturbed());
            && WriteCount(options, wanted, after) == 0 && Reconciled(options, wanted, after, Undisturbed()) == after
            && Mine(options, wanted, after, Undisturbed()) == Mine(options, wanted, services, Undisturbed())
                 == set name | name in after && name in wanted && Managed(after[name])
  {
    var after := Reconciled(options, wanted, services, Undisturbed());
    forall name
      ensures WriteFor(options, wanted, after, name) == Leave
      ensures name in Mine(options, wanted, after, Undisturbed()) <==> name in Mine(options, wanted, services, Undisturbed())
      ensures name in Mine(options, wanted, services, Undisturbed()) <==> name in after && name in wanted && Managed(after[name])
    {
      SettledName(options, wanted, services, name);
    }
    assert (set name | name in after.Keys + wanted.Keys && WriteFor(options, wanted, after, name) != Leave) == {};
    NothingToWrite(options, wanted, after);
  }

  /** No write failed, and no other writer got in between. */
  ghost predicate Clean(options: Options, wanted: Services, services: Services, answers: Answers) {
    Errors(options, wanted, services, answers) == {} && forall name <- services.Keys + wanted.Keys :: !answers(name).Raced?
  }

  lemma CleanIsUndisturbed(options: Options, wanted: Services, services: Services, answers: Answers)
    requires Clean(options, wanted, services, answers)
    ensures Reconciled(options, wanted, services, answers) == Reconciled(options, wanted, services, Undisturbed())
    ensures Mine(options, wanted, services, answers) == Mine(options, wanted, services, Undisturbed())
  {
    forall name | name in services.Keys + wanted.Keys
      ensures FinalOf(options, wanted, services, answers, name) == FinalOf(options, wanted, services, Undisturbed(), name)
      ensures name !in services ==> !answers(name).Refused?
    {
      assert name !in Errors(options, wanted, services, answers);
    }
  }

  /** A clean round leaves nothing to write, and the count is the number of labelled APIServices that are wanted. */
  lemma Settled(options: Options, wanted: Services, services: Services, answers: Answers)
    requires Clean(options, wanted, services, answers) && forall n <- wanted :: Managed(wanted[n])
    ensures var after := Reconciled(options, wanted, services, answers);
            && WriteCount(options, wanted, after) == 0 && Reconciled(options, wanted, after, Undisturbed()) == after
            && Mine(options, wanted, after, Undisturbed()) == Mine(options, wanted, services, answers)
                 == set name | name in after && name in wanted && Managed(after[name])
  {
    CleanIsUndisturbed(options, wanted, services, answers);
    SettledUndisturbed(options, wanted, services);
  }

  /** Where other writers did get in between, an error-free round leaves work only at the names they touched. */
  lemma OnlyRacesRemain(options: Options, wanted: Services, services: Services, answers: Answers, name: string)
    requires Errors(options, wanted, services, answers) == {} && forall n <- wanted :: Managed(wanted[n])
    requires WriteFor(options, wanted, Reconciled(options, wanted, services, answers), name) != Leave
    ensures answers(name).Raced?
  {
    var after := Reconciled(options, wanted, services, answers);
    if !answers(name).Raced? {
      assert name !in Errors(options, wanted, services, answers);
      assert Lookup(after, name) == Lookup(Reconciled(options, wanted, services, Undisturbed()), name);
      SettledName(options, wanted, services, name);
    }
  }

  lemma NothingToWrite(options: Options, wanted: Services, services: Services)
    requires forall name :: WriteFor(options, wanted, services, name) == Leave
    ensures Reconciled(options, wanted, services, Undisturbed()) == services
  {
    var after := Reconciled(options, wanted, services, Undisturbed());
    forall name ensures (name in after <==> name in services) && (name in after ==> after[name] == services[name]) {
      assert WriteFor(options, wanted, services, name) == Leave;
    }
  }

  lemma SettledName(options: Options, wanted: Services, services: Services, name: string)
    requires forall n <- wanted :: Managed(wanted[n])
    ensures var after := Reconciled(options, wanted, services, Undisturbed());
            && WriteFor(options, wanted, after, name) == Leave
            && (name in Mine(options, wanted, after, Undisturbed()) <==> name in Mine(options, wanted, services, Undisturbed()))
            && (name in Mine(options, wanted, services, Undisturbed()) <==>
                  name in after && name in wanted && Managed(after[name]))
  {
  }

  /** The registrar reaches a fixpoint in one round. After a clean round, another with the same snapshot, and a
      discovery in which only spillway's own group versions have come or gone, writes nothing and reports the
      same count: the number of labelled APIServices that are wanted. */
  lemma SecondRoundWritesNothing(
    options: Options, caBundle: string, services: Services, groups: seq<ListedGroup>, groups': seq<ListedGroup>,
    served: set<GroupVersion>, wanted: Services, wanted': Services, answers: Answers)
    requires DotFree(served) && DotFree(Listed(groups))
    requires IsWanted(options, caBundle, served, Foreign(options, services, groups), wanted)
    requires Clean(options, wanted, services, answers)
    requires var after := Reconciled(options, wanted, services, answers);
             && OnlySpillwayMoved(options, services, after, groups, groups')
             && IsWanted(options, caBundle, served, Foreign(options, after, groups'), wanted')
    ensures var after := Reconciled(options, wanted, services, answers);
            && WriteCount(options, wanted', after) == 0 && Reconciled(options, wanted', after, Undisturbed()) == after
            && Mine(options, wanted', after, Undisturbed()) == Mine(options, wanted, services, answers)
                 == set name | name in after && name in wanted && Managed(after[name])
  {
    CleanIsUndisturbed(options, wanted, services, answers);
    var after := Reconciled(options, wanted, services, Undisturbed());
    var foreign, foreign' := Foreign(options, services, groups), Foreign(options, after, groups');
    forall gv | gv in served ensures gv in foreign <==> gv in foreign' {
      SameForeign(options, caBundle, services, groups, groups', served, wanted, gv);
    }
    assert served - foreign == served - foreign';
    SameWanted(options, caBundle, served, foreign, foreign', wanted, wanted');
    AllManaged(options, caBundle, served, foreign, wanted);
    SettledUndisturbed(options, wanted, services);
  }

  lemma AllManaged(options: Options, caBundle: string, served: set<GroupVersion>, foreign: set<GroupVersion>, wanted: Services)
    requires IsWanted(options, caBundle, served, foreign, wanted)
    ensures forall n <- wanted :: Managed(wanted[n])
  {
    forall n | n in wanted ensures Managed(wanted[n]) {
      var x :| x in served - foreign && NameOf(x) == n && wanted[n] == Desired(options, caBundle, x);
    }
  }
}
