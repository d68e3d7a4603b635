/** Reading the workspaces file (`pkg/cmd/server/workspaces.go`), and the fingerprint that tells an
    unchanged workspace from one to rebuild (`pkg/apiserver/workspacemanager.go`). */
module Configuration {
  import opened Wrappers
  import opened Text
  import opened Groups

  datatype Backend = Backend(requestTimeout: int, retries: int, failureThreshold: int, circuitCooldown: int)

  datatype WorkspaceConfig = WorkspaceConfig(
    name: string, kubeconfig: string, groups: Matcher, backend: Backend, impersonateUsers: bool)

  /** One entry of the file; the optional settings override the flags. */
  datatype WorkspaceEntry = WorkspaceEntry(
    name: string, kubeconfig: string, apiGroups: seq<string>,
    impersonateUsers: Option<bool>, requestTimeout: Option<int>, retries: Option<int>,
    failureThreshold: Option<int>, circuitCooldown: Option<int>)

  datatype Defaults = Defaults(backend: Backend, impersonateUsers: bool)

  datatype LoadError =
    | NoWorkspaces | NoName | ListedTwice(name: string) | NoKubeconfig(name: string)
    | BadGroups(name: string, reason: PatternError)
    | GroupTaken(owner: string, claimant: string, group: string)
    | BadBackend(name: string)

  function Or<T>(setting: Option<T>, inherited: T): T {
    match setting case Some(v) => v case None => inherited
  }

  function Settings(entry: WorkspaceEntry, defaults: Defaults): Backend {
    Backend(Or(entry.requestTimeout, defaults.backend.requestTimeout), Or(entry.retries, defaults.backend.retries),
            Or(entry.failureThreshold, defaults.backend.failureThreshold),
            Or(entry.circuitCooldown, defaults.backend.circuitCooldown))
  }

  predicate ValidBackend(b: Backend) {
    b.requestTimeout > 0 && b.retries >= 0 && b.failureThreshold >= 1 && b.circuitCooldown > 0
  }

  function Configured(entry: WorkspaceEntry, defaults: Defaults): WorkspaceConfig
    requires Parsed(entry.apiGroups).Ok?
  {
    WorkspaceConfig(entry.name, entry.kubeconfig, Parsed(entry.apiGroups).value, Settings(entry, defaults),
                    Or(entry.impersonateUsers, defaults.impersonateUsers))
  }

  predicate WellFormed(entry: WorkspaceEntry, defaults: Defaults) {
    && entry.name != "" && entry.kubeconfig != ""
    && Parsed(entry.apiGroups).Ok?
    && ValidBackend(Settings(entry, defaults))
  }

  function NamedBy(entry: WorkspaceEntry): set<string> {
    match Parsed(entry.apiGroups)
    case Ok(matcher) => matcher.Named()
    case Err(_) => {}
  }

  /** The group is named outright, and not excluded, by the entry. */
  predicate Claims(entry: WorkspaceEntry, group: string) {
    group in NamedBy(entry)
  }

  predicate Compatible(a: WorkspaceEntry, b: WorkspaceEntry) {
    a.name != b.name && NamedBy(a) !! NamedBy(b)
  }

  predicate Loadable(entries: seq<WorkspaceEntry>, defaults: Defaults) {
    && (forall i | 0 <= i < |entries| :: WellFormed(entries[i], defaults))
    && (forall i, j | 0 <= i < j < |entries| :: Compatible(entries[i], entries[j]))
  }

  /** Some setting, given or inherited, is one no backend can have: a timeout or cooldown that is not positive, a negative
      number of retries, or no failure to open the circuit at. */
  predicate SettingOutOfRange(entry: WorkspaceEntry, defaults: Defaults) {
    var timeout := if entry.requestTimeout.Some? then entry.requestTimeout.value else defaults.backend.requestTimeout;
    var retries := if entry.retries.Some? then entry.retries.value else defaults.backend.retries;
    var threshold := if entry.failureThreshold.Some? then entry.failureThreshold.value else defaults.backend.failureThreshold;
    var cooldown := if entry.circuitCooldown.Some? then entry.circuitCooldown.value else defaults.backend.circuitCooldown;
    timeout <= 0 || retries < 0 || threshold < 1 || cooldown <= 0
  }

  /** Why `entries[i]`, the first entry that cannot be taken, is refused. */
  ghost predicate RefusedAt(entries: seq<WorkspaceEntry>, defaults: Defaults, i: nat, e: LoadError)
    requires i < |entries|
  {
    var entry := entries[i];
    && Loadable(entries[..i], defaults)
    && match e
       case NoWorkspaces => false
       case NoName => entry.name == ""
       case ListedTwice(name) => name == entry.name && exists j | 0 <= j < i :: entries[j].name == name
       case NoKubeconfig(name) => name == entry.name && entry.kubeconfig == ""
       case BadGroups(name, reason) => name == entry.name && Parsed(entry.apiGroups) == Err(reason)
       case GroupTaken(owner, claimant, group) =>
         && claimant == entry.name && Claims(entry, group)
         && exists j | 0 <= j < i :: entries[j].name == owner && Claims(entries[j], group)
       case BadBackend(name) => name == entry.name && SettingOutOfRange(entry, defaults)
  }

  /** The setting of the entry, where there is one, and else that of the flags. */
  ghost predicate Inherits<T(!new)>(setting: Option<T>, flag: T, loaded: T) {
    match setting
    case Some(value) => loaded == value
    case None => loaded == flag
  }

  /** What a workspace is loaded as. */
  ghost predicate LoadedAs(entry: WorkspaceEntry, defaults: Defaults, config: WorkspaceConfig) {
    && config.name == entry.name && config.kubeconfig == entry.kubeconfig
    && Parsed(entry.apiGroups) == Ok(config.groups)
    && Inherits(entry.impersonateUsers, defaults.impersonateUsers, config.impersonateUsers)
    && Inherits(entry.requestTimeout, defaults.backend.requestTimeout, config.backend.requestTimeout)
    && Inherits(entry.retries, defaults.backend.retries, config.backend.retries)
    && Inherits(entry.failureThreshold, defaults.backend.failureThreshold, config.backend.failureThreshold)
    && Inherits(entry.circuitCooldown, defaults.backend.circuitCooldown, config.backend.circuitCooldown)
    && config.name != "" && config.kubeconfig != "" && config.backend.requestTimeout > 0 && config.backend.retries >= 0
    && config.backend.failureThreshold >= 1 && config.backend.circuitCooldown > 0
  }

  /** Every claimed group, with the name of the earlier entry that claims it. */
  ghost predicate ClaimedBy(claimed: map<string, string>, entries: seq<WorkspaceEntry>) {
    && (forall group <- claimed :: exists j | 0 <= j < |entries| ::
          entries[j].name == claimed[group] && Claims(entries[j], group))
    && (forall j, group | 0 <= j < |entries| && Claims(entries[j], group) :: group in claimed)
  }

  /** The file is accepted exactly when every entry is well formed, names are distinct and no group
      is named by two entries; the result is then the entries with the flags filled in. */
  method LoadWorkspaces(entries: seq<WorkspaceEntry>, defaults: Defaults)
    returns (r: Result<seq<WorkspaceConfig>, LoadError>)
    ensures r.Ok? <==> entries != [] && Loadable(entries, defaults)
    ensures r.Ok? ==> |r.value| == |entries|
    ensures r.Ok? ==> forall i | 0 <= i < |entries| ::
              Parsed(entries[i].apiGroups).Ok? && r.value[i] == Configured(entries[i], defaults)
    ensures r.Ok? ==> forall i | 0 <= i < |entries| :: LoadedAs(entries[i], defaults, r.value[i])
    ensures r.Err? ==> if entries == [] then r.error == NoWorkspaces
                       else exists i: nat | i < |entries| :: RefusedAt(entries, defaults, i, r.error)
  {
    if entries == [] {
      return Err(NoWorkspaces);
    }
    var names: set<string> := {};
    var claimed: map<string, string> := map[];
    var configs: seq<WorkspaceConfig> := [];
    for i := 0 to |entries|
      invariant Loadable(entries[..i], defaults)
      invariant names == set j | 0 <= j < i :: entries[j].name
      invariant ClaimedBy(claimed, entries[..i])
      invariant |configs| == i
      invariant forall j | 0 <= j < i ::
                  Parsed(entries[j].apiGroups).Ok? && configs[j] == Configured(entries[j], defaults)
    {
      var entry := entries[i];
      var fault := CheckEntry(entry, names, claimed, defaults);
      if fault.Some? {
        Refusal(entries, defaults, i, names, claimed, fault.value);
        return Err(fault.value);
      }
      names := names + {entry.name};
      ghost var before := claimed;
      claimed := Claim(claimed, NamedBy(entry), entry.name);
      Admitted(entries, defaults, i, before, claimed);
      configs := configs + [Configured(entry, defaults)];
    }
    assert entries[..|entries|] == entries;
    return Ok(configs);
  }

  function Claim(claimed: map<string, string>, groups: set<string>, name: string): map<string, string> {
    claimed + map group | group in groups :: name
  }

  /** The checks of one entry, in their order, against what earlier entries took. */
  method CheckEntry(entry: WorkspaceEntry, names: set<string>, claimed: map<string, string>, defaults: Defaults)
    returns (fault: Option<LoadError>)
    ensures fault == None <==>
              WellFormed(entry, defaults) && entry.name !in names && NamedBy(entry) !! claimed.Keys
    ensures fault.Some? ==> match fault.value
              case NoWorkspaces => false
              case NoName => entry.name == ""
              case ListedTwice(name) => name == entry.name && name in names
              case NoKubeconfig(name) => name == entry.name && entry.kubeconfig == ""
              case BadGroups(name, reason) => name == entry.name && Parsed(entry.apiGroups) == Err(reason)
              case GroupTaken(owner, claimant, group) =>
                claimant == entry.name && Claims(entry, group) && group in claimed && claimed[group] == owner
              case BadBackend(name) => name == entry.name && !ValidBackend(Settings(entry, defaults))
  {
    if entry.name == "" {
      return Some(NoName);
    } else if entry.name in names {
      return Some(ListedTwice(entry.name));
    } else if entry.kubeconfig == "" {
      return Some(NoKubeconfig(entry.name));
    }
    var matcher := ParseGroupMatcher(entry.apiGroups);
    if matcher.Err? {
      return Some(BadGroups(entry.name, matcher.error));
    }
    var groups := matcher.value.View().ExactNames();
    for k := 0 to |groups|
      invariant forall j | 0 <= j < k :: groups[j] !in claimed
    {
      if groups[k] in claimed {
        return Some(GroupTaken(claimed[groups[k]], entry.name, groups[k]));
      }
    }
    if !ValidBackend(Settings(entry, defaults)) {
      return Some(BadBackend(entry.name));
    }
    return None;
  }

  lemma Refusal(entries: seq<WorkspaceEntry>, defaults: Defaults, i: nat,
                names: set<string>, claimed: map<string, string>, e: LoadError)
    requires i < |entries| && Loadable(entries[..i], defaults)
    requires names == set j | 0 <= j < i :: entries[j].name
    requires ClaimedBy(claimed, entries[..i])
    requires match e
             case NoWorkspaces => false
             case NoName => entries[i].name == ""
             case ListedTwice(name) => name == entries[i].name && name in names
             case NoKubeconfig(name) => name == entries[i].name && entries[i].kubeconfig == ""
             case BadGroups(name, reason) => name == entries[i].name && Parsed(entries[i].apiGroups) == Err(reason)
             case GroupTaken(owner, claimant, group) =>
               claimant == entries[i].name && Claims(entries[i], group) && group in claimed && claimed[group] == owner
             case BadBackend(name) => name == entries[i].name && !ValidBackend(Settings(entries[i], defaults))
    ensures RefusedAt(entries, defaults, i, e)
    ensures !Loadable(entries, defaults)
  {
    var entry := entries[i];
    match e
    case ListedTwice(name) =>
      var j :| 0 <= j < i && entries[j].name == name;
      assert !Compatible(entries[j], entries[i]);
    case GroupTaken(owner, claimant, group) =>
      var j :| 0 <= j < |entries[..i]| && entries[..i][j].name == owner && Claims(entries[..i][j], group);
      assert entries[j].name == owner && Claims(entries[j], group);
      assert !Compatible(entries[j], entries[i]);
    case _ =>
  }

  lemma Admitted(entries: seq<WorkspaceEntry>, defaults: Defaults, i: nat,
                 before: map<string, string>, after: map<string, string>)
    requires i < |entries| && Loadable(entries[..i], defaults) && WellFormed(entries[i], defaults)
    requires forall j | 0 <= j < i :: entries[j].name != entries[i].name
    requires ClaimedBy(before, entries[..i])
    requires NamedBy(entries[i]) !! before.Keys
    requires after == Claim(before, NamedBy(entries[i]), entries[i].name)
    ensures Loadable(entries[..i + 1], defaults)
    ensures ClaimedBy(after, entries[..i + 1])
  {
    var earlier, upTo := entries[..i], entries[..i + 1];
    assert upTo == earlier + [entries[i]];
    forall j | 0 <= j < i ensures Compatible(earlier[j], entries[i]) {
      StillApart(before, earlier, entries[i], j);
    }
    StillClaimed(before, earlier, entries[i]);
  }

  lemma StillApart(claimed: map<string, string>, earlier: seq<WorkspaceEntry>, entry: WorkspaceEntry, j: nat)
    requires ClaimedBy(claimed, earlier) && NamedBy(entry) !! claimed.Keys
    requires j < |earlier| && earlier[j].name != entry.name
    ensures Compatible(earlier[j], entry)
  {
    forall group | group in NamedBy(earlier[j]) ensures group in claimed {
      assert Claims(earlier[j], group);
    }
  }

  lemma StillClaimed(claimed: map<string, string>, earlier: seq<WorkspaceEntry>, entry: WorkspaceEntry)
    requires ClaimedBy(claimed, earlier) && NamedBy(entry) !! claimed.Keys
    ensures ClaimedBy(Claim(claimed, NamedBy(entry), entry.name), earlier + [entry])
  {
    var after, upTo := Claim(claimed, NamedBy(entry), entry.name), earlier + [entry];
    forall group | group in after
      ensures exists j | 0 <= j < |upTo| :: upTo[j].name == after[group] && Claims(upTo[j], group)
    {
      if Claims(entry, group) {
        assert upTo[|earlier|].name == after[group];
      } else {
        var j :| 0 <= j < |earlier| && earlier[j].name == claimed[group] && Claims(earlier[j], group);
        assert upTo[j] == earlier[j];
      }
    }
  }

  /** No group is named by two of the loaded workspaces, and no name is used twice. */
  lemma LoadedDisjoint(entries: seq<WorkspaceEntry>, defaults: Defaults, i: nat, j: nat)
    requires Loadable(entries, defaults) && i < |entries| && j < |entries| && i != j
    ensures Configured(entries[i], defaults).name != Configured(entries[j], defaults).name
    ensures Configured(entries[i], defaults).groups.Named() !! Configured(entries[j], defaults).groups.Named()
  {
    assert Compatible(entries[if i < j then i else j], entries[if i < j then j else i]);
  }

  /** The group is one of the patterns, in full, and the patterns together match it. */
  ghost predicate ServesByName(entry: WorkspaceEntry, group: string) {
    && Declares(entry.apiGroups, Exact(group))
    && Parsed(entry.apiGroups).Ok? && Parsed(entry.apiGroups).value.Matches(group)
  }

  lemma NamedIsServed(entry: WorkspaceEntry)
    ensures forall group :: group in NamedBy(entry) <==> ServesByName(entry, group)
  {
    if Parsed(entry.apiGroups).Ok? {
      ParsedDeclares(entry.apiGroups);
      var m := Parsed(entry.apiGroups).value;
      forall group ensures Declares(entry.apiGroups, Exact(group)) <==> group in m.exact {
        assert Holds(m, Exact(group)) <==> group in m.exact;
      }
    }
  }

  lemma NamedOnce(a: WorkspaceEntry, b: WorkspaceEntry)
    ensures NamedBy(a) !! NamedBy(b) <==> forall group :: !(ServesByName(a, group) && ServesByName(b, group))
  {
    NamedIsServed(a);
    NamedIsServed(b);
  }

  /** A file whose entries are well formed and named apart is accepted if and only if no group is served by name
      by two of its workspaces; naming it twice is no fault where all but one of them exclude it. */
  lemma AcceptedServeOnce(entries: seq<WorkspaceEntry>, defaults: Defaults)
    requires forall i | 0 <= i < |entries| :: WellFormed(entries[i], defaults)
    requires forall i, j | 0 <= i < j < |entries| :: entries[i].name != entries[j].name
    ensures Loadable(entries, defaults) <==>
              forall i, j, group | 0 <= i < j < |entries| ::
                !(ServesByName(entries[i], group) && ServesByName(entries[j], group))
  {
    forall i, j | 0 <= i < j < |entries|
      ensures Compatible(entries[i], entries[j]) <==>
                forall group :: !(ServesByName(entries[i], group) && ServesByName(entries[j], group))
    {
      NamedOnce(entries[i], entries[j]);
    }
  }

  // -------- fingerprints --------

  const NUL := '\0'

  /** How Go prints integers and durations. Only that distinct values print differently, and
      without a NUL, matters. */
  datatype Formats = Formats(decimal: int -> string, duration: int -> string) {
    ghost predicate Faithful() {
      && (forall m, n :: decimal(m) == decimal(n) ==> m == n)
      && (forall m, n :: duration(m) == duration(n) ==> m == n)
      && (forall n :: NUL !in decimal(n) && NUL !in duration(n))
    }
  }

  function BoolText(b: bool): string {
    if b then "true" else "false"
  }

  function FingerprintParts(c: WorkspaceConfig, f: Formats): seq<string> {
    [c.name, c.kubeconfig, c.groups.String(), BoolText(c.impersonateUsers),
     f.duration(c.backend.requestTimeout), f.decimal(c.backend.retries),
     f.decimal(c.backend.failureThreshold), f.duration(c.backend.circuitCooldown)]
  }

  function Fingerprint(c: WorkspaceConfig, f: Formats): string {
    Join(FingerprintParts(c, f), NUL)
  }

  predicate Plain(entry: WorkspaceEntry) {
    && NUL !in entry.name && NUL !in entry.kubeconfig
    && forall p <- entry.apiGroups :: ',' !in p && NUL !in p
  }

  lemma PrintsWithoutNul(patterns: seq<string>)
    requires Parsed(patterns).Ok? && forall p <- patterns :: NUL !in p
    ensures NUL !in Parsed(patterns).value.String()
  {
    var m := Parsed(patterns).value;
    ParsedDeclares(patterns);
    forall e | e in m.Entries() ensures NUL !in Written(e) {
      EntriesHeld(m, e);
      DeclaredIsWritten(patterns, e);
    }
    JoinFree(WrittenAll(m.Entries()), ',', NUL);
  }

  lemma PartsWithoutNul(entry: WorkspaceEntry, defaults: Defaults, f: Formats)
    requires WellFormed(entry, defaults) && Plain(entry) && f.Faithful()
    ensures forall part <- FingerprintParts(Configured(entry, defaults), f) :: NUL !in part
  {
    PrintsWithoutNul(entry.apiGroups);
    PrintedWithoutNul(Configured(entry, defaults), f);
  }

  lemma PrintedWithoutNul(c: WorkspaceConfig, f: Formats)
    requires f.Faithful() && NUL !in c.name && NUL !in c.kubeconfig && NUL !in c.groups.String()
    ensures forall part <- FingerprintParts(c, f) :: NUL !in part
  {
    assert NUL !in BoolText(c.impersonateUsers);
    AllFree(c.name, c.kubeconfig, c.groups.String(), BoolText(c.impersonateUsers),
            f.duration(c.backend.requestTimeout), f.decimal(c.backend.retries),
            f.decimal(c.backend.failureThreshold), f.duration(c.backend.circuitCooldown));
  }

  lemma AllFree(p: string, q: string, r: string, s: string, t: string, u: string, v: string, w: string)
    requires NUL !in p && NUL !in q && NUL !in r && NUL !in s && NUL !in t && NUL !in u && NUL !in v && NUL !in w
    ensures forall part <- [p, q, r, s, t, u, v, w] :: NUL !in part
  {
  }

  /** Equal fingerprints mean equal settings, and so the same groups served. */
  lemma FingerprintSound(a: WorkspaceEntry, b: WorkspaceEntry, defaultsA: Defaults, defaultsB: Defaults, f: Formats)
    requires f.Faithful()
    requires WellFormed(a, defaultsA) && Plain(a) && WellFormed(b, defaultsB) && Plain(b)
    requires Fingerprint(Configured(a, defaultsA), f) == Fingerprint(Configured(b, defaultsB), f)
    ensures Configured(a, defaultsA) == Configured(b, defaultsB)
  {
    var x, y := Configured(a, defaultsA), Configured(b, defaultsB);
    var px, py := FingerprintParts(x, f), FingerprintParts(y, f);
    PartsWithoutNul(a, defaultsA, f);
    PartsWithoutNul(b, defaultsB, f);
    JoinInjective(px, py, NUL);
    assert px[0] == py[0] && px[1] == py[1] && px[2] == py[2] && px[3] == py[3];
    assert px[4] == py[4] && px[5] == py[5] && px[6] == py[6] && px[7] == py[7];
    assert "true"[0] != "false"[0];
    forall p | p in a.apiGroups + b.apiGroups ensures ',' !in p {
      assert p in a.apiGroups || p in b.apiGroups;
    }
    PrintInjective(a.apiGroups, b.apiGroups);
  }
}
