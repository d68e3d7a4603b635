/** Admitting a patch on the object it would produce (`pkg/apiserver/admission.go`,
    `pkg/apiserver/proxy.go`): fetch, dry run, admit, and then either the patch itself or a guarded PUT
    of what the webhooks made of it, while other writers change the object at any moment.

    kcp keeps versions as the Kubernetes API Conventions ask ("Concurrency Control and Consistency"):
    every change gives a larger one, and a PUT under another version conflicts. How a patch applies and
    what webhooks do are arbitrary functions. */
module PatchAdmission {
  import opened Wrappers

  datatype Object<C> = Object(content: C, version: nat)

  /** An object on its way to be written; the version is the guard, if it has one. */
  datatype Draft<C> = Draft(content: C, version: Option<nat>)

  datatype Operation = Create | Update

  /** Before any round trip: admission does not concern this request, or its caller is unknown. */
  datatype Gate = Skips | NoCaller | Runs

  /** What decides that: there is an admission chain and a way to ask kcp, the request is a patch of a resource, a
      webhook or policy watches updates of it, the chain handles writes, and the caller is known. */
  datatype Facts = Facts(gated: bool, resourcePatch: bool, watched: bool, handled: bool, caller: bool)

  function GateOf(facts: Facts): (gate: Gate)
    ensures gate == Skips <==> !facts.gated || !facts.resourcePatch || !facts.watched || !facts.handled
    ensures gate == Runs ==> facts.caller
    ensures gate == NoCaller ==> !facts.caller
  {
    if !facts.gated then Skips
    else if !facts.resourcePatch then Skips
    else if !facts.watched then Skips
    else if !facts.handled then Skips
    else if !facts.caller then NoCaller
    else Runs
  }

  /** `apply` is the client's patch, which may ask for a version, and `admit` the webhooks' verdict; `None` is a
      refusal in both. A PUT
      without a version is taken on an existing object if `unconditional`, on a missing one if
      `createOnPut`. */
  datatype World<!C> = World(
    facts: Facts,
    apply: Option<Object<C>> -> Option<C>,
    admit: (Operation, Option<Object<C>>, Draft<C>) -> Option<Draft<C>>,
    unconditional: bool, createOnPut: bool) {
    function gate(): Gate { GateOf(facts) }
  }

  /** `Unanswered`: kcp had the request and did with it what it does, but its answer was lost. */
  datatype Result = Refused | Rejected | Unsent | Unanswered | Done

  /** What admission saw of a patch it left alone: the fetched object, the one the dry run was resolved against, the
      moments of both, and the result. */
  datatype Admitted<C> = Admitted(
    prior: Option<Object<C>>, fetchedAt: nat, base: Option<Object<C>>, resolvedAt: nat, draft: Draft<C>)

  /** Where the request is. `fetchedAt` and `resolvedAt` are the moments of the fetch and the dry run,
      positions in the store's log; `base` is what the dry run was resolved against. */
  datatype Phase<C> =
    | Received
    | Fetched(prior: Option<Object<C>>, fetchedAt: nat)
    | Resolved(prior: Option<Object<C>>, fetchedAt: nat, base: Option<Object<C>>, resolvedAt: nat, draft: Draft<C>)
    | Forwarding(seen: Option<Admitted<C>>)
    | Replacing(prior: Option<Object<C>>, fetchedAt: nat, base: Option<Object<C>>, resolvedAt: nat,
                admitted: Draft<C>, replacement: Draft<C>)
    | Ended(result: Result)

  /** The object at the request's path, the last version given out, and everything the object has been. */
  datatype Store<C> = Store(held: Option<Object<C>>, clock: nat, log: seq<Option<Object<C>>>)

  datatype State<C> = State(store: Store<C>, phase: Phase<C>)

  datatype Action<C> =
    | OtherWrites(content: C)
    | OtherDeletes
    | Skip
    | FailUnknown
    | Fetch(ok: bool)
    | DryRun(ok: bool)
    | Admit
    | Forward(answered: bool)
    | LoseForward

  function Content<C>(held: Option<Object<C>>): Option<C> {
    match held case Some(o) => Some(o.content) case None => None
  }

  function Version<C>(held: Option<Object<C>>): Option<nat> {
    match held case Some(o) => Some(o.version) case None => None
  }

  /** Writing what is already there changes nothing. */
  function Commit<C(==)>(s: Store<C>, content: C): Store<C> {
    if Content(s.held) == Some(content) then s
    else
      var written := Some(Object(content, s.clock + 1));
      Store(written, s.clock + 1, s.log + [written])
  }

  function Delete<C>(s: Store<C>): Store<C> {
    if s.held.None? then s else s.(held := None, log := s.log + [None])
  }

  /** The client's own patch, applied to the object as it is now. */
  function Patch<C(==)>(w: World<C>, s: Store<C>): Store<C> {
    match w.apply(s.held)
    case Some(content) => Commit(s, content)
    case None => s
  }

  predicate PutAccepted<C>(w: World<C>, s: Store<C>, version: Option<nat>) {
    match version
    case Some(v) => s.held.Some? && s.held.value.version == v
    case None => if s.held.Some? then w.unconditional else w.createOnPut
  }

  predicate Enabled<C>(w: World<C>, s: State<C>, a: Action<C>) {
    match a
    case OtherWrites(_) => true
    case OtherDeletes => true
    case Skip => s.phase.Received? && w.gate().Skips?
    case FailUnknown => s.phase.Received? && w.gate().NoCaller?
    case Fetch(_) => s.phase.Received? && w.gate().Runs?
    case DryRun(_) => s.phase.Fetched?
    case Admit => s.phase.Resolved?
    case Forward(_) => s.phase.Forwarding? || s.phase.Replacing?
    case LoseForward => s.phase.Forwarding? || s.phase.Replacing?
  }

  function Now<C>(s: Store<C>): int {
    |s.log| - 1
  }

  function Do<C(==)>(w: World<C>, s: State<C>, a: Action<C>): State<C>
    requires s.store.log != [] && Enabled(w, s, a)
    ensures Do(w, s, a).store.log != []
  {
    match a
    case OtherWrites(content) => s.(store := Commit(s.store, content))
    case OtherDeletes => s.(store := Delete(s.store))
    case Skip => s.(phase := Forwarding(None))
    case FailUnknown => s.(phase := Ended(Refused))
    case Fetch(ok) => s.(phase := Fetched(if ok then s.store.held else None, Now(s.store)))
    case DryRun(ok) =>
      var base := s.store.held;
      var resolved := w.apply(base);
      // A patch that cannot be resolved is forwarded for kcp to answer.
      if ok && resolved.Some? then
        s.(phase := Resolved(s.phase.prior, s.phase.fetchedAt, base, Now(s.store), Draft(resolved.value, Version(base))))
      else s.(phase := Forwarding(None))
    case Admit =>
      var p := s.phase;
      var operation := if p.prior.Some? then Update else Create;
      (match w.admit(operation, p.prior, p.draft)
       case None => s.(phase := Ended(Refused))
       case Some(admitted) =>
         if admitted == p.draft then
           s.(phase := Forwarding(Some(Admitted(p.prior, p.fetchedAt, p.base, p.resolvedAt, p.draft))))
         else
           var guarded := if p.prior.Some? then admitted.(version := Some(p.prior.value.version)) else admitted;
           s.(phase := Replacing(p.prior, p.fetchedAt, p.base, p.resolvedAt, admitted, guarded)))
    case Forward(answered) =>
      var taken := if s.phase.Forwarding? then w.apply(s.store.held).Some?
                   else PutAccepted(w, s.store, s.phase.replacement.version);
      var store := if s.phase.Forwarding? then Patch(w, s.store)
                   else if taken then Commit(s.store, s.phase.replacement.content)
                   else s.store;
      State(store, Ended(if !answered then Unanswered else if taken then Done else Rejected))
    case LoseForward => s.(phase := Ended(Unsent))
  }

  /** Any store to begin with. */
  ghost predicate Initial<C>(s: State<C>) {
    && s.phase.Received? && s.store.log == [s.store.held]
    && (s.store.held.Some? ==> s.store.held.value.version <= s.store.clock)
  }

  ghost predicate IsRun<C>(w: World<C>, s: State<C>, actions: seq<Action<C>>)
    decreases |actions|
  {
    s.store.log != []
    && (actions == [] || (Enabled(w, s, actions[0]) && IsRun(w, Do(w, s, actions[0]), actions[1..])))
  }

  ghost function After<C>(w: World<C>, s: State<C>, actions: seq<Action<C>>): (t: State<C>)
    requires IsRun(w, s, actions)
    ensures t.store.log != []
    decreases |actions|
  {
    if actions == [] then s else After(w, Do(w, s, actions[0]), actions[1..])
  }

  // -------- invariants --------

  /** Versions only grow: the object under a version is the same object, and was there all the time
      between two moments it was seen at. */
  ghost predicate LogOk<C>(s: Store<C>) {
    && s.log != [] && s.log[Now(s)] == s.held
    && (forall t | 0 <= t < |s.log| && s.log[t].Some? :: s.log[t].value.version <= s.clock)
    && (forall t, m, u | 0 <= t <= m <= u < |s.log| && s.log[t].Some? && s.log[u].Some?
                         && s.log[t].value.version == s.log[u].value.version :: s.log[m] == s.log[t])
  }

  ghost predicate Seen<C>(s: Store<C>, held: Option<Object<C>>, at: nat) {
    at < |s.log| && s.log[at] == held
  }

  ghost predicate ResolvedFrom<C>(w: World<C>, s: Store<C>, prior: Option<Object<C>>, fetchedAt: nat,
                                      base: Option<Object<C>>, resolvedAt: nat, draft: Draft<C>) {
    && fetchedAt <= resolvedAt && (prior.Some? ==> Seen(s, prior, fetchedAt)) && Seen(s, base, resolvedAt)
    && w.apply(base) == Some(draft.content) && draft.version == Version(base)
  }

  ghost predicate PhaseOk<C>(w: World<C>, s: Store<C>, p: Phase<C>) {
    match p
    case Fetched(prior, at) => at < |s.log| && (prior.Some? ==> Seen(s, prior, at))
    case Resolved(prior, fetchedAt, base, resolvedAt, draft) => ResolvedFrom(w, s, prior, fetchedAt, base, resolvedAt, draft)
    case Forwarding(Some(a)) =>
      && ResolvedFrom(w, s, a.prior, a.fetchedAt, a.base, a.resolvedAt, a.draft)
      && w.admit(if a.prior.Some? then Update else Create, a.prior, a.draft) == Some(a.draft)
    case Replacing(prior, fetchedAt, base, resolvedAt, admitted, replacement) =>
      && w.apply(base).Some?
      && var draft := Draft(w.apply(base).value, Version(base));
      && ResolvedFrom(w, s, prior, fetchedAt, base, resolvedAt, draft)
      && w.admit(if prior.Some? then Update else Create, prior, draft) == Some(admitted) && admitted != draft
      && replacement.content == admitted.content
      && replacement.version == if prior.Some? then Some(prior.value.version) else admitted.version
    case _ => true
  }

  ghost predicate Inv<C>(w: World<C>, s: State<C>) {
    LogOk(s.store) && PhaseOk(w, s.store, s.phase)
  }

  lemma CommitOk<C>(s: Store<C>, content: C)
    requires LogOk(s)
    ensures LogOk(Commit(s, content)) && s.log <= Commit(s, content).log
  {
  }

  lemma DeleteOk<C>(s: Store<C>)
    requires LogOk(s)
    ensures LogOk(Delete(s)) && s.log <= Delete(s).log
  {
  }

  lemma StepKeepsInv<C>(w: World<C>, s: State<C>, a: Action<C>)
    requires Inv(w, s) && Enabled(w, s, a)
    ensures Inv(w, Do(w, s, a))
  {
    match a
    case OtherWrites(content) => CommitOk(s.store, content);
    case OtherDeletes => DeleteOk(s.store);
    case Forward(_) =>
      if s.phase.Forwarding? {
        var patched := w.apply(s.store.held);
        if patched.Some? { CommitOk(s.store, patched.value); }
      } else {
        CommitOk(s.store, s.phase.replacement.content);
      }
    case _ =>
  }

  lemma {:induction false} RunKeepsInv<C>(w: World<C>, s: State<C>, actions: seq<Action<C>>)
    requires Inv(w, s) && IsRun(w, s, actions)
    ensures Inv(w, After(w, s, actions))
    decreases |actions|
  {
    if actions != [] {
      StepKeepsInv(w, s, actions[0]);
      RunKeepsInv(w, Do(w, s, actions[0]), actions[1..]);
    }
  }

  // -------- no lost update --------

  /** Patching and then mutating the object as it is now, in one step. */
  function PatchThenMutate<C(==)>(w: World<C>, s: Store<C>, operation: Operation, prior: Option<Object<C>>): Store<C> {
    match w.apply(s.held)
    case None => s
    case Some(content) =>
      match w.admit(operation, prior, Draft(content, Version(s.held)))
      case None => s
      case Some(admitted) => Commit(s, admitted.content)
  }

  ghost predicate UnchangedSince<C>(s: Store<C>, at: nat) {
    at < |s.log| && forall t | at <= t < |s.log| :: s.log[t] == s.log[at]
  }

  /** In every interleaving with other writers: if the old object was read and the replacement is
      accepted, nothing changed from the fetch to the PUT, the dry run was resolved against that same
      object, and the PUT leaves what one atomic patch-then-mutate would. If it is not accepted the
      store is untouched. */
  lemma NoLostUpdate<C>(w: World<C>, initial: State<C>, actions: seq<Action<C>>, answered: bool)
    requires Initial(initial) && IsRun(w, initial, actions)
    requires var s := After(w, initial, actions); s.phase.Replacing? && s.phase.prior.Some?
    ensures var s := After(w, initial, actions); var t := Do(w, s, Forward(answered));
            if PutAccepted(w, s.store, s.phase.replacement.version) then
              && UnchangedSince(s.store, s.phase.fetchedAt)
              && s.phase.prior == s.phase.base == s.store.held
              && t.store == PatchThenMutate(w, s.store, Update, s.store.held)
            else t.store == s.store
  {
    RunKeepsInv(w, initial, actions);
    var s := After(w, initial, actions);
    var p := s.phase;
    if PutAccepted(w, s.store, p.replacement.version) {
      var now := |s.store.log| - 1;
      assert s.store.log[now] == s.store.held;
      forall m | p.fetchedAt <= m <= now ensures s.store.log[m] == s.store.log[p.fetchedAt] {
      }
    }
  }

  /** When the old object could not be read, the guard is what the webhooks left of the dry run's
      version. If they left it alone, nothing changed from the dry run to an accepted PUT. */
  lemma NoLostUpdateSinceDryRun<C>(w: World<C>, initial: State<C>, actions: seq<Action<C>>, answered: bool)
    requires Initial(initial) && IsRun(w, initial, actions)
    requires var s := After(w, initial, actions);
             && s.phase.Replacing? && s.phase.prior.None? && s.phase.base.Some?
             && s.phase.admitted.version == Version(s.phase.base)
    ensures var s := After(w, initial, actions); var t := Do(w, s, Forward(answered));
            if PutAccepted(w, s.store, s.phase.replacement.version) then
              && UnchangedSince(s.store, s.phase.resolvedAt)
              && t.store == PatchThenMutate(w, s.store, Create, None)
            else t.store == s.store
  {
    RunKeepsInv(w, initial, actions);
    var s := After(w, initial, actions);
    var p := s.phase;
    if PutAccepted(w, s.store, p.replacement.version) {
      var now := |s.store.log| - 1;
      assert s.store.log[now] == s.store.held;
      forall m | p.resolvedAt <= m <= now ensures s.store.log[m] == s.store.log[p.resolvedAt] {
      }
    }
  }

  // -------- which guards hold --------

  ghost predicate ByOthers<C>(actions: seq<Action<C>>) {
    forall a <- actions :: a.OtherWrites? || a.OtherDeletes?
  }

  /** The store after other writers' steps. */
  function OthersAfter<C(==)>(s: Store<C>, steps: seq<Action<C>>): Store<C>
    decreases |steps|
  {
    if steps == [] then s
    else OthersAfter(match steps[0]
                     case OtherWrites(content) => Commit(s, content)
                     case OtherDeletes => Delete(s)
                     case _ => s,
                     steps[1..])
  }

  lemma {:induction false} OthersKeep<C>(s: Store<C>, steps: seq<Action<C>>)
    requires LogOk(s) && ByOthers(steps)
    ensures var t := OthersAfter(s, steps);
            && LogOk(t) && s.log <= t.log && s.clock <= t.clock
            && (t.held.Some? ==> t.held == s.held || t.held.value.version > s.clock)
    decreases |steps|
  {
    if steps != [] {
      assert steps[0] in steps && forall a <- steps[1..] :: a in steps;
      match steps[0] {
        case OtherWrites(content) =>
          CommitOk(s, content);
          OthersKeep(Commit(s, content), steps[1..]);
        case OtherDeletes =>
          DeleteOk(s);
          OthersKeep(Delete(s), steps[1..]);
      }
    }
  }

  /** Whatever others do before it arrives, the PUT is taken only on the object the dry run was resolved against,
      and is then one atomic patch-then-mutate. */
  ghost predicate Safe<C(!new)>(w: World<C>, s: State<C>)
    requires s.phase.Replacing?
  {
    forall steps | ByOthers(steps) ::
      var t := OthersAfter(s.store, steps);
      PutAccepted(w, t, s.phase.replacement.version) ==>
        && t.held == s.phase.base
        && Commit(t, s.phase.replacement.content)
             == PatchThenMutate(w, t, if s.phase.prior.Some? then Update else Create, s.phase.prior)
  }

  /** The guard holds: it is the version the dry run saw, or one no object will have again; and there may be none
      only where kcp takes no such PUT on an object, nor, if the dry run saw one, in its place. */
  predicate Guarded<C>(w: World<C>, s: Store<C>, base: Option<Object<C>>, guard: Option<nat>) {
    match guard
    case Some(v) => Version(base) == Some(v) || (v <= s.clock && Version(s.held) != Some(v))
    case None => !w.unconditional && (base.None? || !w.createOnPut)
  }

  lemma GuardHolds<C(!new)>(w: World<C>, s: State<C>, steps: seq<Action<C>>)
    requires Inv(w, s) && s.phase.Replacing? && ByOthers(steps)
    requires Guarded(w, s.store, s.phase.base, s.phase.replacement.version)
    requires PutAccepted(w, OthersAfter(s.store, steps), s.phase.replacement.version)
    ensures OthersAfter(s.store, steps).held == s.phase.base
  {
    OthersKeep(s.store, steps);
    var t, p := OthersAfter(s.store, steps), s.phase;
    assert t.log[p.resolvedAt] == s.store.log[p.resolvedAt] == p.base;
    assert t.log[Now(t)] == t.held;
  }

  /** Taken on the object the dry run saw, the PUT writes what patching and mutating that object gives. */
  lemma AcceptedIsAtomic<C>(w: World<C>, s: State<C>, t: Store<C>)
    requires Inv(w, s) && s.phase.Replacing? && LogOk(t) && s.store.log <= t.log
    requires PutAccepted(w, t, s.phase.replacement.version) && t.held == s.phase.base
    ensures Commit(t, s.phase.replacement.content)
              == PatchThenMutate(w, t, if s.phase.prior.Some? then Update else Create, s.phase.prior)
  {
  }

  lemma {:induction false} VersionReached<C>(s: Store<C>, v: nat, content: C) returns (steps: seq<Action<C>>)
    requires v > s.clock
    ensures ByOthers(steps) && OthersAfter(s, steps).held == Some(Object(content, v))
    decreases v - s.clock
  {
    var t := Commit(Delete(s), content);
    var pair: seq<Action<C>> := [OtherDeletes, OtherWrites(content)];
    var rest: seq<Action<C>> := [];
    if v > s.clock + 1 {
      rest := VersionReached(t, v, content);
    }
    steps := pair + rest;
    assert steps[0] == OtherDeletes && steps[1..][0] == OtherWrites(content) && steps[1..][1..] == rest;
    assert OthersAfter(Delete(s), steps[1..]) == OthersAfter(t, rest);
  }

  lemma UnguardedFails<C(!new)>(w: World<C>, s: State<C>) returns (steps: seq<Action<C>>)
    requires Inv(w, s) && s.phase.Replacing?
    requires !Guarded(w, s.store, s.phase.base, s.phase.replacement.version)
    ensures ByOthers(steps)
    ensures PutAccepted(w, OthersAfter(s.store, steps), s.phase.replacement.version)
    ensures OthersAfter(s.store, steps).held != s.phase.base
  {
    var p := s.phase;
    assert p.base.Some? ==> p.base.value.version <= s.store.clock by { assert s.store.log[p.resolvedAt] == p.base; }
    match p.replacement.version
    case Some(v) =>
      if v > s.store.clock {
        steps := VersionReached(s.store, v, p.replacement.content);
      } else {
        steps := [];
      }
    case None =>
      if w.unconditional {
        steps := VersionReached(s.store, s.store.clock + 1, p.replacement.content);
      } else {
        steps := [OtherDeletes];
        assert steps[1..] == [] && OthersAfter(s.store, steps) == Delete(s.store);
      }
  }

  /** Exactly which replacements lose no update. In every reachable state with a replacement to send, it is safe
      against whatever others do if and only if its guard holds. */
  lemma SafeIfGuarded<C(!new)>(w: World<C>, initial: State<C>, actions: seq<Action<C>>)
    requires Initial(initial) && IsRun(w, initial, actions) && After(w, initial, actions).phase.Replacing?
    ensures var s := After(w, initial, actions);
            Safe(w, s) <==> Guarded(w, s.store, s.phase.base, s.phase.replacement.version)
  {
    RunKeepsInv(w, initial, actions);
    var s := After(w, initial, actions);
    if Guarded(w, s.store, s.phase.base, s.phase.replacement.version) {
      forall steps | ByOthers(steps) && PutAccepted(w, OthersAfter(s.store, steps), s.phase.replacement.version)
        ensures var t := OthersAfter(s.store, steps);
                && t.held == s.phase.base
                && Commit(t, s.phase.replacement.content)
                     == PatchThenMutate(w, t, if s.phase.prior.Some? then Update else Create, s.phase.prior)
      {
        GuardHolds(w, s, steps);
        OthersKeep(s.store, steps);
        AcceptedIsAtomic(w, s, OthersAfter(s.store, steps));
      }
    } else {
      var steps := UnguardedFails(w, s);
    }
  }

  /** When the old object was read, the guard always holds. When it was not, it holds for what the webhooks left of the
      dry run's version, if they left it; a version they dropped is no guard wherever kcp takes such a PUT on an
      existing object, or in a deleted one's place. */
  lemma GuardsByCase<C>(w: World<C>, initial: State<C>, actions: seq<Action<C>>)
    requires Initial(initial) && IsRun(w, initial, actions) && After(w, initial, actions).phase.Replacing?
    ensures var s := After(w, initial, actions);
            var p, guarded := s.phase, Guarded(w, s.store, s.phase.base, s.phase.replacement.version);
            && (p.prior.Some? ==> guarded)
            && (p.prior.None? && p.base.Some? && p.admitted.version == Version(p.base) ==> guarded)
            && (p.prior.None? && p.base.Some? && p.admitted.version == None ==> (guarded <==> !w.unconditional && !w.createOnPut))
            && (p.prior.None? && p.base.None? && p.admitted.version == None ==> (guarded <==> !w.unconditional))
  {
    RunKeepsInv(w, initial, actions);
    var s := After(w, initial, actions);
    var p := s.phase;
    if p.prior.Some? {
      assert s.store.log[p.fetchedAt] == p.prior && s.store.log[p.resolvedAt] == p.base;
      assert s.store.log[Now(s.store)] == s.store.held;
    }
  }

  /** A patch that would create the object has no version to be guarded by. Once mutated, it is written
      only where kcp takes a PUT without one; and where that is so for existing objects, an object
      another writer created meanwhile is overwritten. */
  lemma MutatedCreateIsUnguarded<C>(w: World<C>, s: Store<C>, mine: C, theirs: C)
    requires s.held.None? && LogOk(s) && mine != theirs
    requires w.gate().Runs? && w.apply(None).Some?
    requires w.admit(Create, None, Draft(w.apply(None).value, None)) == Some(Draft(mine, None))
    requires mine != w.apply(None).value
    ensures var alone := [Fetch(true), DryRun(true), Admit, Forward(true)];
            && IsRun(w, State(s, Received), alone)
            && (After(w, State(s, Received), alone).phase == Ended(Done) <==> w.createOnPut)
    ensures var raced := [Fetch(true), DryRun(true), Admit, OtherWrites(theirs), Forward(true)];
            && IsRun(w, State(s, Received), raced)
            && (Content(After(w, State(s, Received), raced).store.held) == Some(mine) <==> w.unconditional)
  {
    UnguardedCreate(w, s, mine, [Forward(true)]);
    UnguardedCreate(w, s, mine, [OtherWrites(theirs), Forward(true)]);
    var s3 := State(s, Replacing(None, |s.log| - 1, None, |s.log| - 1, Draft(mine, None), Draft(mine, None)));
    OneStep(w, s3, Forward(true));
    OneStep(w, Do(w, s3, OtherWrites(theirs)), Forward(true));
    FirstStep(w, s3, OtherWrites(theirs), [Forward(true)]);
    var before: seq<Action<C>> := [Fetch(true), DryRun(true), Admit];
    assert [Fetch(true), DryRun(true), Admit, Forward(true)] == before + [Forward(true)];
    assert [OtherWrites(theirs)] + [Forward(true)] == [OtherWrites(theirs), Forward(true)];
    assert [Fetch(true), DryRun(true), Admit, OtherWrites(theirs), Forward(true)]
        == before + [OtherWrites(theirs), Forward(true)];
  }

  /** With nothing there, fetch, dry run and admission end with an unguarded replacement. */
  lemma UnguardedCreate<C>(w: World<C>, s: Store<C>, mine: C, rest: seq<Action<C>>)
    requires s.held.None? && s.log != [] && w.gate().Runs? && w.apply(None).Some?
    requires w.admit(Create, None, Draft(w.apply(None).value, None)) == Some(Draft(mine, None))
    requires mine != w.apply(None).value
    ensures var s3 := State(s, Replacing(None, |s.log| - 1, None, |s.log| - 1, Draft(mine, None), Draft(mine, None)));
            var all := [Fetch(true), DryRun(true), Admit] + rest;
            IsRun(w, s3, rest) ==> IsRun(w, State(s, Received), all) && After(w, State(s, Received), all) == After(w, s3, rest)
  {
    var s0, s1 := State(s, Received), State(s, Fetched(None, |s.log| - 1));
    var s2 := State(s, Resolved(None, |s.log| - 1, None, |s.log| - 1, Draft(w.apply(None).value, None)));
    var s3 := State(s, Replacing(None, |s.log| - 1, None, |s.log| - 1, Draft(mine, None), Draft(mine, None)));
    assert Do(w, s0, Fetch(true)) == s1 && Do(w, s1, DryRun(true)) == s2 && Do(w, s2, Admit) == s3;
    if IsRun(w, s3, rest) {
      FirstStep(w, s2, Admit, rest);
      FirstStep(w, s1, DryRun(true), [Admit] + rest);
      FirstStep(w, s0, Fetch(true), [DryRun(true)] + ([Admit] + rest));
      assert [Fetch(true), DryRun(true), Admit] + rest == [Fetch(true)] + ([DryRun(true)] + ([Admit] + rest));
    }
  }

  lemma OneStep<C>(w: World<C>, s: State<C>, a: Action<C>)
    requires s.store.log != [] && Enabled(w, s, a)
    ensures IsRun(w, s, [a]) && After(w, s, [a]) == Do(w, s, a)
  {
    assert [a][1..] == [];
  }

  lemma FirstStep<C>(w: World<C>, s: State<C>, a: Action<C>, rest: seq<Action<C>>)
    requires s.store.log != [] && Enabled(w, s, a) && IsRun(w, Do(w, s, a), rest)
    ensures IsRun(w, s, [a] + rest) && After(w, s, [a] + rest) == After(w, Do(w, s, a), rest)
  {
    assert ([a] + rest)[1..] == rest;
  }

  // -------- transparency --------

  /** A client that talks to kcp itself: other writers' steps, and its one patch. */
  datatype DirectAction<C> = Others(action: Action<C>) | OwnPatch

  function DirectAfter<C(==)>(w: World<C>, s: Store<C>, actions: seq<DirectAction<C>>): Store<C>
    decreases |actions|
  {
    if actions == [] then s
    else
      var next := match actions[0]
                  case Others(OtherWrites(content)) => Commit(s, content)
                  case Others(OtherDeletes) => Delete(s)
                  case Others(_) => s
                  case OwnPatch => Patch(w, s);
      DirectAfter(w, next, actions[1..])
  }

  /** The run with everything spillway does on the side left out. */
  function Visible<C>(actions: seq<Action<C>>): seq<DirectAction<C>>
    decreases |actions|
  {
    if actions == [] then []
    else (match actions[0]
          case OtherWrites(_) => [Others(actions[0])]
          case OtherDeletes => [Others(actions[0])]
          case Forward(_) => [OwnPatch]
          case _ => []) + Visible(actions[1..])
  }

  /** Whenever admission is asked it leaves the object alone, or refuses it. */
  ghost predicate Unmutated<C>(w: World<C>, s: State<C>, actions: seq<Action<C>>)
    requires IsRun(w, s, actions)
    decreases |actions|
  {
    actions == []
    || ((actions[0].Admit? ==> !Do(w, s, actions[0]).phase.Replacing?)
        && Unmutated(w, Do(w, s, actions[0]), actions[1..]))
  }

  /** What spillway does on the side leaves the store alone; what is visible of a step is all it does to it. */
  lemma VisibleStep<C>(w: World<C>, s: State<C>, actions: seq<Action<C>>)
    requires actions != [] && s.store.log != [] && Enabled(w, s, actions[0]) && !s.phase.Replacing?
    ensures DirectAfter(w, s.store, Visible(actions)) == DirectAfter(w, Do(w, s, actions[0]).store, Visible(actions[1..]))
  {
    var rest := Visible(actions[1..]);
    match actions[0]
    case OtherWrites(_) => assert Visible(actions) == [Others(actions[0])] + rest && Visible(actions)[1..] == rest;
    case OtherDeletes => assert Visible(actions) == [Others(actions[0])] + rest && Visible(actions)[1..] == rest;
    case Forward(_) => assert Visible(actions) == [OwnPatch] + rest && Visible(actions)[1..] == rest;
    case _ => assert Visible(actions) == [] + rest == rest;
  }

  lemma {:induction false} Transparent<C>(w: World<C>, s: State<C>, actions: seq<Action<C>>)
    requires IsRun(w, s, actions) && Unmutated(w, s, actions) && !s.phase.Replacing?
    ensures After(w, s, actions).store == DirectAfter(w, s.store, Visible(actions))
    decreases |actions|
  {
    if actions != [] {
      VisibleStep(w, s, actions);
      Transparent(w, Do(w, s, actions[0]), actions[1..]);
    }
  }

  function Patches<C>(actions: seq<DirectAction<C>>): nat
    decreases |actions|
  {
    if actions == [] then 0 else (if actions[0].OwnPatch? then 1 else 0) + Patches(actions[1..])
  }

  lemma {:induction false} ForwardedAtMostOnce<C>(w: World<C>, s: State<C>, actions: seq<Action<C>>)
    requires IsRun(w, s, actions)
    ensures Patches(Visible(actions)) <= if s.phase.Ended? then 0 else 1
    ensures After(w, s, actions).phase == Ended(Refused) && s.phase != Ended(Refused) ==> Patches(Visible(actions)) == 0
    ensures s.phase.Ended? ==> After(w, s, actions).phase == s.phase
    decreases |actions|
  {
    if actions != [] {
      ForwardedAtMostOnce(w, Do(w, s, actions[0]), actions[1..]);
      var head := Visible(actions)[..|Visible(actions)| - |Visible(actions[1..])|];
      assert Visible(actions) == head + Visible(actions[1..]);
      if head != [] {
        assert Visible(actions)[1..] == Visible(actions[1..]);
      } else {
        assert Visible(actions) == Visible(actions[1..]);
      }
    }
  }

  /** When admission changes nothing, the object goes through exactly what it would go through if the
      client sent its patch to kcp itself at the moment it is forwarded: at most once, and not at all
      once admission has refused. */
  lemma UnmutatedIsTransparent<C>(w: World<C>, initial: State<C>, actions: seq<Action<C>>)
    requires Initial(initial) && IsRun(w, initial, actions) && Unmutated(w, initial, actions)
    ensures After(w, initial, actions).store == DirectAfter(w, initial.store, Visible(actions))
    ensures Patches(Visible(actions)) <= 1
    ensures After(w, initial, actions).phase == Ended(Refused) ==> Patches(Visible(actions)) == 0
  {
    Transparent(w, initial, actions);
    ForwardedAtMostOnce(w, initial, actions);
  }

  // -------- what a forwarded patch stores --------

  /** An object others can leave at the path. */
  predicate Leavable<C(==)>(s: Store<C>, held: Option<Object<C>>) {
    held == s.held || held == None || held.value.version > s.clock
  }

  /** Whatever others do before it arrives, the patch is rejected, or stores what admission saw. */
  ghost predicate StoresAdmitted<C(!new)>(w: World<C>, s: State<C>)
    requires s.phase.Forwarding? && s.phase.seen.Some?
  {
    forall steps | ByOthers(steps) ::
      var t := OthersAfter(s.store, steps);
      w.apply(t.held) == None || Content(Patch(w, t).held) == Some(s.phase.seen.value.draft.content)
  }

  /** The patch gives that content on every object others can leave, or does not apply. */
  ghost predicate GivesOnly<C(!new)>(w: World<C>, s: Store<C>, content: C) {
    forall held | Leavable(s, held) :: w.apply(held) == None || w.apply(held) == Some(content)
  }

  lemma LeavableIsReached<C>(s: Store<C>, held: Option<Object<C>>) returns (steps: seq<Action<C>>)
    requires Leavable(s, held)
    ensures ByOthers(steps) && OthersAfter(s, steps).held == held
  {
    if held == s.held {
      steps := [];
    } else if held == None {
      steps := [OtherDeletes];
      assert steps[1..] == [] && OthersAfter(s, steps) == Delete(s);
    } else {
      steps := VersionReached(s, held.value.version, held.value.content);
    }
  }

  /** Exactly when what is stored is what was admitted. In every reachable state with an admitted patch to forward, it is so
      against whatever others do if and only if the patch gives the admitted content, or is rejected, on every object
      others can leave: the patch is applied again, to an object admission has not seen. */
  lemma StoresAdmittedExactly<C(!new)>(w: World<C>, initial: State<C>, actions: seq<Action<C>>)
    requires Initial(initial) && IsRun(w, initial, actions)
    requires var s := After(w, initial, actions); s.phase.Forwarding? && s.phase.seen.Some?
    ensures var s := After(w, initial, actions);
            StoresAdmitted(w, s) <==> GivesOnly(w, s.store, s.phase.seen.value.draft.content)
  {
    RunKeepsInv(w, initial, actions);
    var s := After(w, initial, actions);
    var content := s.phase.seen.value.draft.content;
    if GivesOnly(w, s.store, content) {
      forall steps | ByOthers(steps)
        ensures var t := OthersAfter(s.store, steps);
                w.apply(t.held) == None || Content(Patch(w, t).held) == Some(content)
      {
        OthersKeep(s.store, steps);
        assert Leavable(s.store, OthersAfter(s.store, steps).held);
      }
    }
    if StoresAdmitted(w, s) {
      forall held | Leavable(s.store, held) ensures w.apply(held) == None || w.apply(held) == Some(content) {
        var steps := LeavableIsReached(s.store, held);
        assert ByOthers(steps);
      }
    }
  }

  /** A patch that asks for the version the dry run saw is one that does. */
  lemma VersionedPatchStoresAdmitted<C(!new)>(w: World<C>, initial: State<C>, actions: seq<Action<C>>)
    requires Initial(initial) && IsRun(w, initial, actions)
    requires var s := After(w, initial, actions); s.phase.Forwarding? && s.phase.seen.Some?
    requires var s := After(w, initial, actions); forall held :: held != s.phase.seen.value.base ==> w.apply(held) == None
    ensures StoresAdmitted(w, After(w, initial, actions))
  {
    RunKeepsInv(w, initial, actions);
    StoresAdmittedExactly(w, initial, actions);
  }

  lemma {:induction false} NeverForwards<C>(w: World<C>, s: State<C>, actions: seq<Action<C>>)
    requires IsRun(w, s, actions) && (s.phase.Replacing? || s.phase.Ended?)
    ensures !After(w, s, actions).phase.Forwarding?
    decreases |actions|
  {
    if actions != [] {
      NeverForwards(w, Do(w, s, actions[0]), actions[1..]);
    }
  }

  lemma {:induction false} SeenIfAdmitted<C>(w: World<C>, s: State<C>, actions: seq<Action<C>>)
    requires IsRun(w, s, actions) && After(w, s, actions).phase.Forwarding?
    ensures After(w, s, actions).phase.seen.Some? <==> Admit in actions || (s.phase.Forwarding? && s.phase.seen.Some?)
    decreases |actions|
  {
    if actions != [] {
      var t := Do(w, s, actions[0]);
      assert forall a :: a in actions <==> a == actions[0] || a in actions[1..];
      if t.phase.Replacing? || t.phase.Ended? {
        NeverForwards(w, t, actions[1..]);
      } else {
        SeenIfAdmitted(w, t, actions[1..]);
      }
    }
  }

  /** A patch whose dry run fails is forwarded unadmitted: here one that webhooks refuse whatever it makes, and that kcp
      stores all the same, though with the dry run answered it would have been refused and nothing stored. */
  lemma UnadmittedIsStored<C>(w: World<C>, s: Store<C>, content: C)
    requires LogOk(s) && w.gate().Runs? && w.apply(s.held) == Some(content)
    requires forall operation, prior, draft :: w.admit(operation, prior, draft) == None
    ensures var failing := [Fetch(true), DryRun(false), Forward(true)];
            && IsRun(w, State(s, Received), failing)
            && After(w, State(s, Received), failing) == State(Commit(s, content), Ended(Done))
    ensures var answered := [Fetch(true), DryRun(true), Admit];
            && IsRun(w, State(s, Received), answered)
            && After(w, State(s, Received), answered) == State(s, Ended(Refused))
  {
    var s0 := State(s, Received);
    var s1 := Do(w, s0, Fetch(true));
    var bare, resolved := Do(w, s1, DryRun(false)), Do(w, s1, DryRun(true));
    OneStep(w, bare, Forward(true));
    FirstStep(w, s1, DryRun(false), [Forward(true)]);
    FirstStep(w, s0, Fetch(true), [DryRun(false)] + [Forward(true)]);
    var failing: seq<Action<C>> := [Fetch(true), DryRun(false), Forward(true)];
    assert failing == [Fetch(true)] + ([DryRun(false)] + [Forward(true)]);
    OneStep(w, resolved, Admit);
    FirstStep(w, s1, DryRun(true), [Admit]);
    FirstStep(w, s0, Fetch(true), [DryRun(true)] + [Admit]);
    var answered: seq<Action<C>> := [Fetch(true), DryRun(true), Admit];
    assert answered == [Fetch(true)] + ([DryRun(true)] + [Admit]);
  }

  // -------- what the gate decides --------

  /** A caller that is not known gets nothing through. In every run the request is untouched or refused, its patch is not
      among what kcp sees, and the store moves by others' steps alone. */
  lemma {:induction false} UnknownCallerIsRefused<C>(w: World<C>, s: State<C>, actions: seq<Action<C>>)
    requires IsRun(w, s, actions) && w.gate().NoCaller? && (s.phase.Received? || s.phase == Ended(Refused))
    ensures After(w, s, actions).phase.Received? || After(w, s, actions).phase == Ended(Refused)
    ensures Patches(Visible(actions)) == 0 && After(w, s, actions).store == DirectAfter(w, s.store, Visible(actions))
    decreases |actions|
  {
    if actions != [] {
      VisibleStep(w, s, actions);
      UnknownCallerIsRefused(w, Do(w, s, actions[0]), actions[1..]);
      VisibleHead(actions);
    }
  }

  lemma VisibleHead<C>(actions: seq<Action<C>>)
    requires actions != []
    ensures Patches(Visible(actions)) == Patches(Visible(actions[1..])) + if actions[0].Forward? then 1 else 0
  {
    var rest := Visible(actions[1..]);
    match actions[0]
    case OtherWrites(_) => assert Visible(actions) == [Others(actions[0])] + rest && Visible(actions)[1..] == rest;
    case OtherDeletes => assert Visible(actions) == [Others(actions[0])] + rest && Visible(actions)[1..] == rest;
    case Forward(_) => assert Visible(actions) == [OwnPatch] + rest && Visible(actions)[1..] == rest;
    case _ => assert Visible(actions) == [] + rest == rest;
  }

  /** A request admission does not concern is never refused by it: it is forwarded as it is, and the object goes through
      what the client's own patch would do to it. */
  lemma {:induction false} SkippedIsForwarded<C>(w: World<C>, s: State<C>, actions: seq<Action<C>>)
    requires IsRun(w, s, actions) && w.gate().Skips?
    requires s.phase.Received? || s.phase == Forwarding(None) || (s.phase.Ended? && s.phase.result != Refused)
    ensures var p := After(w, s, actions).phase;
            p.Received? || p == Forwarding(None) || (p.Ended? && p.result != Refused)
    ensures After(w, s, actions).store == DirectAfter(w, s.store, Visible(actions))
    decreases |actions|
  {
    if actions != [] {
      VisibleStep(w, s, actions);
      SkippedIsForwarded(w, Do(w, s, actions[0]), actions[1..]);
    }
  }

  /** Some dry run of the run gives no answer, or finds that the patch does not apply. */
  ghost predicate DryRunFails<C>(w: World<C>, s: State<C>, actions: seq<Action<C>>)
    requires IsRun(w, s, actions)
    decreases |actions|
  {
    actions != []
    && ((actions[0].DryRun? && (!actions[0].ok || w.apply(s.store.held) == None))
        || DryRunFails(w, Do(w, s, actions[0]), actions[1..]))
  }

  lemma {:induction false} UnseenIfFailed<C>(w: World<C>, s: State<C>, actions: seq<Action<C>>)
    requires IsRun(w, s, actions) && w.gate().Runs? && After(w, s, actions).phase.Forwarding?
    ensures After(w, s, actions).phase.seen.None? <==>
              DryRunFails(w, s, actions) || (s.phase.Forwarding? && s.phase.seen.None?)
    decreases |actions|
  {
    if actions != [] {
      var t := Do(w, s, actions[0]);
      if t.phase.Replacing? || t.phase.Ended? {
        NeverForwards(w, t, actions[1..]);
      } else {
        UnseenIfFailed(w, t, actions[1..]);
      }
    }
  }

  /** Where admission runs, a patch about to go out was not admitted if and only if its dry run gave no answer or did not
      resolve. */
  lemma UnadmittedExactly<C>(w: World<C>, initial: State<C>, actions: seq<Action<C>>)
    requires Initial(initial) && IsRun(w, initial, actions) && w.gate().Runs?
    requires After(w, initial, actions).phase.Forwarding?
    ensures Admit !in actions <==> DryRunFails(w, initial, actions)
  {
    UnseenIfFailed(w, initial, actions);
    SeenIfAdmitted(w, initial, actions);
  }

  // -------- the handler --------

  /** What other writers do before each of the request's trips to kcp, and whether the trips succeed. */
  datatype Trips<C> = Trips(
    beforeFetch: seq<Action<C>>, beforeDryRun: seq<Action<C>>, beforeForward: seq<Action<C>>,
    fetched: bool, resolved: bool, sent: bool, answered: bool)

  /** What admission decides: refuse, forward the patch, or PUT this instead. */
  datatype Decision<C> = Refuse | ForwardPatch | Replace(replacement: Draft<C>)

  ghost predicate Reached<C>(w: World<C>, initial: State<C>, actions: seq<Action<C>>, s: State<C>) {
    IsRun(w, initial, actions) && After(w, initial, actions) == s
  }

  lemma {:induction false} ReachedThen<C>(w: World<C>, initial: State<C>, actions: seq<Action<C>>, s: State<C>, a: Action<C>)
    requires Reached(w, initial, actions, s) && s.store.log != [] && Enabled(w, s, a)
    ensures Reached(w, initial, actions + [a], Do(w, s, a))
    decreases |actions|
  {
    if actions == [] {
      assert actions + [a] == [a];
      OneStep(w, s, a);
    } else {
      assert (actions + [a])[1..] == actions[1..] + [a];
      ReachedThen(w, Do(w, initial, actions[0]), actions[1..], s, a);
    }
  }

  class Kcp<C(==)> {
    var store: Store<C>

    constructor (store: Store<C>)
      ensures this.store == store
    {
      this.store := store;
    }

    /** Other writers have their turn. */
    method OthersAct(w: World<C>, ghost initial: State<C>, ghost actions: seq<Action<C>>, ghost phase: Phase<C>,
                     steps: seq<Action<C>>)
      requires ByOthers(steps) && store.log != [] && Reached(w, initial, actions, State(store, phase))
      modifies this
      ensures store == OthersAfter(old(store), steps)
      ensures store.log != [] && Reached(w, initial, actions + steps, State(store, phase))
    {
      assert actions + [] == actions;
      ghost var done: seq<Action<C>> := [];
      for i := 0 to |steps|
        invariant done == steps[..i] && store.log != []
        invariant OthersAfter(old(store), steps) == OthersAfter(store, steps[i..])
        invariant Reached(w, initial, actions + done, State(store, phase))
      {
        assert steps[i..][0] == steps[i] && steps[i..][1..] == steps[i + 1..];
        ReachedThen(w, initial, actions + done, State(store, phase), steps[i]);
        assert actions + done + [steps[i]] == actions + (done + [steps[i]]);
        match steps[i] {
          case OtherWrites(content) => store := Commit(store, content);
          case OtherDeletes => store := Delete(store);
        }
        done := done + [steps[i]];
      }
      assert done == steps;
    }
  }

  /** What admission decides, once it runs. A patch is forwarded unadmitted if and only if its dry run gave no answer or did not
      resolve; one that resolved goes to the webhooks, with the fetched object if there was one, and is forwarded if and
      only if they leave the result alone. What they change of it is sent under the fetched object's version. */
  ghost predicate Decided<C>(w: World<C>, store: Store<C>, trips: Trips<C>, decision: Decision<C>, after: Store<C>) {
    var fetched := OthersAfter(store, trips.beforeFetch);
    var prior := if trips.fetched then fetched.held else None;
    var dry := OthersAfter(fetched, trips.beforeDryRun);
    && after == dry
    && if trips.resolved && w.apply(dry.held).Some? then
         var draft := Draft(w.apply(dry.held).value, Version(dry.held));
         var verdict := w.admit(if prior == None then Create else Update, prior, draft);
         && (decision == Refuse <==> verdict == None)
         && (decision == ForwardPatch <==> verdict == Some(draft))
         && (decision.Replace? ==>
               && decision.replacement.content == verdict.value.content
               && decision.replacement.version == if prior == None then verdict.value.version else Some(prior.value.version))
       else decision == ForwardPatch
  }

  /** Admits a patch: whatever others do meanwhile, it takes the steps of a run. */
  method RunPatch<C(==)>(kcp: Kcp<C>, w: World<C>, trips: Trips<C>)
    returns (decision: Decision<C>, ghost actions: seq<Action<C>>)
    requires kcp.store.log != [] && ByOthers(trips.beforeFetch) && ByOthers(trips.beforeDryRun)
    modifies kcp
    ensures kcp.store.log != [] && IsRun(w, State(old(kcp.store), Received), actions)
    ensures var s := After(w, State(old(kcp.store), Received), actions);
            && s.store == kcp.store
            && match decision
               case Refuse => s.phase == Ended(Refused)
               case ForwardPatch => s.phase.Forwarding?
               case Replace(replacement) => s.phase.Replacing? && s.phase.replacement == replacement
    ensures !w.gate().Runs? ==> kcp.store == old(kcp.store)
    ensures w.gate().NoCaller? ==> decision == Refuse
    ensures w.gate().Skips? ==> decision == ForwardPatch
    ensures w.gate().Runs? ==> Decided(w, old(kcp.store), trips, decision, kcp.store)
  {
    ghost var initial := State(kcp.store, Received);
    ghost var s := initial;
    actions := [];
    if w.gate().Skips? {
      ReachedThen(w, initial, actions, s, Skip);
      actions := actions + [Skip];
      return ForwardPatch, actions;
    }
    if w.gate().NoCaller? {
      ReachedThen(w, initial, actions, s, FailUnknown);
      actions := actions + [FailUnknown];
      return Refuse, actions;
    }
    kcp.OthersAct(w, initial, actions, s.phase, trips.beforeFetch);
    actions, s := actions + trips.beforeFetch, State(kcp.store, s.phase);
    var prior := if trips.fetched then kcp.store.held else None;
    ReachedThen(w, initial, actions, s, Fetch(trips.fetched));
    actions, s := actions + [Fetch(trips.fetched)], Do(w, s, Fetch(trips.fetched));

    kcp.OthersAct(w, initial, actions, s.phase, trips.beforeDryRun);
    actions, s := actions + trips.beforeDryRun, State(kcp.store, s.phase);
    var resolved := w.apply(kcp.store.held);
    ReachedThen(w, initial, actions, s, DryRun(trips.resolved));
    actions, s := actions + [DryRun(trips.resolved)], Do(w, s, DryRun(trips.resolved));
    if !trips.resolved || resolved.None? {
      return ForwardPatch, actions;
    }

    var draft := Draft(resolved.value, Version(kcp.store.held));
    var operation := Update;
    if prior.None? {
      operation := Create;
    }
    ReachedThen(w, initial, actions, s, Admit);
    actions := actions + [Admit];
    var verdict := w.admit(operation, prior, draft);
    if verdict.None? {
      return Refuse, actions;
    }
    var admitted := verdict.value;
    if admitted == draft {
      return ForwardPatch, actions;
    }
    if prior.Some? {
      admitted := admitted.(version := Some(prior.value.version));
    }
    return Replace(admitted), actions;
  }

  /** What comes of a decision to send something, `store` being what kcp holds when it arrives. */
  ghost predicate Sent<C>(w: World<C>, store: Store<C>, trips: Trips<C>, decision: Decision<C>, result: Result, after: Store<C>) {
    if !trips.sent then result == Unsent && after == store
    else
      var taken := match decision
                   case Refuse => None
                   case ForwardPatch => w.apply(store.held)
                   case Replace(draft) => if PutAccepted(w, store, draft.version) then Some(draft.content) else None;
      && after == (if taken.Some? then Commit(store, taken.value) else store)
      && result == if !trips.answered then Unanswered else if taken.Some? then Done else Rejected
  }

  /** Serves a patch to its end, so that everything above about runs is about the handler. */
  method ServePatch<C(==)>(kcp: Kcp<C>, w: World<C>, trips: Trips<C>) returns (result: Result, ghost actions: seq<Action<C>>)
    requires kcp.store.log != []
    requires ByOthers(trips.beforeFetch) && ByOthers(trips.beforeDryRun) && ByOthers(trips.beforeForward)
    modifies kcp
    ensures IsRun(w, State(old(kcp.store), Received), actions)
    ensures After(w, State(old(kcp.store), Received), actions) == State(kcp.store, Ended(result))
    ensures w.gate().NoCaller? ==> result == Refused && kcp.store == old(kcp.store)
    ensures w.gate().Skips? ==> Sent(w, OthersAfter(old(kcp.store), trips.beforeForward), trips, ForwardPatch, result, kcp.store)
    ensures w.gate().Runs? ==> exists decision: Decision<C>, dry: Store<C> ::
              && Decided(w, old(kcp.store), trips, decision, dry)
              && if decision == Refuse then result == Refused && kcp.store == dry
                 else Sent(w, OthersAfter(dry, trips.beforeForward), trips, decision, result, kcp.store)
  {
    ghost var initial := State(kcp.store, Received);
    var decision;
    decision, actions := RunPatch(kcp, w, trips);
    ghost var dry := kcp.store;
    if decision.Refuse? {
      return Refused, actions;
    }
    ghost var s := After(w, initial, actions);
    kcp.OthersAct(w, initial, actions, s.phase, trips.beforeForward);
    actions, s := actions + trips.beforeForward, State(kcp.store, s.phase);
    if !trips.sent {
      ReachedThen(w, initial, actions, s, LoseForward);
      actions := actions + [LoseForward];
      return Unsent, actions;
    }
    ReachedThen(w, initial, actions, s, Forward(trips.answered));
    actions := actions + [Forward(trips.answered)];
    match decision {
      case Replace(replacement) =>
        if PutAccepted(w, kcp.store, replacement.version) {
          kcp.store := Commit(kcp.store, replacement.content);
          result := Done;
        } else {
          result := Rejected;
        }
      case ForwardPatch =>
        var applied := w.apply(kcp.store.held);
        if applied.Some? {
          kcp.store := Commit(kcp.store, applied.value);
          result := Done;
        } else {
          result := Rejected;
        }
    }
    if !trips.answered {
      result := Unanswered;
    }
  }
}
