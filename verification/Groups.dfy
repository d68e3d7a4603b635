/** Which API groups a workspace is given (`pkg/kcp/groups.go`). */
module Groups {
  import opened Wrappers
  import opened Text

  const RESERVED_SUFFIX := ".k8s.io"

  /** What one configured pattern asks for. */
  datatype Entry =
    | Exact(name: string)
    | Wildcard(suffix: string)
    | ExcludedExact(name: string)
    | ExcludedWildcard(suffix: string)

  datatype PatternError =
    | EmptyGroup | HasVersion | NotADomain | ManyWildcards | TooBroad | Reserved
    | EmptyExclusion | ExclusionHasVersion | BadExclusion
    | NoGroups

  function ClassifyExclusion(pattern: string): Result<Entry, PatternError> {
    if pattern == "" then Err(EmptyExclusion)
    else if '/' in pattern then Err(ExclusionHasVersion)
    else if '*' !in pattern then Ok(ExcludedExact(pattern))
    else if HasPrefix(pattern, "*.") && '*' !in pattern[2..] then Ok(ExcludedWildcard(pattern[1..]))
    else Err(BadExclusion)
  }

  function Classify(pattern: string): Result<Entry, PatternError> {
    if HasPrefix(pattern, "!") then ClassifyExclusion(pattern[1..])
    else if pattern == "" then Err(EmptyGroup)
    else if '/' in pattern then Err(HasVersion)
    else if '*' !in pattern then Ok(Exact(pattern))
    else if !HasPrefix(pattern, "*.") then Err(NotADomain)
    else
      var suffix := pattern[1..];
      if '*' in suffix[1..] then Err(ManyWildcards)
      else if Count(suffix, '.') < 2 then Err(TooBroad)
      else if suffix == RESERVED_SUFFIX || HasSuffix(suffix, RESERVED_SUFFIX) then Err(Reserved)
      else Ok(Wildcard(suffix))
  }

  /** How an entry is written in the configuration. */
  function Written(e: Entry): string {
    match e
    case Exact(name) => name
    case Wildcard(suffix) => "*" + suffix
    case ExcludedExact(name) => "!" + name
    case ExcludedWildcard(suffix) => "!*" + suffix
  }

  function ExactsOf(names: seq<string>): seq<Entry> {
    seq(|names|, i requires 0 <= i < |names| => Exact(names[i]))
  }

  function WildcardsOf(suffixes: seq<string>): seq<Entry> {
    seq(|suffixes|, i requires 0 <= i < |suffixes| => Wildcard(suffixes[i]))
  }

  function ExcludedExactsOf(names: seq<string>): seq<Entry> {
    seq(|names|, i requires 0 <= i < |names| => ExcludedExact(names[i]))
  }

  function ExcludedWildcardsOf(suffixes: seq<string>): seq<Entry> {
    seq(|suffixes|, i requires 0 <= i < |suffixes| => ExcludedWildcard(suffixes[i]))
  }

  predicate Covers(suffix: string, group: string) {
    HasSuffix(group, suffix) && |group| > |suffix|
  }

  /** The contents of a group matcher. */
  datatype Matcher = Matcher(
    exact: set<string>, suffixes: seq<string>,
    excludedExact: set<string>, excludedSuffixes: seq<string>)
  {
    predicate Excluded(group: string) {
      group in excludedExact || exists suffix <- excludedSuffixes :: Covers(suffix, group)
    }

    predicate Matches(group: string) {
      && !Excluded(group)
      && (group in exact || exists suffix <- suffixes :: Covers(suffix, group))
    }

    predicate Empty() {
      exact == {} && suffixes == []
    }

    /** The groups named outright and not excluded again. */
    function Named(): set<string> {
      set group <- exact | !Excluded(group)
    }

    function ExactNames(): seq<string> {
      SortedList(Named())
    }

    function Entries(): seq<Entry> {
      ExactsOf(SortedList(exact)) + WildcardsOf(suffixes)
      + ExcludedExactsOf(SortedList(excludedExact)) + ExcludedWildcardsOf(excludedSuffixes)
    }

    function String(): string {
      Join(WrittenAll(Entries()), ',')
    }
  }

  function WrittenAll(entries: seq<Entry>): (parts: seq<string>) {
    seq(|entries|, i requires 0 <= i < |entries| => Written(entries[i]))
  }

  const NOTHING := Matcher({}, [], {}, [])

  function Add(m: Matcher, e: Entry): Matcher {
    match e
    case Exact(name) => m.(exact := m.exact + {name})
    case Wildcard(suffix) => m.(suffixes := m.suffixes + [suffix])
    case ExcludedExact(name) => m.(excludedExact := m.excludedExact + {name})
    case ExcludedWildcard(suffix) => m.(excludedSuffixes := m.excludedSuffixes + [suffix])
  }

  /** Patterns added to a matcher one after the other, stopping at the first that is refused. */
  function Collect(m: Matcher, patterns: seq<string>): Result<Matcher, PatternError>
    decreases |patterns|
  {
    if patterns == [] then Ok(m)
    else match Classify(patterns[0])
      case Err(e) => Err(e)
      case Ok(entry) => Collect(Add(m, entry), patterns[1..])
  }

  function Parsed(patterns: seq<string>): Result<Matcher, PatternError> {
    match Collect(NOTHING, patterns)
    case Err(e) => Err(e)
    case Ok(m) => if m.Empty() then Err(NoGroups) else Ok(m)
  }

  /** The matcher as the source holds it: fields that parsing fills in. */
  class GroupMatcher {
    var exact: set<string>
    var suffixes: seq<string>
    var excludedExact: set<string>
    var excludedSuffixes: seq<string>

    function View(): Matcher
      reads this
    {
      Matcher(exact, suffixes, excludedExact, excludedSuffixes)
    }

    constructor ()
      ensures View() == NOTHING
    {
      exact, suffixes, excludedExact, excludedSuffixes := {}, [], {}, [];
    }

    method Exclude(pattern: string) returns (refused: Option<PatternError>)
      modifies this
      ensures match ClassifyExclusion(pattern)
              case Ok(entry) => refused == None && View() == Add(old(View()), entry)
              case Err(e) => refused == Some(e) && View() == old(View())
    {
      if pattern == "" {
        return Some(EmptyExclusion);
      } else if '/' in pattern {
        return Some(ExclusionHasVersion);
      } else if '*' !in pattern {
        excludedExact := excludedExact + {pattern};
      } else if HasPrefix(pattern, "*.") && '*' !in pattern[2..] {
        excludedSuffixes := excludedSuffixes + [pattern[1..]];
      } else {
        return Some(BadExclusion);
      }
      return None;
    }
  }

  method ParseGroupMatcher(patterns: seq<string>) returns (r: Result<GroupMatcher, PatternError>)
    ensures match Parsed(patterns)
            case Ok(m) => r.Ok? && fresh(r.value) && r.value.View() == m
            case Err(e) => r == Err(e)
  {
    var matcher := new GroupMatcher();
    ghost var rest := patterns;
    for i := 0 to |patterns|
      invariant rest == patterns[i..]
      invariant Collect(NOTHING, patterns) == Collect(matcher.View(), rest)
      invariant fresh(matcher)
    {
      var pattern := patterns[i];
      rest := rest[1..];
      if HasPrefix(pattern, "!") {
        var refused := matcher.Exclude(pattern[1..]);
        if refused.Some? {
          return Err(refused.value);
        }
        continue;
      }
      if pattern == "" {
        return Err(EmptyGroup);
      } else if '/' in pattern {
        return Err(HasVersion);
      } else if '*' !in pattern {
        matcher.exact := matcher.exact + {pattern};
      } else if !HasPrefix(pattern, "*.") {
        return Err(NotADomain);
      } else {
        var suffix := pattern[1..];
        if '*' in suffix[1..] {
          return Err(ManyWildcards);
        }
        if Count(suffix, '.') < 2 {
          return Err(TooBroad);
        }
        if suffix == RESERVED_SUFFIX || HasSuffix(suffix, RESERVED_SUFFIX) {
          return Err(Reserved);
        }
        matcher.suffixes := matcher.suffixes + [suffix];
      }
    }
    if matcher.View().Empty() {
      return Err(NoGroups);
    }
    return Ok(matcher);
  }

  // -------- what a list of patterns declares, independent of its order --------

  ghost predicate Declares(patterns: seq<string>, e: Entry) {
    exists p <- patterns :: Classify(p) == Ok(e)
  }

  ghost predicate Holds(m: Matcher, e: Entry) {
    match e
    case Exact(name) => name in m.exact
    case Wildcard(suffix) => suffix in m.suffixes
    case ExcludedExact(name) => name in m.excludedExact
    case ExcludedWildcard(suffix) => suffix in m.excludedSuffixes
  }

  lemma {:induction false} CollectDeclares(m: Matcher, patterns: seq<string>)
    ensures Collect(m, patterns).Ok? <==> forall p <- patterns :: Classify(p).Ok?
    ensures Collect(m, patterns).Ok? ==>
              forall e :: Holds(Collect(m, patterns).value, e) <==> Holds(m, e) || Declares(patterns, e)
    decreases |patterns|
  {
    if patterns != [] && Classify(patterns[0]).Ok? {
      var entry := Classify(patterns[0]).value;
      CollectDeclares(Add(m, entry), patterns[1..]);
      assert forall p :: p in patterns <==> p == patterns[0] || p in patterns[1..];
      if Collect(m, patterns).Ok? {
        forall e
          ensures Declares(patterns, e) <==> e == entry || Declares(patterns[1..], e)
          ensures Holds(Add(m, entry), e) <==> Holds(m, e) || e == entry
        {
          if e == entry { assert Classify(patterns[0]) == Ok(e); }
        }
      }
    }
  }

  lemma ExclusionWritten(pattern: string)
    requires ClassifyExclusion(pattern).Ok?
    ensures Written(ClassifyExclusion(pattern).value) == "!" + pattern
  {
    if HasPrefix(pattern, "*.") {
      assert pattern == "*" + pattern[1..];
    }
    var e := ClassifyExclusion(pattern).value;
    assert e.ExcludedWildcard? ==> "!*" + pattern[1..] == "!" + ("*" + pattern[1..]);
  }

  /** What classification yields is written the way it was read. */
  lemma ClassifyWritten(p: string)
    requires Classify(p).Ok?
    ensures Written(Classify(p).value) == p
  {
    if HasPrefix(p, "!") {
      assert p == "!" + p[1..];
      ExclusionWritten(p[1..]);
    } else if HasPrefix(p, "*.") {
      assert p == "*" + p[1..];
    }
  }

  lemma DeclaredIsWritten(patterns: seq<string>, e: Entry)
    requires Declares(patterns, e)
    ensures Written(e) in patterns && Classify(Written(e)) == Ok(e)
  {
    var p :| p in patterns && Classify(p) == Ok(e);
    ClassifyWritten(p);
  }

  /** A list is accepted exactly when every pattern is and one of them names something to serve;
      the matcher then holds exactly what the patterns declare. */
  lemma ParsedDeclares(patterns: seq<string>)
    ensures Parsed(patterns).Ok? <==>
              && (forall p <- patterns :: Classify(p).Ok?)
              && (exists e :: Declares(patterns, e) && (e.Exact? || e.Wildcard?))
    ensures Parsed(patterns).Ok? ==> forall e :: Holds(Parsed(patterns).value, e) <==> Declares(patterns, e)
  {
    CollectDeclares(NOTHING, patterns);
    assert forall e :: !Holds(NOTHING, e);
    if Collect(NOTHING, patterns).Ok? {
      var m := Collect(NOTHING, patterns).value;
      if m.exact != {} {
        var name :| name in m.exact;
        assert Holds(m, Exact(name));
      }
      if m.suffixes != [] {
        assert Holds(m, Wildcard(m.suffixes[0]));
      }
    }
  }

  /** Matching, from what is declared alone. */
  ghost predicate DeclaredMatch(patterns: seq<string>, group: string) {
    && !Declares(patterns, ExcludedExact(group))
    && !(exists suffix :: Declares(patterns, ExcludedWildcard(suffix)) && Covers(suffix, group))
    && (Declares(patterns, Exact(group)) || exists suffix :: Declares(patterns, Wildcard(suffix)) && Covers(suffix, group))
  }

  lemma MatchesAsDeclared(patterns: seq<string>, group: string)
    requires Parsed(patterns).Ok?
    ensures Parsed(patterns).value.Matches(group) <==> DeclaredMatch(patterns, group)
  {
    ParsedDeclares(patterns);
    var m := Parsed(patterns).value;
    assert Holds(m, Exact(group)) <==> group in m.exact;
    assert Holds(m, ExcludedExact(group)) <==> group in m.excludedExact;
    forall suffix
      ensures suffix in m.suffixes <==> Declares(patterns, Wildcard(suffix))
      ensures suffix in m.excludedSuffixes <==> Declares(patterns, ExcludedWildcard(suffix))
    {
      assert Holds(m, Wildcard(suffix)) <==> suffix in m.suffixes;
      assert Holds(m, ExcludedWildcard(suffix)) <==> suffix in m.excludedSuffixes;
    }
  }

  /** One of the patterns is the group's name. */
  predicate Listed(patterns: seq<string>, group: string) {
    group in patterns && '*' !in group && !HasPrefix(group, "!")
  }

  /** The group ends in the domain of one of the patterns with this sign, "*" or "!*", after something more of any kind. */
  ghost predicate UnderDomain(patterns: seq<string>, sign: string, group: string) {
    exists rest: string, domain: string ::
      rest != "" && group == rest + domain && HasPrefix(domain, ".") && sign + domain in patterns
  }

  /** Matching, from the patterns as they are written: a group is served if it is listed by its name, or lies any number of
      labels under a listed domain, and neither its name nor a domain it lies under is excluded. */
  lemma MatchesAsWritten(patterns: seq<string>, group: string)
    requires Parsed(patterns).Ok? && '*' !in group && !HasPrefix(group, "!")
    ensures Parsed(patterns).value.Matches(group) <==>
              && (Listed(patterns, group) || UnderDomain(patterns, "*", group))
              && "!" + group !in patterns && !UnderDomain(patterns, "!*", group)
  {
    MatchesAsDeclared(patterns, group);
    ParsedDeclares(patterns);
    DeclaredByName(patterns, group);
    DeclaredByDomain(patterns, group);
  }

  lemma DeclaredByName(patterns: seq<string>, group: string)
    requires (forall p <- patterns :: Classify(p).Ok?) && '*' !in group && !HasPrefix(group, "!")
    ensures Declares(patterns, Exact(group)) <==> Listed(patterns, group)
    ensures Declares(patterns, ExcludedExact(group)) <==> "!" + group in patterns
  {
    if Declares(patterns, Exact(group)) {
      DeclaredIsWritten(patterns, Exact(group));
    }
    if Listed(patterns, group) {
      assert Classify(group) == Ok(Exact(group));
    }
    if Declares(patterns, ExcludedExact(group)) {
      DeclaredIsWritten(patterns, ExcludedExact(group));
    }
    if "!" + group in patterns {
      assert ("!" + group)[1..] == group;
      assert Classify("!" + group) == ClassifyExclusion(group);
    }
  }

  lemma CoversExactly(suffix: string, group: string)
    ensures Covers(suffix, group) <==> exists rest: string :: rest != "" && group == rest + suffix
  {
    if Covers(suffix, group) {
      assert group == group[..|group| - |suffix|] + suffix;
    }
  }

  lemma DeclaredByDomain(patterns: seq<string>, group: string)
    requires forall p <- patterns :: Classify(p).Ok?
    ensures (exists suffix :: Declares(patterns, Wildcard(suffix)) && Covers(suffix, group)) <==>
              UnderDomain(patterns, "*", group)
    ensures (exists suffix :: Declares(patterns, ExcludedWildcard(suffix)) && Covers(suffix, group)) <==>
              UnderDomain(patterns, "!*", group)
  {
    if suffix :| Declares(patterns, Wildcard(suffix)) && Covers(suffix, group) {
      CoversExactly(suffix, group);
      WildcardWritten(patterns, suffix);
    }
    if suffix :| Declares(patterns, ExcludedWildcard(suffix)) && Covers(suffix, group) {
      CoversExactly(suffix, group);
      WildcardWritten(patterns, suffix);
    }
    if rest: string, domain: string :|
      rest != "" && group == rest + domain && HasPrefix(domain, ".") && "*" + domain in patterns
    {
      CoversExactly(domain, group);
      WildcardWritten(patterns, domain);
    }
    if rest: string, domain: string :|
      rest != "" && group == rest + domain && HasPrefix(domain, ".") && "!*" + domain in patterns
    {
      CoversExactly(domain, group);
      WildcardWritten(patterns, domain);
    }
  }

  lemma DomainClassified(domain: string)
    requires HasPrefix(domain, ".") && Classify("*" + domain).Ok?
    ensures Classify("*" + domain) == Ok(Wildcard(domain))
  {
    var p := "*" + domain;
    assert p[1..] == domain && p[0] == '*' && p[1] == '.' && '*' in p && HasPrefix(p, "*.");
  }

  lemma ExcludedDomainClassified(domain: string)
    requires HasPrefix(domain, ".") && Classify("!*" + domain).Ok?
    ensures Classify("!*" + domain) == Ok(ExcludedWildcard(domain))
  {
    var p, q := "!*" + domain, "*" + domain;
    assert p[1..] == q && Classify(p) == ClassifyExclusion(q);
    assert q[1..] == domain && q[0] == '*' && q[1] == '.' && '*' in q && HasPrefix(q, "*.");
  }

  lemma WildcardWritten(patterns: seq<string>, domain: string)
    requires forall p <- patterns :: Classify(p).Ok?
    ensures Declares(patterns, Wildcard(domain)) <==> HasPrefix(domain, ".") && "*" + domain in patterns
    ensures Declares(patterns, ExcludedWildcard(domain)) <==> HasPrefix(domain, ".") && "!*" + domain in patterns
  {
    if Declares(patterns, Wildcard(domain)) {
      DeclaredIsWritten(patterns, Wildcard(domain));
      assert ("*" + domain)[1..] == domain;
    }
    if Declares(patterns, ExcludedWildcard(domain)) {
      DeclaredIsWritten(patterns, ExcludedWildcard(domain));
      assert ("!*" + domain)[1..] == "*" + domain && ("*" + domain)[1..] == domain;
    }
    if HasPrefix(domain, ".") && "*" + domain in patterns {
      DomainClassified(domain);
    }
    if HasPrefix(domain, ".") && "!*" + domain in patterns {
      ExcludedDomainClassified(domain);
    }
  }

  /** The pattern is a domain after "*", or an exclusion's. */
  predicate IsDomain(domain: string) {
    HasPrefix(domain, ".") && '*' !in domain
  }

  /** Exactly which patterns are accepted: names without a slash or star; "*" before a domain of at least two labels, outside
      Kubernetes' own; and, after "!", any name, or "*" before any domain. */
  lemma AcceptedExactly(p: string)
    ensures Classify(p).Ok? <==>
              if HasPrefix(p, "!") then
                var q := p[1..];
                q != "" && '/' !in q && ('*' !in q || exists domain :: q == "*" + domain && IsDomain(domain))
              else
                && p != "" && '/' !in p
                && ('*' !in p ||
                    exists domain ::
                      p == "*" + domain && IsDomain(domain) && Count(domain, '.') >= 2 && !HasSuffix(domain, ".k8s.io"))
  {
    var q := if HasPrefix(p, "!") then p[1..] else p;
    if HasPrefix(q, "*.") {
      DomainOf(q);
    }
    if domain :| q == "*" + domain && IsDomain(domain) {
      assert q[1..] == domain && q[0] == '*' && q[1] == '.';
      DomainOf(q);
    }
  }

  /** Why a pattern is refused: the reason given holds of its text. */
  lemma RefusedForAReason(p: string)
    requires Classify(p).Err?
    ensures match Classify(p).error
            case EmptyExclusion => p == "!"
            case ExclusionHasVersion => HasPrefix(p, "!") && '/' in p
            case BadExclusion => HasPrefix(p, "!") && '*' in p && !(HasPrefix(p, "!*.") && '*' !in p[3..])
            case EmptyGroup => p == ""
            case HasVersion => !HasPrefix(p, "!") && '/' in p
            case NotADomain => '*' in p && !HasPrefix(p, "*.")
            case ManyWildcards => HasPrefix(p, "*.") && '*' in p[1..]
            case TooBroad => HasPrefix(p, "*.") && Count(p[1..], '.') < 2
            case Reserved => HasPrefix(p, "*.") && HasSuffix(p, ".k8s.io")
            case NoGroups => false
  {
    if HasPrefix(p, "!") {
      var q := p[1..];
      assert p == "!" + q;
      if HasPrefix(p, "!*.") {
        assert HasPrefix(q, "*.") && p[3..] == q[2..];
      }
    } else if HasPrefix(p, "*.") {
      assert p == "*" + p[1..];
    }
  }

  lemma DomainOf(q: string)
    requires HasPrefix(q, "*.")
    ensures q == "*" + q[1..] && (IsDomain(q[1..]) <==> '*' !in q[2..]) && '*' in q
    ensures q[1..][1..] == q[2..]
  {
    assert q[0] == '*' && q[1] == '.';
    assert q[1..] == ['.'] + q[2..];
  }

  /** The order of the patterns decides neither whether they are accepted nor what they match. */
  lemma OrderIsIrrelevant(patterns: seq<string>, permuted: seq<string>)
    requires multiset(patterns) == multiset(permuted)
    ensures Parsed(patterns).Ok? <==> Parsed(permuted).Ok?
    ensures Parsed(patterns).Ok? ==>
              forall group :: Parsed(patterns).value.Matches(group) <==> Parsed(permuted).value.Matches(group)
  {
    forall p ensures p in patterns <==> p in permuted {
      assert p in patterns <==> p in multiset(patterns);
      assert p in permuted <==> p in multiset(permuted);
    }
    assert forall e :: Declares(patterns, e) <==> Declares(permuted, e);
    ParsedDeclares(patterns);
    ParsedDeclares(permuted);
    if Parsed(patterns).Ok? {
      forall group ensures Parsed(patterns).value.Matches(group) <==> Parsed(permuted).value.Matches(group) {
        MatchesAsDeclared(patterns, group);
        MatchesAsDeclared(permuted, group);
      }
    }
  }

  // -------- wildcards keep away from reserved and bare groups --------

  lemma SuffixCount(suffix: string, group: string, c: char)
    requires HasSuffix(group, suffix)
    ensures Count(suffix, c) <= Count(group, c)
  {
    assert group == group[..|group| - |suffix|] + suffix;
  }

  lemma NestedSuffix(short: string, long: string, s: string)
    requires HasSuffix(s, short) && HasSuffix(s, long) && |short| <= |long|
    ensures HasSuffix(long, short)
  {
    assert long[|long| - |short|..] == s[|s| - |short|..];
  }

  /** No two-label suffix fits inside the reserved one. */
  lemma NarrowerThanReserved(suffix: string)
    requires HasSuffix(RESERVED_SUFFIX, suffix) && suffix != RESERVED_SUFFIX
    ensures Count(suffix, '.') < 2
  {
    var tail := RESERVED_SUFFIX[1..];
    assert tail == "k8s.io";
    assert HasSuffix(tail, suffix);
    SuffixCount(suffix, tail, '.');
    assert multiset(tail) == multiset{'k', '8', 's', '.', 'i', 'o'};
  }

  lemma WildcardAvoids(suffix: string, group: string)
    requires Classify("*" + suffix) == Ok(Wildcard(suffix)) && Covers(suffix, group)
    ensures Count(group, '.') >= 2 && !HasSuffix(group, RESERVED_SUFFIX)
  {
    SuffixCount(suffix, group, '.');
    if HasSuffix(group, RESERVED_SUFFIX) {
      if |suffix| >= |RESERVED_SUFFIX| {
        NestedSuffix(RESERVED_SUFFIX, suffix, group);
      } else {
        NestedSuffix(suffix, RESERVED_SUFFIX, group);
        NarrowerThanReserved(suffix);
      }
    }
  }

  /** In every accepted configuration, a group in Kubernetes' own domain, or with fewer than two
      dots, is served only when it is named outright. */
  lemma WildcardsStayOut(patterns: seq<string>, group: string)
    requires Parsed(patterns).Ok? && Parsed(patterns).value.Matches(group)
    requires HasSuffix(group, RESERVED_SUFFIX) || Count(group, '.') < 2
    ensures group in patterns
  {
    MatchesAsDeclared(patterns, group);
    if Declares(patterns, Exact(group)) {
      DeclaredIsWritten(patterns, Exact(group));
    } else {
      var suffix :| Declares(patterns, Wildcard(suffix)) && Covers(suffix, group);
      DeclaredIsWritten(patterns, Wildcard(suffix));
      WildcardAvoids(suffix, group);
    }
  }

  // -------- printing and parsing --------

  function AddAll(m: Matcher, entries: seq<Entry>): Matcher
    decreases |entries|
  {
    if entries == [] then m else AddAll(Add(m, entries[0]), entries[1..])
  }

  lemma {:induction false} CollectWritten(m: Matcher, entries: seq<Entry>)
    requires forall e <- entries :: Classify(Written(e)) == Ok(e)
    ensures Collect(m, WrittenAll(entries)) == Ok(AddAll(m, entries))
    decreases |entries|
  {
    if entries != [] {
      assert WrittenAll(entries)[1..] == WrittenAll(entries[1..]);
      CollectWritten(Add(m, entries[0]), entries[1..]);
    }
  }

  lemma {:induction false} AddAllConcat(m: Matcher, a: seq<Entry>, b: seq<Entry>)
    ensures AddAll(m, a + b) == AddAll(AddAll(m, a), b)
    decreases |a|
  {
    if a == [] {
      assert a + b == b;
    } else {
      assert (a + b)[1..] == a[1..] + b;
      AddAllConcat(Add(m, a[0]), a[1..], b);
    }
  }

  lemma {:induction false} AddNames(m: Matcher, names: seq<string>)
    ensures AddAll(m, ExactsOf(names)) == m.(exact := m.exact + Elements(names))
    ensures AddAll(m, ExcludedExactsOf(names)) == m.(excludedExact := m.excludedExact + Elements(names))
    decreases |names|
  {
    if names != [] {
      assert ExactsOf(names)[1..] == ExactsOf(names[1..]);
      assert ExcludedExactsOf(names)[1..] == ExcludedExactsOf(names[1..]);
      AddNames(Add(m, Exact(names[0])), names[1..]);
      AddNames(Add(m, ExcludedExact(names[0])), names[1..]);
      assert Elements(names) == {names[0]} + Elements(names[1..]);
    } else {
      assert Elements(names) == {};
    }
  }

  lemma {:induction false} AddSuffixes(m: Matcher, suffixes: seq<string>)
    ensures AddAll(m, WildcardsOf(suffixes)) == m.(suffixes := m.suffixes + suffixes)
    ensures AddAll(m, ExcludedWildcardsOf(suffixes)) == m.(excludedSuffixes := m.excludedSuffixes + suffixes)
    decreases |suffixes|
  {
    if suffixes != [] {
      assert WildcardsOf(suffixes)[1..] == WildcardsOf(suffixes[1..]);
      assert ExcludedWildcardsOf(suffixes)[1..] == ExcludedWildcardsOf(suffixes[1..]);
      AddSuffixes(Add(m, Wildcard(suffixes[0])), suffixes[1..]);
      AddSuffixes(Add(m, ExcludedWildcard(suffixes[0])), suffixes[1..]);
      assert forall base: seq<string> :: base + [suffixes[0]] + suffixes[1..] == base + suffixes;
    } else {
      assert m.suffixes + suffixes == m.suffixes && m.excludedSuffixes + suffixes == m.excludedSuffixes;
    }
  }

  lemma AddAllSections(m: Matcher, a: seq<Entry>, b: seq<Entry>, c: seq<Entry>, d: seq<Entry>)
    ensures AddAll(m, a + b + c + d) == AddAll(AddAll(AddAll(AddAll(m, a), b), c), d)
  {
    AddAllConcat(m, a + b + c, d);
    AddAllConcat(m, a + b, c);
    AddAllConcat(m, a, b);
  }

  lemma SectionsRebuild(exacts: seq<string>, suffixes: seq<string>, excluded: seq<string>, excludedSuffixes: seq<string>)
    ensures AddAll(NOTHING, ExactsOf(exacts) + WildcardsOf(suffixes)
                            + ExcludedExactsOf(excluded) + ExcludedWildcardsOf(excludedSuffixes))
         == Matcher(Elements(exacts), suffixes, Elements(excluded), excludedSuffixes)
  {
    AddAllSections(NOTHING, ExactsOf(exacts), WildcardsOf(suffixes),
                   ExcludedExactsOf(excluded), ExcludedWildcardsOf(excludedSuffixes));
    var m1 := Matcher(Elements(exacts), [], {}, []);
    var m2 := Matcher(Elements(exacts), suffixes, {}, []);
    var m3 := Matcher(Elements(exacts), suffixes, Elements(excluded), []);
    AddNames(NOTHING, exacts);
    assert AddAll(NOTHING, ExactsOf(exacts)) == m1;
    AddSuffixes(m1, suffixes);
    assert AddAll(m1, WildcardsOf(suffixes)) == m2;
    AddNames(m2, excluded);
    assert AddAll(m2, ExcludedExactsOf(excluded)) == m3;
    AddSuffixes(m3, excludedSuffixes);
  }

  /** Adding a matcher's own entries to an empty one rebuilds it. */
  lemma EntriesRebuild(m: Matcher)
    ensures AddAll(NOTHING, m.Entries()) == m
  {
    SectionsRebuild(SortedList(m.exact), m.suffixes, SortedList(m.excludedExact), m.excludedSuffixes);
    assert Elements(SortedList(m.exact)) == m.exact;
    assert Elements(SortedList(m.excludedExact)) == m.excludedExact;
  }

  lemma ExactsHold(list: seq<string>, e: Entry)
    ensures e in ExactsOf(list) <==> e.Exact? && e.name in list
    ensures e in ExcludedExactsOf(list) <==> e.ExcludedExact? && e.name in list
  {
    if e.Exact? && e.name in list {
      var i :| 0 <= i < |list| && list[i] == e.name;
      assert ExactsOf(list)[i] == e;
    }
    if e.ExcludedExact? && e.name in list {
      var i :| 0 <= i < |list| && list[i] == e.name;
      assert ExcludedExactsOf(list)[i] == e;
    }
  }

  lemma WildcardsHold(list: seq<string>, e: Entry)
    ensures e in WildcardsOf(list) <==> e.Wildcard? && e.suffix in list
    ensures e in ExcludedWildcardsOf(list) <==> e.ExcludedWildcard? && e.suffix in list
  {
    if e.Wildcard? && e.suffix in list {
      var i :| 0 <= i < |list| && list[i] == e.suffix;
      assert WildcardsOf(list)[i] == e;
    }
    if e.ExcludedWildcard? && e.suffix in list {
      var i :| 0 <= i < |list| && list[i] == e.suffix;
      assert ExcludedWildcardsOf(list)[i] == e;
    }
  }

  lemma EntriesHeld(m: Matcher, e: Entry)
    ensures e in m.Entries() <==> Holds(m, e)
  {
    ExactsHold(SortedList(m.exact), e);
    WildcardsHold(m.suffixes, e);
    ExactsHold(SortedList(m.excludedExact), e);
    WildcardsHold(m.excludedSuffixes, e);
  }

  /** An entry of a parsed matcher is written as one of the patterns, and reads back as itself. */
  lemma EntryReadsBack(patterns: seq<string>, e: Entry)
    requires Parsed(patterns).Ok? && e in Parsed(patterns).value.Entries()
    ensures Classify(Written(e)) == Ok(e) && Written(e) in patterns
  {
    ParsedDeclares(patterns);
    EntriesHeld(Parsed(patterns).value, e);
    DeclaredIsWritten(patterns, e);
  }

  /** For patterns without commas, splitting what a matcher prints and parsing it again
      gives back that matcher. */
  lemma PrintThenParse(patterns: seq<string>)
    requires Parsed(patterns).Ok?
    requires forall p <- patterns :: ',' !in p
    ensures Parsed(Split(Parsed(patterns).value.String(), ',')) == Parsed(patterns)
  {
    var m := Parsed(patterns).value;
    var entries := m.Entries();
    forall e | e in entries ensures Classify(Written(e)) == Ok(e) && ',' !in Written(e) {
      EntryReadsBack(patterns, e);
    }
    CollectWritten(NOTHING, entries);
    EntriesRebuild(m);
    assert AddAll(NOTHING, []) == NOTHING && !m.Empty();
    assert entries != [];
    SplitJoin(WrittenAll(entries), ',');
  }

  /** And only for those: whatever comes of splitting has no commas, so a pattern with one is not read back. */
  lemma PrintThenParseExactly(patterns: seq<string>)
    requires Parsed(patterns).Ok?
    ensures Parsed(Split(Parsed(patterns).value.String(), ',')) == Parsed(patterns) <==> forall p <- patterns :: ',' !in p
  {
    var parts := Split(Parsed(patterns).value.String(), ',');
    if forall p <- patterns :: ',' !in p {
      PrintThenParse(patterns);
    }
    if Parsed(parts) == Parsed(patterns) {
      ParsedDeclares(patterns);
      ParsedDeclares(parts);
      forall p | p in patterns ensures p in parts {
        ClassifyWritten(p);
        var e := Classify(p).value;
        assert Declares(patterns, e) && Holds(Parsed(parts).value, e);
        DeclaredIsWritten(parts, e);
      }
    }
  }

  /** So two comma-free configurations that print alike are the same matcher. */
  lemma PrintInjective(a: seq<string>, b: seq<string>)
    requires Parsed(a).Ok? && Parsed(b).Ok?
    requires forall p <- a + b :: ',' !in p
    requires Parsed(a).value.String() == Parsed(b).value.String()
    ensures Parsed(a) == Parsed(b)
  {
    assert forall p <- a :: p in a + b;
    assert forall p <- b :: p in a + b;
    PrintThenParse(a);
    PrintThenParse(b);
  }

  function Names(exact: set<string>): Matcher {
    NOTHING.(exact := exact)
  }

  lemma NamesParse(names: seq<string>)
    requires names != [] && forall name <- names :: Classify(name) == Ok(Exact(name))
    ensures Parsed(names) == Ok(Names(Elements(names)))
  {
    CollectWritten(NOTHING, ExactsOf(names));
    assert WrittenAll(ExactsOf(names)) == names;
    AddNames(NOTHING, names);
    assert NOTHING.exact + Elements(names) == Elements(names);
    assert names[0] in Elements(names);
  }

  lemma NamesPrint(exact: set<string>)
    ensures Names(exact).String() == Join(SortedList(exact), ',')
  {
    assert SortedList({}) == [];
    assert Names(exact).Entries() == ExactsOf(SortedList(exact));
    assert WrittenAll(ExactsOf(SortedList(exact))) == SortedList(exact);
  }

  lemma ListOfTwo(a: string, b: string)
    requires Less(a, b)
    ensures SortedList({a, b}) == [a, b]
  {
    LessTotal(a, b);
    var sorted := SortedList({a, b});
    assert |{a, b}| == 2 && a in sorted && b in sorted;
  }

  lemma ListOfOne(a: string)
    ensures SortedList({a}) == [a]
  {
    assert |{a}| == 1 && a in SortedList({a});
  }

  lemma NamesWithComma(a: string, b: string)
    requires Classify(a) == Ok(Exact(a)) && Classify(b) == Ok(Exact(b))
    ensures Classify(a + "," + b) == Ok(Exact(a + "," + b))
  {
    var c := a + "," + b;
    assert a[0] == c[0];
    assert HasPrefix(a, "!") == (a[0] == '!') && HasPrefix(c, "!") == (c[0] == '!');
  }

  lemma NamesPrintTogether(a: string, b: string)
    requires Less(a, b)
    ensures Names({a, b}).String() == Names({a + "," + b}).String()
  {
    var c := a + "," + b;
    NamesPrint({a, b});
    ListOfTwo(a, b);
    assert Join([a, b], ',') == a + [','] + b by { assert [a, b][1..] == [b]; }
    NamesPrint({c});
    ListOfOne(c);
  }

  /** A comma inside a pattern breaks this. Whatever two groups are named, a list with the one
      name "a,b" prints like the list naming both, and serves neither. */
  lemma CommaBreaksPrinting(a: string, b: string)
    requires Classify(a) == Ok(Exact(a)) && Classify(b) == Ok(Exact(b)) && Less(a, b)
    ensures Parsed([a, b]).Ok? && Parsed([a + "," + b]).Ok?
    ensures Parsed([a, b]).value.String() == Parsed([a + "," + b]).value.String()
    ensures Parsed([a, b]).value.Matches(a) && !Parsed([a + "," + b]).value.Matches(a)
  {
    var c := a + "," + b;
    NamesWithComma(a, b);
    NamesParse([c]);
    NamesParse([a, b]);
    assert Elements([a, b]) == {a, b} && Elements([c]) == {c};
    assert Parsed([a, b]) == Ok(Names({a, b})) && Parsed([c]) == Ok(Names({c}));
    NamesPrintTogether(a, b);
    assert |a| < |c|;
  }
}
