/** Aggregated discovery: the flat list of a version's resources, its subresources nested under their
    parents (`pkg/apiserver/discovery.go`). */
module Discovery {
  import opened Wrappers
  import opened ResourceCaches

  datatype ResponseKind = ResponseKind(group: string, version: string, kind: string)

  datatype Subresource = Subresource(name: string, responseKind: ResponseKind, verbs: seq<string>)

  datatype Resource = Resource(
    name: string, responseKind: ResponseKind, namespaced: bool, singularName: string,
    verbs: seq<string>, shortNames: seq<string>, categories: seq<string>, subresources: seq<Subresource>)

  /** Go's `strings.Cut` at the first slash: what precedes it, and what follows if there is one. */
  function Cut(name: string): (r: (string, Option<string>))
    ensures '/' !in r.0
    ensures name == match r.1 case None => r.0 case Some(rest) => r.0 + "/" + rest
  {
    if name == "" then ("", None)
    else if name[0] == '/' then ("", Some(name[1..]))
    else
      var rest := Cut(name[1..]);
      ([name[0]] + rest.0, rest.1)
  }

  predicate IsParent(r: APIResource) {
    Cut(r.name).1.None?
  }

  function KindOf(gv: GroupVersion, r: APIResource): ResponseKind {
    if r.group == "" && r.version == "" then ResponseKind(gv.group, gv.version, r.kind)
    else ResponseKind(r.group, r.version, r.kind)
  }

  function Bare(gv: GroupVersion, r: APIResource): Resource {
    Resource(Cut(r.name).0, KindOf(gv, r), r.namespaced, r.singularName, r.verbs, r.shortNames, r.categories, [])
  }

  function Nestled(gv: GroupVersion, r: APIResource): Subresource
    requires !IsParent(r)
  {
    Subresource(Cut(r.name).1.value, KindOf(gv, r), r.verbs)
  }

  // -------- what the loops compute --------

  /** The names of the resources that are not subresources, in order. */
  function Parents(resources: seq<APIResource>): seq<string> {
    if resources == [] then []
    else
      var earlier, last := Parents(resources[..|resources| - 1]), resources[|resources| - 1];
      if IsParent(last) then earlier + [last.name] else earlier
  }

  function Described(resources: seq<APIResource>, name: string): Option<APIResource> {
    if resources == [] then None
    else
      var last := resources[|resources| - 1];
      if IsParent(last) && last.name == name then Some(last) else Described(resources[..|resources| - 1], name)
  }

  function SubresourcesOf(gv: GroupVersion, resources: seq<APIResource>, name: string): seq<Subresource> {
    if resources == [] then []
    else
      var earlier, last := SubresourcesOf(gv, resources[..|resources| - 1], name), resources[|resources| - 1];
      if !IsParent(last) && Cut(last.name).0 == name then earlier + [Nestled(gv, last)] else earlier
  }

  lemma {:induction false} ParentsDescribed(resources: seq<APIResource>, name: string)
    ensures name in Parents(resources) <==> Described(resources, name).Some?
    ensures Described(resources, name).Some? ==>
              IsParent(Described(resources, name).value) && Described(resources, name).value.name == name
  {
    if resources != [] {
      ParentsDescribed(resources[..|resources| - 1], name);
    }
  }

  function Assembled(gv: GroupVersion, resources: seq<APIResource>, order: seq<string>): seq<Resource>
    requires forall name <- order :: name in Parents(resources)
  {
    if order == [] then []
    else
      var name := order[|order| - 1];
      ParentsDescribed(resources, name);
      Assembled(gv, resources, order[..|order| - 1])
        + [Bare(gv, Described(resources, name).value).(subresources := SubresourcesOf(gv, resources, name))]
  }

  function Nested(gv: GroupVersion, resources: seq<APIResource>): seq<Resource> {
    Assembled(gv, resources, Parents(resources))
  }

  /** The two maps being filled stand for the resources gone through. */
  ghost predicate Indexes(gv: GroupVersion, resources: seq<APIResource>, parents: map<string, Resource>) {
    forall name :: (Described(resources, name).Some? <==> name in parents)
                   && (name in parents ==> parents[name] == Bare(gv, Described(resources, name).value))
  }

  ghost predicate Gathers(gv: GroupVersion, resources: seq<APIResource>, subresources: map<string, seq<Subresource>>) {
    forall name :: SubresourcesOf(gv, resources, name) == Listed(subresources, name)
  }

  function Listed(subresources: map<string, seq<Subresource>>, name: string): seq<Subresource> {
    if name in subresources then subresources[name] else []
  }

  lemma Snoc(gv: GroupVersion, resources: seq<APIResource>, r: APIResource, name: string)
    ensures Parents(resources + [r]) == if IsParent(r) then Parents(resources) + [r.name] else Parents(resources)
    ensures Described(resources + [r], name) == if IsParent(r) && r.name == name then Some(r) else Described(resources, name)
    ensures SubresourcesOf(gv, resources + [r], name)
         == if !IsParent(r) && Cut(r.name).0 == name then SubresourcesOf(gv, resources, name) + [Nestled(gv, r)]
            else SubresourcesOf(gv, resources, name)
    ensures Lines(gv, resources + [r]) == Lines(gv, resources) + [LineOf(gv, r)]
  {
    assert (resources + [r])[..|resources|] == resources;
  }

  lemma IndexesParent(gv: GroupVersion, resources: seq<APIResource>, r: APIResource,
                      parents: map<string, Resource>, subresources: map<string, seq<Subresource>>)
    requires Indexes(gv, resources, parents) && Gathers(gv, resources, subresources) && IsParent(r)
    ensures Indexes(gv, resources + [r], parents[r.name := Bare(gv, r)]) && Gathers(gv, resources + [r], subresources)
  {
    forall name {
      Snoc(gv, resources, r, name);
    }
  }

  lemma GathersPart(gv: GroupVersion, resources: seq<APIResource>, r: APIResource,
                    parents: map<string, Resource>, subresources: map<string, seq<Subresource>>)
    requires Indexes(gv, resources, parents) && Gathers(gv, resources, subresources) && !IsParent(r)
    ensures var name := Cut(r.name).0;
            && Indexes(gv, resources + [r], parents)
            && Gathers(gv, resources + [r], subresources[name := Listed(subresources, name) + [Nestled(gv, r)]])
  {
    forall name {
      Snoc(gv, resources, r, name);
    }
  }

  /** What the first loop has filed away. */
  ghost predicate Filed(gv: GroupVersion, resources: seq<APIResource>, order: seq<string>,
                        parents: map<string, Resource>, subresources: map<string, seq<Subresource>>) {
    order == Parents(resources) && Indexes(gv, resources, parents) && Gathers(gv, resources, subresources)
  }

  lemma NothingFiled(gv: GroupVersion)
    ensures Filed(gv, [], [], map[], map[])
  {
  }

  lemma FileParent(gv: GroupVersion, resources: seq<APIResource>, r: APIResource, order: seq<string>,
                   parents: map<string, Resource>, subresources: map<string, seq<Subresource>>)
    requires Filed(gv, resources, order, parents, subresources) && IsParent(r)
    ensures var name := Cut(r.name).0;
            Filed(gv, resources + [r], order + [name], parents[name := Bare(gv, r)], subresources)
  {
    IndexesParent(gv, resources, r, parents, subresources);
    Snoc(gv, resources, r, "");
  }

  lemma FilePart(gv: GroupVersion, resources: seq<APIResource>, r: APIResource, order: seq<string>,
                 parents: map<string, Resource>, subresources: map<string, seq<Subresource>>)
    requires Filed(gv, resources, order, parents, subresources) && !IsParent(r)
    ensures var name := Cut(r.name).0;
            Filed(gv, resources + [r], order, parents, subresources[name := Listed(subresources, name) + [Nestled(gv, r)]])
  {
    GathersPart(gv, resources, r, parents, subresources);
    Snoc(gv, resources, r, "");
  }

  method AggregatedVersion(gv: GroupVersion, resources: seq<APIResource>) returns (discovered: seq<Resource>)
    ensures discovered == Nested(gv, resources)
  {
    var order, parents, subresources := File(gv, resources);
    discovered := Assemble(gv, resources, order, parents, subresources);
  }

  /** Files each resource away as a parent or under one. */
  method File(gv: GroupVersion, resources: seq<APIResource>)
    returns (order: seq<string>, parents: map<string, Resource>, subresources: map<string, seq<Subresource>>)
    ensures Filed(gv, resources, order, parents, subresources)
  {
    order, parents, subresources := [], map[], map[];
    ghost var done: seq<APIResource> := [];
    NothingFiled(gv);
    for i := 0 to |resources|
      invariant done == resources[..i] && Filed(gv, done, order, parents, subresources)
    {
      var resource := resources[i];
      var name := Cut(resource.name).0;
      if !IsParent(resource) {
        FilePart(gv, done, resource, order, parents, subresources);
        subresources := subresources[name := Listed(subresources, name) + [Nestled(gv, resource)]];
      } else {
        FileParent(gv, done, resource, order, parents, subresources);
        parents := parents[name := Bare(gv, resource)];
        order := order + [name];
      }
      done := done + [resource];
    }
    assert done == resources;
  }

  /** Puts the parts together, in order. */
  method Assemble(gv: GroupVersion, ghost resources: seq<APIResource>, order: seq<string>,
                  parents: map<string, Resource>, subresources: map<string, seq<Subresource>>)
    returns (discovered: seq<Resource>)
    requires forall name <- order :: name in Parents(resources)
    requires Indexes(gv, resources, parents) && Gathers(gv, resources, subresources)
    ensures discovered == Assembled(gv, resources, order)
  {
    discovered := [];
    for i := 0 to |order|
      invariant discovered == Assembled(gv, resources, order[..i])
    {
      assert order[..i + 1][..i] == order[..i];
      ParentsDescribed(resources, order[i]);
      discovered := discovered + [parents[order[i]].(subresources := Listed(subresources, order[i]))];
    }
    assert order[..|order|] == order;
  }

  // -------- flattening --------

  /** One entry of a flat list, as aggregated discovery can tell it. */
  datatype Line =
    | Whole(name: string, responseKind: ResponseKind, namespaced: bool, singularName: string,
            verbs: seq<string>, shortNames: seq<string>, categories: seq<string>)
    | Part(name: string, responseKind: ResponseKind, verbs: seq<string>)

  function LineOf(gv: GroupVersion, r: APIResource): Line {
    if IsParent(r) then Whole(r.name, KindOf(gv, r), r.namespaced, r.singularName, r.verbs, r.shortNames, r.categories)
    else Part(r.name, KindOf(gv, r), r.verbs)
  }

  function Lines(gv: GroupVersion, resources: seq<APIResource>): seq<Line> {
    if resources == [] then []
    else Lines(gv, resources[..|resources| - 1]) + [LineOf(gv, resources[|resources| - 1])]
  }

  function PartLines(name: string, subresources: seq<Subresource>): seq<Line> {
    if subresources == [] then []
    else
      var last := subresources[|subresources| - 1];
      PartLines(name, subresources[..|subresources| - 1]) + [Part(name + "/" + last.name, last.responseKind, last.verbs)]
  }

  function FlatOne(r: Resource): seq<Line> {
    [Whole(r.name, r.responseKind, r.namespaced, r.singularName, r.verbs, r.shortNames, r.categories)]
      + PartLines(r.name, r.subresources)
  }

  function Flat(discovered: seq<Resource>): seq<Line> {
    if discovered == [] then []
    else Flat(discovered[..|discovered| - 1]) + FlatOne(discovered[|discovered| - 1])
  }

  // -------- picking lines out --------

  function Pick(lines: seq<Line>, chosen: Line -> bool): seq<Line> {
    if lines == [] then []
    else
      var earlier, last := Pick(lines[..|lines| - 1], chosen), lines[|lines| - 1];
      if chosen(last) then earlier + [last] else earlier
  }

  function Wholes(): Line -> bool {
    (l: Line) => l.Whole?
  }

  function PartsOf(parent: string): Line -> bool {
    (l: Line) => l.Part? && Cut(l.name).0 == parent
  }

  /** Everything but the subresources whose parent is not listed. */
  function Attached(parents: seq<string>): Line -> bool {
    (l: Line) => l.Whole? || Cut(l.name).0 in parents
  }

  lemma PickSnoc(lines: seq<Line>, l: Line, chosen: Line -> bool)
    ensures Pick(lines + [l], chosen) == if chosen(l) then Pick(lines, chosen) + [l] else Pick(lines, chosen)
  {
    assert (lines + [l])[..|lines|] == lines;
  }

  lemma {:induction false} PickConcat(a: seq<Line>, b: seq<Line>, chosen: Line -> bool)
    ensures Pick(a + b, chosen) == Pick(a, chosen) + Pick(b, chosen)
  {
    if b == [] {
      assert a + b == a;
    } else {
      var shorter, last := b[..|b| - 1], b[|b| - 1];
      assert a + b == (a + shorter) + [last];
      PickSnoc(a + shorter, last, chosen);
      PickConcat(a, shorter, chosen);
    }
  }

  lemma {:induction false} PickCounts(lines: seq<Line>, chosen: Line -> bool, l: Line)
    ensures multiset(Pick(lines, chosen))[l] == if chosen(l) then multiset(lines)[l] else 0
  {
    if lines != [] {
      var shorter, last := lines[..|lines| - 1], lines[|lines| - 1];
      PickCounts(shorter, chosen, l);
      assert lines == shorter + [last];
      PickSnoc(shorter, last, chosen);
      assert multiset(lines) == multiset(shorter) + multiset{last};
      var earlier := Pick(shorter, chosen);
      assert Pick(lines, chosen) == if chosen(last) then earlier + [last] else earlier;
      assert multiset(earlier + [last]) == multiset(earlier) + multiset{last};
    }
  }

  lemma {:induction false} CutPart(parent: string, rest: string)
    requires '/' !in parent
    ensures Cut(parent + "/" + rest) == (parent, Some(rest))
  {
    var name := parent + "/" + rest;
    if parent == "" {
      assert name[1..] == rest;
    } else {
      assert name[1..] == parent[1..] + "/" + rest;
      CutPart(parent[1..], rest);
      assert parent == [parent[0]] + parent[1..];
    }
  }

  lemma {:induction false} PartLinesPicked(name: string, subresources: seq<Subresource>, other: string)
    requires '/' !in name
    ensures Pick(PartLines(name, subresources), Wholes()) == []
    ensures Pick(PartLines(name, subresources), PartsOf(other)) == if other == name then PartLines(name, subresources) else []
  {
    if subresources != [] {
      var shorter, last := subresources[..|subresources| - 1], subresources[|subresources| - 1];
      var line := Part(name + "/" + last.name, last.responseKind, last.verbs);
      PartLinesPicked(name, shorter, other);
      CutPart(name, last.name);
      PickSnoc(PartLines(name, shorter), line, Wholes());
      PickSnoc(PartLines(name, shorter), line, PartsOf(other));
    }
  }

  lemma PartLinesSnoc(name: string, subresources: seq<Subresource>, last: Subresource)
    ensures PartLines(name, subresources + [last])
         == PartLines(name, subresources) + [Part(name + "/" + last.name, last.responseKind, last.verbs)]
  {
    assert (subresources + [last])[..|subresources|] == subresources;
  }

  /** The subresources gathered for a name are those listed under it, in their order. */
  lemma {:induction false} GatheredParts(gv: GroupVersion, resources: seq<APIResource>, name: string)
    ensures PartLines(name, SubresourcesOf(gv, resources, name)) == Pick(Lines(gv, resources), PartsOf(name))
  {
    if resources != [] {
      var shorter, last := resources[..|resources| - 1], resources[|resources| - 1];
      GatheredParts(gv, shorter, name);
      PickSnoc(Lines(gv, shorter), LineOf(gv, last), PartsOf(name));
      if !IsParent(last) {
        PartLinesSnoc(name, SubresourcesOf(gv, shorter, name), Nestled(gv, last));
      }
    }
  }

  lemma FlatOnePick(r: Resource, other: string)
    requires '/' !in r.name
    ensures Pick(FlatOne(r), Wholes()) == [FlatOne(r)[0]]
    ensures Pick(FlatOne(r), PartsOf(other)) == if other == r.name then PartLines(r.name, r.subresources) else []
  {
    var whole := FlatOne(r)[0];
    var parts := PartLines(r.name, r.subresources);
    assert FlatOne(r) == [whole] + parts;
    PickSnoc([], whole, Wholes());
    PickSnoc([], whole, PartsOf(other));
    assert [] + [whole] == [whole];
    PickConcat([whole], parts, Wholes());
    PickConcat([whole], parts, PartsOf(other));
    PartLinesPicked(r.name, r.subresources, other);
  }

  lemma FlatOnePicked(gv: GroupVersion, resources: seq<APIResource>, name: string, other: string)
    requires name in Parents(resources)
    ensures Described(resources, name).Some? && IsParent(Described(resources, name).value)
    ensures var r := Bare(gv, Described(resources, name).value).(subresources := SubresourcesOf(gv, resources, name));
            && Pick(FlatOne(r), Wholes()) == [LineOf(gv, Described(resources, name).value)]
            && Pick(FlatOne(r), PartsOf(other)) == if other == name then Pick(Lines(gv, resources), PartsOf(name)) else []
  {
    ParentsDescribed(resources, name);
    var r := Bare(gv, Described(resources, name).value).(subresources := SubresourcesOf(gv, resources, name));
    FlatOnePick(r, other);
    GatheredParts(gv, resources, name);
  }

  // -------- nothing lost but orphans --------

  ghost predicate Distinct(names: seq<string>) {
    forall i, j | 0 <= i < j < |names| :: names[i] != names[j]
  }

  function DescribedLines(gv: GroupVersion, resources: seq<APIResource>, order: seq<string>): seq<Line>
    requires forall name <- order :: name in Parents(resources)
  {
    if order == [] then []
    else
      var name := order[|order| - 1];
      ParentsDescribed(resources, name);
      DescribedLines(gv, resources, order[..|order| - 1]) + [LineOf(gv, Described(resources, name).value)]
  }

  lemma DescribedLinesSnoc(gv: GroupVersion, resources: seq<APIResource>, order: seq<string>)
    requires order != [] && forall n <- order :: n in Parents(resources)
    ensures var shorter, last := order[..|order| - 1], order[|order| - 1];
            && Described(resources, last).Some?
            && DescribedLines(gv, resources, order)
                 == DescribedLines(gv, resources, shorter) + [LineOf(gv, Described(resources, last).value)]
  {
    ParentsDescribed(resources, order[|order| - 1]);
  }

  lemma AssembledSnoc(gv: GroupVersion, resources: seq<APIResource>, order: seq<string>)
    requires order != [] && forall n <- order :: n in Parents(resources)
    ensures var shorter, last := order[..|order| - 1], order[|order| - 1];
            && Described(resources, last).Some? && IsParent(Described(resources, last).value)
            && Flat(Assembled(gv, resources, order)) == Flat(Assembled(gv, resources, shorter))
                 + FlatOne(Bare(gv, Described(resources, last).value).(subresources := SubresourcesOf(gv, resources, last)))
  {
    var shorter, last := order[..|order| - 1], order[|order| - 1];
    ParentsDescribed(resources, last);
    FlatSnoc(Assembled(gv, resources, shorter),
             Bare(gv, Described(resources, last).value).(subresources := SubresourcesOf(gv, resources, last)));
  }

  /** One more resource assembled: its own line, and those of its subresources, go at the end. */
  lemma AssembledStep(gv: GroupVersion, resources: seq<APIResource>, order: seq<string>, name: string)
    requires order != [] && forall n <- order :: n in Parents(resources)
    ensures var shorter, last := order[..|order| - 1], order[|order| - 1];
            var flat, earlier := Flat(Assembled(gv, resources, order)), Flat(Assembled(gv, resources, shorter));
            && Described(resources, last).Some?
            && Pick(flat, Wholes()) == Pick(earlier, Wholes()) + [LineOf(gv, Described(resources, last).value)]
            && Pick(flat, PartsOf(name))
                 == if name == last then Pick(earlier, PartsOf(name)) + Pick(Lines(gv, resources), PartsOf(last))
                    else Pick(earlier, PartsOf(name))
  {
    var shorter, last := order[..|order| - 1], order[|order| - 1];
    AssembledSnoc(gv, resources, order);
    FlatOnePicked(gv, resources, last, name);
    var r := Bare(gv, Described(resources, last).value).(subresources := SubresourcesOf(gv, resources, last));
    PickConcat(Flat(Assembled(gv, resources, shorter)), FlatOne(r), Wholes());
    PickConcat(Flat(Assembled(gv, resources, shorter)), FlatOne(r), PartsOf(name));
  }

  lemma {:induction false} AssembledWholes(gv: GroupVersion, resources: seq<APIResource>, order: seq<string>)
    requires forall n <- order :: n in Parents(resources)
    ensures Pick(Flat(Assembled(gv, resources, order)), Wholes()) == DescribedLines(gv, resources, order)
  {
    if order != [] {
      AssembledWholes(gv, resources, order[..|order| - 1]);
      AssembledStep(gv, resources, order, "");
      DescribedLinesSnoc(gv, resources, order);
    }
  }

  function Occurrences(order: seq<string>, name: string): nat {
    if order == [] then 0
    else Occurrences(order[..|order| - 1], name) + if order[|order| - 1] == name then 1 else 0
  }

  function Times(n: nat, count: nat): nat {
    if n == 0 then 0 else Times(n - 1, count) + count
  }

  lemma ConcatCounts(a: seq<Line>, b: seq<Line>, l: Line)
    ensures multiset(a + b)[l] == multiset(a)[l] + multiset(b)[l]
  {
    assert multiset(a + b) == multiset(a) + multiset(b);
  }

  /** A parent's subresources are listed once for every time it is. */
  lemma {:induction false} AssembledParts(gv: GroupVersion, resources: seq<APIResource>, order: seq<string>,
                                          name: string, l: Line)
    requires forall n <- order :: n in Parents(resources)
    ensures multiset(Pick(Flat(Assembled(gv, resources, order)), PartsOf(name)))[l]
              == Times(Occurrences(order, name), multiset(Pick(Lines(gv, resources), PartsOf(name)))[l])
  {
    if order != [] {
      var n, count := Occurrences(order[..|order| - 1], name), multiset(Pick(Lines(gv, resources), PartsOf(name)))[l];
      AssembledParts(gv, resources, order[..|order| - 1], name, l);
      PartsStep(gv, resources, order, name, l);
      assert Occurrences(order, name) == if order[|order| - 1] == name then n + 1 else n;
      assert Times(n + 1, count) == Times(n, count) + count;
    }
  }

  lemma PartsStep(gv: GroupVersion, resources: seq<APIResource>, order: seq<string>, name: string, l: Line)
    requires order != [] && forall n <- order :: n in Parents(resources)
    ensures multiset(Pick(Flat(Assembled(gv, resources, order)), PartsOf(name)))[l]
              == multiset(Pick(Flat(Assembled(gv, resources, order[..|order| - 1])), PartsOf(name)))[l]
                   + if order[|order| - 1] == name then multiset(Pick(Lines(gv, resources), PartsOf(name)))[l] else 0
  {
    AssembledStep(gv, resources, order, name);
    ConcatCounts(Pick(Flat(Assembled(gv, resources, order[..|order| - 1])), PartsOf(name)),
                 Pick(Lines(gv, resources), PartsOf(name)), l);
  }

  lemma {:induction false} OccursIn(order: seq<string>, name: string)
    ensures Occurrences(order, name) > 0 <==> name in order
    ensures Occurrences(order, name) > 1 <==> exists i, j :: 0 <= i < j < |order| && order[i] == order[j] == name
  {
    if order != [] {
      var n := |order| - 1;
      OccursIn(order[..n], name);
      assert order == order[..n] + [order[n]];
      if order[n] == name && name in order[..n] {
        var i :| 0 <= i < n && order[..n][i] == name;
        assert order[i] == order[n] == name;
      }
      if i, j :| 0 <= i < j < n && order[..n][i] == order[..n][j] == name {
        assert order[i] == order[j] == name;
      }
      if i, j :| 0 <= i < j < |order| && order[i] == order[j] == name {
        assert order[..n][i] == name;
        assert j < n ==> order[..n][j] == name;
      }
    }
  }

  lemma FlatSnoc(discovered: seq<Resource>, r: Resource)
    ensures Flat(discovered + [r]) == Flat(discovered) + FlatOne(r)
  {
    assert (discovered + [r])[..|discovered|] == discovered;
  }

  lemma {:induction false} DescribedListed(resources: seq<APIResource>, name: string)
    requires Described(resources, name).Some?
    ensures exists i :: 0 <= i < |resources| && resources[i] == Described(resources, name).value
    ensures IsParent(Described(resources, name).value) && Described(resources, name).value.name == name
  {
    var n := |resources| - 1;
    if IsParent(resources[n]) && resources[n].name == name {
      assert resources[n] == Described(resources, name).value;
    } else {
      DescribedListed(resources[..n], name);
      var i :| 0 <= i < n && resources[..n][i] == Described(resources[..n], name).value;
      assert resources[i] == Described(resources, name).value;
    }
  }

  lemma {:induction false} ParentsHold(resources: seq<APIResource>, name: string)
    ensures name in Parents(resources) <==> exists r <- resources :: IsParent(r) && r.name == name
    ensures Occurrences(Parents(resources), name) > 1 <==>
              exists i, j :: 0 <= i < j < |resources| && SameParent(resources[i], resources[j], name)
  {
    if resources != [] {
      var shorter, last := resources[..|resources| - 1], resources[|resources| - 1];
      assert resources == shorter + [last];
      ParentsHold(shorter, name);
      OccursIn(Parents(shorter), name);
      if IsParent(last) {
        assert Parents(resources)[..|Parents(shorter)|] == Parents(shorter);
      }
      PairsGrow(shorter, last, name);
    }
  }

  ghost predicate Twice(resources: seq<APIResource>, name: string) {
    exists i, j :: 0 <= i < j < |resources| && SameParent(resources[i], resources[j], name)
  }

  ghost predicate Once(resources: seq<APIResource>, name: string) {
    exists r <- resources :: IsParent(r) && r.name == name
  }

  lemma TwiceGrows(resources: seq<APIResource>, last: APIResource, name: string)
    requires Twice(resources, name) || (IsParent(last) && last.name == name && Once(resources, name))
    ensures Twice(resources + [last], name)
  {
    var all, n := resources + [last], |resources|;
    if i, j :| 0 <= i < j < n && SameParent(resources[i], resources[j], name) {
      assert all[i] == resources[i] && all[j] == resources[j];
    } else {
      var r :| r in resources && IsParent(r) && r.name == name;
      var i :| 0 <= i < n && resources[i] == r;
      assert all[i] == r && all[n] == last && SameParent(all[i], all[n], name);
    }
  }

  lemma PairsGrow(resources: seq<APIResource>, last: APIResource, name: string)
    ensures Twice(resources + [last], name) <==>
              Twice(resources, name) || (IsParent(last) && last.name == name && Once(resources, name))
  {
    if Twice(resources, name) || (IsParent(last) && last.name == name && Once(resources, name)) {
      TwiceGrows(resources, last, name);
    }
    var all, n := resources + [last], |resources|;
    if i, j :| 0 <= i < j < |all| && SameParent(all[i], all[j], name) {
      assert all[i] == resources[i] && resources[i] in resources;
      assert j < n ==> all[j] == resources[j] && SameParent(resources[i], resources[j], name);
    }
  }

  predicate SameParent(a: APIResource, b: APIResource, name: string) {
    IsParent(a) && IsParent(b) && a.name == b.name == name
  }

  predicate ListedAlike(gv: GroupVersion, resources: seq<APIResource>, i: nat, j: nat)
    requires i < |resources| && j < |resources|
  {
    LineOf(gv, resources[i]) == LineOf(gv, resources[j]) && SubresourcesOf(gv, resources, resources[i].name) == []
  }

  /** A name listed twice is listed alike, and has no subresources. */
  ghost predicate Consistent(gv: GroupVersion, resources: seq<APIResource>) {
    forall i, j | 0 <= i < j < |resources| && SameParent(resources[i], resources[j], resources[i].name) ::
      ListedAlike(gv, resources, i, j)
  }

  lemma Alike(gv: GroupVersion, resources: seq<APIResource>, i: nat, j: nat)
    requires Consistent(gv, resources) && i < |resources| && j < |resources|
    requires SameParent(resources[i], resources[j], resources[i].name)
    ensures LineOf(gv, resources[i]) == LineOf(gv, resources[j])
  {
    var name := resources[i].name;
    if i < j {
      assert ListedAlike(gv, resources, i, j);
    } else if j < i {
      assert SameParent(resources[j], resources[i], name) && ListedAlike(gv, resources, j, i);
    }
  }

  lemma DescribedAlike(gv: GroupVersion, resources: seq<APIResource>, i: nat)
    requires Consistent(gv, resources) && i < |resources| && IsParent(resources[i])
    ensures var d := Described(resources, resources[i].name); d.Some? && LineOf(gv, d.value) == LineOf(gv, resources[i])
  {
    var name := resources[i].name;
    var j := DescribedAt(resources, i);
    Alike(gv, resources, i, j);
  }

  lemma DescribedAt(resources: seq<APIResource>, i: nat) returns (j: nat)
    requires i < |resources| && IsParent(resources[i])
    ensures j < |resources| && Described(resources, resources[i].name) == Some(resources[j])
    ensures IsParent(resources[j]) && resources[j].name == resources[i].name
  {
    ParentsHold(resources, resources[i].name);
    ParentsDescribed(resources, resources[i].name);
    DescribedListed(resources, resources[i].name);
    j :| 0 <= j < |resources| && resources[j] == Described(resources, resources[i].name).value;
  }

  lemma ParentsOfPrefix(resources: seq<APIResource>, prefix: seq<APIResource>)
    requires prefix <= resources
    ensures forall n <- Parents(prefix) :: n in Parents(resources)
  {
    forall n | n in Parents(prefix) ensures n in Parents(resources) {
      ParentsHold(prefix, n);
      ParentsHold(resources, n);
      assert forall r <- prefix :: r in resources;
    }
  }

  lemma DescribedStep(gv: GroupVersion, resources: seq<APIResource>, prefix: seq<APIResource>, r: APIResource)
    requires Consistent(gv, resources) && prefix + [r] <= resources && IsParent(r)
    requires forall n <- Parents(prefix) :: n in Parents(resources)
    ensures r.name in Parents(resources)
    ensures DescribedLines(gv, resources, Parents(prefix) + [r.name])
         == DescribedLines(gv, resources, Parents(prefix)) + [LineOf(gv, r)]
  {
    var order, k := Parents(prefix), |prefix|;
    assert resources[k] == (prefix + [r])[k] == r;
    ParentsHold(resources, r.name);
    assert (order + [r.name])[..|order|] == order;
    DescribedLinesSnoc(gv, resources, order + [r.name]);
    DescribedAlike(gv, resources, k);
  }

  lemma WholesSnoc(gv: GroupVersion, prefix: seq<APIResource>, r: APIResource)
    ensures Pick(Lines(gv, prefix + [r]), Wholes())
         == if IsParent(r) then Pick(Lines(gv, prefix), Wholes()) + [LineOf(gv, r)] else Pick(Lines(gv, prefix), Wholes())
    ensures Parents(prefix + [r]) == if IsParent(r) then Parents(prefix) + [r.name] else Parents(prefix)
  {
    Snoc(gv, prefix, r, "");
    PickSnoc(Lines(gv, prefix), LineOf(gv, r), Wholes());
  }

  /** Of what is listed under one name, every parent's line is the last one's. */
  lemma {:induction false} DescribedAreWholes(gv: GroupVersion, resources: seq<APIResource>, prefix: seq<APIResource>)
    requires Consistent(gv, resources) && prefix <= resources
    ensures forall n <- Parents(prefix) :: n in Parents(resources)
    ensures DescribedLines(gv, resources, Parents(prefix)) == Pick(Lines(gv, prefix), Wholes())
    decreases |prefix|
  {
    ParentsOfPrefix(resources, prefix);
    if prefix != [] {
      var shorter, r := prefix[..|prefix| - 1], prefix[|prefix| - 1];
      assert prefix == shorter + [r];
      DescribedAreWholes(gv, resources, shorter);
      WholesSnoc(gv, shorter, r);
      if IsParent(r) {
        DescribedStep(gv, resources, shorter, r);
      }
    }
  }

  lemma {:induction false} DescribedLinesHold(gv: GroupVersion, resources: seq<APIResource>, order: seq<string>, l: Line)
    requires (forall n <- order :: n in Parents(resources)) && l in DescribedLines(gv, resources, order)
    ensures l.name in order && Described(resources, l.name).Some? && l == LineOf(gv, Described(resources, l.name).value)
  {
    var n := |order| - 1;
    ParentsDescribed(resources, order[n]);
    if l != LineOf(gv, Described(resources, order[n]).value) {
      DescribedLinesHold(gv, resources, order[..n], l);
    }
  }

  lemma DistinctIsConsistent(gv: GroupVersion, resources: seq<APIResource>)
    requires Distinct(Parents(resources))
    ensures Consistent(gv, resources)
  {
    forall i, j | 0 <= i < j < |resources| ensures !SameParent(resources[i], resources[j], resources[i].name) {
      ParentsHold(resources, resources[i].name);
      OccursIn(Parents(resources), resources[i].name);
    }
  }

  lemma RepeatedHasNone(gv: GroupVersion, resources: seq<APIResource>, name: string)
    requires Consistent(gv, resources) && Occurrences(Parents(resources), name) > 1
    ensures Pick(Lines(gv, resources), PartsOf(name)) == []
  {
    ParentsHold(resources, name);
    var i, j :| 0 <= i < j < |resources| && SameParent(resources[i], resources[j], name);
    assert ListedAlike(gv, resources, i, j);
    GatheredParts(gv, resources, name);
  }

  lemma ConsistentOnce(gv: GroupVersion, resources: seq<APIResource>, name: string, l: Line)
    requires Consistent(gv, resources)
    ensures multiset(Pick(Flat(Nested(gv, resources)), PartsOf(name)))[l]
              == if name in Parents(resources) then multiset(Pick(Lines(gv, resources), PartsOf(name)))[l] else 0
  {
    var n, count := Occurrences(Parents(resources), name), multiset(Pick(Lines(gv, resources), PartsOf(name)))[l];
    AssembledParts(gv, resources, Parents(resources), name, l);
    OccursIn(Parents(resources), name);
    if n > 1 {
      RepeatedHasNone(gv, resources, name);
      TimesNothing(n);
    }
    assert Times(1, count) == count;
  }

  lemma {:induction false} TimesNothing(n: nat)
    ensures Times(n, 0) == 0
  {
    if n > 0 { TimesNothing(n - 1); }
  }

  /** Nesting keeps the resources in their order, and each one's subresources in theirs. */
  lemma NestedInOrder(gv: GroupVersion, resources: seq<APIResource>, name: string)
    requires Distinct(Parents(resources))
    ensures var nested := Flat(Nested(gv, resources));
            && Pick(nested, Wholes()) == Pick(Lines(gv, resources), Wholes())
            && Pick(nested, PartsOf(name))
                 == if name in Parents(resources) then Pick(Lines(gv, resources), PartsOf(name)) else []
  {
    DistinctIsConsistent(gv, resources);
    AssembledWholes(gv, resources, Parents(resources));
    DescribedAreWholes(gv, resources, resources);
    AssembledInOrder(gv, resources, Parents(resources), name);
  }

  lemma {:induction false} AssembledInOrder(gv: GroupVersion, resources: seq<APIResource>, order: seq<string>, name: string)
    requires Distinct(order) && forall n <- order :: n in Parents(resources)
    ensures Pick(Flat(Assembled(gv, resources, order)), PartsOf(name))
              == if name in order then Pick(Lines(gv, resources), PartsOf(name)) else []
  {
    if order != [] {
      var shorter, last := order[..|order| - 1], order[|order| - 1];
      assert order == shorter + [last];
      DistinctSnoc(shorter, last);
      AssembledInOrder(gv, resources, shorter, name);
      AssembledStep(gv, resources, order, name);
      var parts := Pick(Lines(gv, resources), PartsOf(last));
      assert [] + parts == parts;
    }
  }

  lemma DistinctSnoc(names: seq<string>, name: string)
    requires Distinct(names + [name])
    ensures Distinct(names) && name !in names
  {
    var all := names + [name];
    forall i | 0 <= i < |names| ensures all[i] == names[i] != name {
      assert all[|names|] == name;
    }
  }

  lemma ConsistentConserves(gv: GroupVersion, resources: seq<APIResource>)
    requires Consistent(gv, resources)
    ensures multiset(Flat(Nested(gv, resources))) == multiset(Pick(Lines(gv, resources), Attached(Parents(resources))))
  {
    var flat, lines := Flat(Nested(gv, resources)), Lines(gv, resources);
    var attached := Pick(lines, Attached(Parents(resources)));
    AssembledWholes(gv, resources, Parents(resources));
    DescribedAreWholes(gv, resources, resources);
    forall l ensures multiset(flat)[l] == multiset(attached)[l] {
      PickCounts(lines, Attached(Parents(resources)), l);
      var chosen := if l.Whole? then Wholes() else PartsOf(Cut(l.name).0);
      ConsistentOnce(gv, resources, Cut(l.name).0, l);
      PickCounts(flat, chosen, l);
      PickCounts(lines, chosen, l);
    }
  }

  lemma RepeatedParts(gv: GroupVersion, resources: seq<APIResource>, name: string)
    requires Occurrences(Parents(resources), name) > 1 && SubresourcesOf(gv, resources, name) != []
    ensures multiset(Flat(Nested(gv, resources))) != multiset(Pick(Lines(gv, resources), Attached(Parents(resources))))
  {
    var flat, lines := Flat(Nested(gv, resources)), Lines(gv, resources);
    GatheredParts(gv, resources, name);
    var parts := Pick(lines, PartsOf(name));
    assert |parts| > 0 by {
      assert PartLines(name, SubresourcesOf(gv, resources, name)) != [];
    }
    var l := parts[0];
    assert multiset(parts)[l] > 0 by { assert l in parts; }
    AssembledParts(gv, resources, Parents(resources), name, l);
    PickCounts(lines, PartsOf(name), l);
    PickCounts(flat, PartsOf(name), l);
    PickCounts(lines, Attached(Parents(resources)), l);
    AtLeastTwice(Occurrences(Parents(resources), name), multiset(parts)[l]);
  }

  lemma {:induction false} AtLeastTwice(n: nat, count: nat)
    requires n > 1 && count > 0
    ensures Times(n, count) > count
  {
    if n > 2 { AtLeastTwice(n - 1, count); }
    assert Times(1, count) == count;
  }

  lemma LostWhole(gv: GroupVersion, resources: seq<APIResource>, r: APIResource)
    requires r in resources && IsParent(r) && Described(resources, r.name).Some?
    requires LineOf(gv, r) != LineOf(gv, Described(resources, r.name).value)
    ensures multiset(Flat(Nested(gv, resources))) != multiset(Pick(Lines(gv, resources), Attached(Parents(resources))))
  {
    var flat, lines, l := Flat(Nested(gv, resources)), Lines(gv, resources), LineOf(gv, r);
    LinesHold(gv, resources);
    assert multiset(lines)[l] > 0 by { assert l in lines; }
    PickCounts(lines, Attached(Parents(resources)), l);
    PickCounts(flat, Wholes(), l);
    AssembledWholes(gv, resources, Parents(resources));
    if l in DescribedLines(gv, resources, Parents(resources)) {
      DescribedLinesHold(gv, resources, Parents(resources), l);
    }
  }

  /** The kind a resource answers with: its own group and version, or, both being left empty, the list's. */
  predicate Answers(kind: ResponseKind, gv: GroupVersion, r: APIResource) {
    && kind.kind == r.kind
    && (if r.group == "" && r.version == "" then kind.group == gv.group && kind.version == gv.version
        else kind.group == r.group && kind.version == r.version)
  }

  /** What is said of a resource is what was listed of it. */
  predicate SaidOf(said: Resource, gv: GroupVersion, r: APIResource) {
    && said.name == r.name && Answers(said.responseKind, gv, r) && said.namespaced == r.namespaced
    && said.singularName == r.singularName && said.verbs == r.verbs && said.shortNames == r.shortNames
    && said.categories == r.categories
  }

  predicate PartSaidOf(parent: string, said: Subresource, gv: GroupVersion, r: APIResource) {
    r.name == parent + "/" + said.name && Answers(said.responseKind, gv, r) && said.verbs == r.verbs
  }

  lemma {:induction false} PartsSaid(gv: GroupVersion, resources: seq<APIResource>, name: string, k: nat)
    requires k < |SubresourcesOf(gv, resources, name)|
    ensures exists i | 0 <= i < |resources| :: PartSaidOf(name, SubresourcesOf(gv, resources, name)[k], gv, resources[i])
  {
    var n := |resources| - 1;
    var shorter := resources[..n];
    if k < |SubresourcesOf(gv, shorter, name)| {
      PartsSaid(gv, shorter, name, k);
      var i :| 0 <= i < n && PartSaidOf(name, SubresourcesOf(gv, shorter, name)[k], gv, shorter[i]);
      assert PartSaidOf(name, SubresourcesOf(gv, resources, name)[k], gv, resources[i]);
    } else {
      assert PartSaidOf(name, Nestled(gv, resources[n]), gv, resources[n]);
    }
  }

  lemma BareSaid(gv: GroupVersion, r: APIResource, subresources: seq<Subresource>)
    requires IsParent(r)
    ensures SaidOf(Bare(gv, r).(subresources := subresources), gv, r)
  {
  }

  /** What is assembled for one name. */
  ghost predicate SaidUnder(said: Resource, gv: GroupVersion, resources: seq<APIResource>, name: string) {
    && Described(resources, name).Some?
    && said == Bare(gv, Described(resources, name).value).(subresources := SubresourcesOf(gv, resources, name))
  }

  lemma AssembledUnfolds(gv: GroupVersion, resources: seq<APIResource>, order: seq<string>) returns (last: Resource)
    requires order != [] && forall n <- order :: n in Parents(resources)
    ensures SaidUnder(last, gv, resources, order[|order| - 1])
    ensures Assembled(gv, resources, order) == Assembled(gv, resources, order[..|order| - 1]) + [last]
  {
    ParentsDescribed(resources, order[|order| - 1]);
    last := Bare(gv, Described(resources, order[|order| - 1]).value).(
      subresources := SubresourcesOf(gv, resources, order[|order| - 1]));
  }

  lemma {:induction false} AssembledAt(gv: GroupVersion, resources: seq<APIResource>, order: seq<string>, i: nat)
    requires (forall n <- order :: n in Parents(resources)) && i < |order|
    ensures |Assembled(gv, resources, order)| == |order| && SaidUnder(Assembled(gv, resources, order)[i], gv, resources, order[i])
    decreases |order|
  {
    var shorter := order[..|order| - 1];
    var last := AssembledUnfolds(gv, resources, order);
    AssembledLength(gv, resources, shorter);
    var all, earlier := Assembled(gv, resources, order), Assembled(gv, resources, shorter);
    if i < |shorter| {
      AssembledAt(gv, resources, shorter, i);
      SaidAgain(all[i], earlier[i], gv, resources, order[i], shorter[i]);
    } else {
      SaidAgain(all[i], last, gv, resources, order[i], order[|order| - 1]);
    }
  }

  lemma SaidAgain(said: Resource, again: Resource, gv: GroupVersion, resources: seq<APIResource>, name: string, same: string)
    requires said == again && name == same && SaidUnder(again, gv, resources, same)
    ensures SaidUnder(said, gv, resources, name)
  {
  }

  lemma AssembledSaid(gv: GroupVersion, resources: seq<APIResource>, order: seq<string>, i: nat)
    requires (forall n <- order :: n in Parents(resources)) && i < |order|
    ensures |Assembled(gv, resources, order)| == |order| && Described(resources, order[i]).Some?
    ensures var said := Assembled(gv, resources, order)[i];
            && said.name == order[i] && SaidOf(said, gv, Described(resources, order[i]).value)
            && said.subresources == SubresourcesOf(gv, resources, order[i])
  {
    AssembledAt(gv, resources, order, i);
    DescribedListed(resources, order[i]);
    BareSaid(gv, Described(resources, order[i]).value, SubresourcesOf(gv, resources, order[i]));
  }

  /** Every resource of the nested list says what was listed of it last, and every subresource what was listed of it. */
  lemma NestedSays(gv: GroupVersion, resources: seq<APIResource>, i: nat)
    requires i < |Nested(gv, resources)|
    ensures var said := Nested(gv, resources)[i];
            && (exists j | 0 <= j < |resources| :: LastOfName(resources, j) && SaidOf(said, gv, resources[j]))
            && forall k | 0 <= k < |said.subresources| ::
                 exists j | 0 <= j < |resources| :: PartSaidOf(said.name, said.subresources[k], gv, resources[j])
  {
    var order := Parents(resources);
    AssembledLength(gv, resources, order);
    AssembledSaid(gv, resources, order, i);
    var said := Nested(gv, resources)[i];
    LastDescribed(resources, order[i]);
    forall k | 0 <= k < |said.subresources|
      ensures exists j | 0 <= j < |resources| :: PartSaidOf(said.name, said.subresources[k], gv, resources[j])
    {
      PartsSaid(gv, resources, order[i], k);
    }
  }

  /** No later resource has the name. */
  predicate LastOfName(resources: seq<APIResource>, j: nat) {
    j < |resources| && IsParent(resources[j]) && forall m | j < m < |resources| :: resources[m].name != resources[j].name
  }

  lemma {:induction false} LastDescribed(resources: seq<APIResource>, name: string)
    requires Described(resources, name).Some?
    ensures exists j | 0 <= j < |resources| :: LastOfName(resources, j) && resources[j] == Described(resources, name).value
                                               && resources[j].name == name
  {
    var n := |resources| - 1;
    if IsParent(resources[n]) && resources[n].name == name {
      assert LastOfName(resources, n);
    } else {
      LastDescribed(resources[..n], name);
      var j :| 0 <= j < n && LastOfName(resources[..n], j) && resources[..n][j] == Described(resources[..n], name).value
               && resources[..n][j].name == name;
      StillLast(resources, j, name);
    }
  }

  lemma StillLast(resources: seq<APIResource>, j: nat, name: string)
    requires resources != [] && LastOfName(resources[..|resources| - 1], j) && resources[j].name == name
    requires IsParent(resources[|resources| - 1]) ==> resources[|resources| - 1].name != name
    ensures LastOfName(resources, j)
  {
    var n := |resources| - 1;
    assert IsParent(resources[..n][j]) && resources[..n][j] == resources[j];
    forall m | j < m < |resources| ensures resources[m].name != name {
      assert m < n ==> resources[..n][m] == resources[m];
    }
  }

  lemma {:induction false} AssembledLength(gv: GroupVersion, resources: seq<APIResource>, order: seq<string>)
    requires forall n <- order :: n in Parents(resources)
    ensures |Assembled(gv, resources, order)| == |order|
  {
    if order != [] {
      AssembledLength(gv, resources, order[..|order| - 1]);
    }
  }

  /** Exactly when nesting loses and repeats nothing, but for subresources whose parent is not listed, which are gone:
      when no name is listed twice, other than alike and without subresources. Of a name listed twice the later entry
      describes both, and the subresources go with both. */
  lemma NestedConservesExactly(gv: GroupVersion, resources: seq<APIResource>)
    ensures multiset(Flat(Nested(gv, resources))) == multiset(Pick(Lines(gv, resources), Attached(Parents(resources))))
              <==> Consistent(gv, resources)
  {
    if Consistent(gv, resources) {
      ConsistentConserves(gv, resources);
    } else {
      var i, j :| 0 <= i < j < |resources| && SameParent(resources[i], resources[j], resources[i].name)
                  && !ListedAlike(gv, resources, i, j);
      var name := resources[i].name;
      ParentsHold(resources, name);
      if SubresourcesOf(gv, resources, name) != [] {
        RepeatedParts(gv, resources, name);
      } else {
        ParentsDescribed(resources, name);
        var d := LineOf(gv, Described(resources, name).value);
        LostWhole(gv, resources, if LineOf(gv, resources[i]) != d then resources[i] else resources[j]);
      }
    }
  }

  /** So it is for distinct names. */
  lemma NestedConserves(gv: GroupVersion, resources: seq<APIResource>)
    requires Distinct(Parents(resources))
    ensures multiset(Flat(Nested(gv, resources))) == multiset(Pick(Lines(gv, resources), Attached(Parents(resources))))
  {
    DistinctIsConsistent(gv, resources);
    ConsistentConserves(gv, resources);
  }

  /** The flat list can be had back, up to order, exactly when every subresource's parent is in it. */
  lemma NothingLostWithoutOrphans(gv: GroupVersion, resources: seq<APIResource>)
    requires Distinct(Parents(resources))
    ensures multiset(Flat(Nested(gv, resources))) == multiset(Lines(gv, resources))
              <==> forall r <- resources :: IsParent(r) || Cut(r.name).0 in Parents(resources)
  {
    NestedConserves(gv, resources);
    var lines, chosen := Lines(gv, resources), Attached(Parents(resources));
    PickAll(lines, chosen);
    LinesHold(gv, resources);
    if forall l <- lines :: chosen(l) {
      forall r | r in resources ensures IsParent(r) || Cut(r.name).0 in Parents(resources) {
        assert chosen(LineOf(gv, r));
      }
    }
  }

  lemma {:induction false} PickAll(lines: seq<Line>, chosen: Line -> bool)
    ensures multiset(Pick(lines, chosen)) == multiset(lines) <==> forall l <- lines :: chosen(l)
  {
    forall l ensures multiset(Pick(lines, chosen))[l] == if chosen(l) then multiset(lines)[l] else 0 {
      PickCounts(lines, chosen, l);
    }
    if multiset(Pick(lines, chosen)) == multiset(lines) {
      forall l | l in lines ensures chosen(l) {
        assert multiset(lines)[l] > 0;
      }
    }
  }

  lemma {:induction false} LinesHold(gv: GroupVersion, resources: seq<APIResource>)
    ensures forall l :: l in Lines(gv, resources) <==> exists r <- resources :: l == LineOf(gv, r)
  {
    if resources != [] {
      var shorter, last := resources[..|resources| - 1], resources[|resources| - 1];
      LinesHold(gv, shorter);
      assert resources == shorter + [last];
    }
  }
}
