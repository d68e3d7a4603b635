/** Which request paths are forwarded, and to where in the workspace (`pkg/apiserver/proxy.go`). */
module Paths {
  import opened Text

  const SLASH := '/'

  predicate Rooted(path: string) {
    HasPrefix(path, "/")
  }

  // -------- Go's path.Clean and path.Join --------

  /** One more segment, after those kept so far. */
  function Push(rooted: bool, kept: seq<string>, segment: string): seq<string> {
    if segment == "" || segment == "." then kept
    else if segment != ".." then kept + [segment]
    else if kept != [] && kept[|kept| - 1] != ".." then kept[..|kept| - 1]
    else if rooted then kept
    else kept + [".."]
  }

  function Walk(rooted: bool, kept: seq<string>, segments: seq<string>): seq<string>
    decreases |segments|
  {
    if segments == [] then kept else Walk(rooted, Push(rooted, kept, segments[0]), segments[1..])
  }

  /** The segments a path comes down to. */
  function Resolved(path: string): seq<string> {
    Walk(Rooted(path), [], Split(path, SLASH))
  }

  function Render(rooted: bool, kept: seq<string>): string {
    if rooted then "/" + Join(kept, SLASH)
    else if kept == [] then "."
    else Join(kept, SLASH)
  }

  function Clean(path: string): string {
    Render(Rooted(path), Resolved(path))
  }

  function JoinPaths(a: string, b: string): string {
    if a == "" then if b == "" then "" else Clean(b)
    else Clean(a + "/" + b)
  }

  // -------- the proxy --------

  function TrimSlash(path: string): string {
    if HasSuffix(path, "/") then path[..|path| - 1] else path
  }

  predicate CanonicalPath(requestPath: string) {
    var trimmed := TrimSlash(requestPath);
    if trimmed == "" then requestPath == "/" else Clean(trimmed) == trimmed
  }

  /** The path in kcp that a request is forwarded to. */
  function TargetFor(location: string, requestPath: string): string {
    JoinPaths(location, requestPath)
  }

  /** The check made on the target before forwarding. */
  predicate AddressesWorkspace(location: string, target: string) {
    HasPrefix(target, location)
  }

  // -------- resolving --------

  /** A segment that stays where it is written. */
  predicate IsName(segment: string) {
    segment != "" && segment != "." && segment != ".." && SLASH !in segment
  }

  predicate AllNames(segments: seq<string>) {
    forall segment <- segments :: IsName(segment)
  }

  function Absolute(names: seq<string>): string {
    "/" + Join(names, SLASH)
  }

  lemma {:induction false} WalkConcat(rooted: bool, kept: seq<string>, a: seq<string>, b: seq<string>)
    ensures Walk(rooted, kept, a + b) == Walk(rooted, Walk(rooted, kept, a), b)
    decreases |a|
  {
    if a == [] {
      assert a + b == b;
    } else {
      assert (a + b)[1..] == a[1..] + b;
      WalkConcat(rooted, Push(rooted, kept, a[0]), a[1..], b);
    }
  }

  lemma {:induction false} WalkNames(rooted: bool, kept: seq<string>, names: seq<string>)
    requires AllNames(names)
    ensures Walk(rooted, kept, names) == kept + names
    decreases |names|
  {
    if names == [] {
      assert kept + names == kept;
    } else {
      assert IsName(names[0]);
      WalkNames(rooted, kept + [names[0]], names[1..]);
      assert kept + [names[0]] + names[1..] == kept + names;
    }
  }

  lemma WalkTwo(rooted: bool, kept: seq<string>, a: string, b: string)
    ensures Walk(rooted, kept, [a]) == Push(rooted, kept, a)
    ensures Walk(rooted, kept, [a, b]) == Push(rooted, Push(rooted, kept, a), b)
  {
    assert [a, b][1..] == [b];
    assert Walk(rooted, Push(rooted, kept, a), [b]) == Walk(rooted, Push(rooted, Push(rooted, kept, a), b), []);
  }

  lemma {:induction false} RootedWalkNames(kept: seq<string>, segments: seq<string>)
    requires AllNames(kept) && forall segment <- segments :: SLASH !in segment
    ensures AllNames(Walk(true, kept, segments))
    decreases |segments|
  {
    if segments != [] {
      RootedWalkNames(Push(true, kept, segments[0]), segments[1..]);
    }
  }

  /** The segments a canonical path adds to what precedes it are the names it is written with. */
  lemma WalkAbsolute(rooted: bool, kept: seq<string>, names: seq<string>, trailing: bool)
    requires AllNames(names)
    ensures var path := if trailing then Absolute(names) + "/" else Absolute(names);
            Walk(rooted, kept, Split(path, SLASH)) == kept + names
  {
    var text := Absolute(names);
    SplitConcat("", Join(names, SLASH), SLASH);
    assert text == "" + [SLASH] + Join(names, SLASH);
    if names == [] {
      assert Split(text, SLASH) == ["", ""];
      assert Walk(rooted, kept, ["", ""]) == Walk(rooted, kept, [""]) == kept;
    } else {
      SplitJoin(names, SLASH);
      WalkConcat(rooted, kept, [""], names);
      assert Walk(rooted, kept, [""]) == kept;
      WalkNames(rooted, kept, names);
    }
    assert text + "/" == text + [SLASH] + "";
    SplitConcat(text, "", SLASH);
    WalkConcat(rooted, kept, Split(text, SLASH), [""]);
    assert Walk(rooted, kept + names, [""]) == kept + names;
  }

  lemma CleanAbsolute(names: seq<string>)
    requires AllNames(names)
    ensures Resolved(Absolute(names)) == names && Clean(Absolute(names)) == Absolute(names)
  {
    WalkAbsolute(true, [], names, false);
    assert [] + names == names;
  }

  lemma {:induction false} JoinEnds(names: seq<string>)
    requires names != [] && AllNames(names)
    ensures Join(names, SLASH) != "" && !HasSuffix(Join(names, SLASH), "/")
  {
    assert IsName(names[0]);
    if |names| > 1 {
      JoinEnds(names[1..]);
    } else {
      assert names[0][|names[0]| - 1] in names[0];
    }
  }

  // -------- which paths are accepted --------

  /** The request path is written with these names, perhaps with a slash after them. */
  predicate WrittenWith(requestPath: string, names: seq<string>) {
    AllNames(names) && (requestPath == Absolute(names) || requestPath == Absolute(names) + "/")
  }

  lemma NamesAccepted(requestPath: string, names: seq<string>)
    requires WrittenWith(requestPath, names)
    ensures CanonicalPath(requestPath)
  {
    CleanAbsolute(names);
    if requestPath == Absolute(names) && names != [] {
      JoinEnds(names);
      assert TrimSlash(requestPath) == requestPath;
    } else if requestPath != Absolute(names) {
      assert TrimSlash(requestPath) == Absolute(names);
    }
  }

  lemma AcceptedNames(requestPath: string) returns (names: seq<string>)
    requires Rooted(requestPath) && CanonicalPath(requestPath)
    ensures WrittenWith(requestPath, names)
  {
    var trimmed := TrimSlash(requestPath);
    if trimmed == "" {
      names := [];
    } else {
      assert Rooted(trimmed);
      names := Resolved(trimmed);
      RootedWalkNames([], Split(trimmed, SLASH));
      assert trimmed == Absolute(names);
      if trimmed != requestPath {
        assert requestPath == trimmed + "/";
      }
    }
  }

  /** Exactly the paths written with names, one slash before each, are accepted; one more slash may
      follow, and "//" is accepted as the path of no names followed by a slash. */
  lemma CanonicalExactly(requestPath: string)
    requires Rooted(requestPath)
    ensures CanonicalPath(requestPath) <==> exists names :: WrittenWith(requestPath, names)
  {
    if CanonicalPath(requestPath) {
      var names := AcceptedNames(requestPath);
    }
    if names :| WrittenWith(requestPath, names) {
      NamesAccepted(requestPath, names);
    }
  }

  /** Two slashes in a row. */
  predicate Doubled(path: string) {
    exists i | 0 <= i < |path| - 1 :: path[i] == SLASH && path[i + 1] == SLASH
  }

  lemma {:induction false} JoinNotDoubled(names: seq<string>)
    requires names != [] && AllNames(names)
    ensures !Doubled(Join(names, SLASH)) && !Rooted(Join(names, SLASH))
  {
    assert IsName(names[0]);
    var text, first := Join(names, SLASH), names[0];
    if |names| == 1 {
      assert forall i | 0 <= i < |text| :: text[i] in first;
    } else {
      var rest := Join(names[1..], SLASH);
      JoinNotDoubled(names[1..]);
      JoinEnds(names[1..]);
      assert text == first + [SLASH] + rest;
      forall i | 0 <= i < |text| - 1 ensures !(text[i] == SLASH && text[i + 1] == SLASH) {
        if i < |first| {
          assert text[i] in first;
        } else if i == |first| {
          assert text[i + 1] == rest[0];
        } else {
          assert text[i] == rest[i - |first| - 1] && text[i + 1] == rest[i - |first|];
        }
      }
    }
    assert text[0] in first;
  }

  lemma WrittenNotDoubled(requestPath: string, names: seq<string>)
    requires WrittenWith(requestPath, names)
    ensures Doubled(requestPath) <==> requestPath == "//"
  {
    if names == [] {
      assert requestPath == "/" || requestPath == "//";
      if requestPath == "//" {
        assert requestPath[0] == SLASH && requestPath[0 + 1] == SLASH;
      }
    } else {
      var text := Join(names, SLASH);
      JoinNotDoubled(names);
      JoinEnds(names);
      assert requestPath[1] == text[0] != SLASH;
      assert text[|text| - 1] != SLASH;
      forall i | 0 <= i < |requestPath| - 1 ensures !(requestPath[i] == SLASH && requestPath[i + 1] == SLASH) {
        if 0 < i < |text| {
          assert requestPath[i] == text[i - 1] && requestPath[i + 1] == text[i];
        }
      }
    }
  }

  /** Of all paths with two slashes in a row, exactly one is accepted: "//", and it goes where "/" goes, to the location
      itself. */
  lemma OnlyDoubleSlash(location: string, requestPath: string)
    requires Rooted(requestPath)
    ensures CanonicalPath(requestPath) && Doubled(requestPath) <==> requestPath == "//"
    ensures TargetFor(location, "//") == TargetFor(location, "/")
    ensures location == "" || Rooted(location) ==> TargetFor(location, "//") == Absolute(Home(location))
  {
    assert Absolute([]) == "/" && "/" + "/" == "//";
    assert WrittenWith("//", []) && WrittenWith("/", []);
    NamesAccepted("//", []);
    if CanonicalPath(requestPath) {
      var names := AcceptedNames(requestPath);
      WrittenNotDoubled(requestPath, names);
    }
    WrittenNotDoubled("//", []);
    TargetFollows(location, "//", []);
    TargetFollows(location, "/", []);
    assert Home(location) + [] == Home(location);
  }

  // -------- where they go --------

  /** The location, as the root of what is forwarded. */
  function Home(location: string): seq<string> {
    Resolved(location)
  }

  /** The path is the location or lies below it, at a segment boundary. */
  predicate Under(location: string, path: string) {
    path == location || HasPrefix(path, if HasSuffix(location, "/") then location else location + "/")
  }

  /** The target is the location's segments followed by the request's, one by one. */
  lemma TargetFollows(location: string, requestPath: string, names: seq<string>)
    requires WrittenWith(requestPath, names)
    ensures TargetFor(location, requestPath) == Render(location == "" || Rooted(location), Home(location) + names)
  {
    var trailing := requestPath != Absolute(names);
    if location == "" {
      WalkAbsolute(true, [], names, trailing);
      WalkTwo(false, [], "", "");
      assert Home(location) + names == [] + names;
    } else {
      var whole := location + "/" + requestPath;
      assert whole == location + [SLASH] + requestPath;
      assert Rooted(whole) == Rooted(location) by { assert whole[0] == location[0]; }
      SplitConcat(location, requestPath, SLASH);
      WalkConcat(Rooted(location), [], Split(location, SLASH), Split(requestPath, SLASH));
      WalkAbsolute(Rooted(location), Home(location), names, trailing);
    }
  }

  lemma AbsoluteUnder(home: seq<string>, names: seq<string>)
    requires AllNames(home)
    ensures Under(Absolute(home), Absolute(home + names))
  {
    if names == [] {
      assert home + names == home;
    } else if home == [] {
      assert home + names == names;
      assert HasSuffix("/", "/") && HasPrefix(Absolute(names), "/");
    } else {
      JoinConcat(home, names, SLASH);
      JoinEnds(home);
      assert Absolute(home + names) == Absolute(home) + "/" + Join(names, SLASH);
      assert !HasSuffix(Absolute(home), "/");
      assert HasPrefix(Absolute(home + names), Absolute(home) + "/");
    }
  }

  lemma HomeIsNames(location: string)
    requires location == "" || Rooted(location)
    ensures AllNames(Home(location))
  {
    if location == "" {
      WalkTwo(false, [], "", "");
    } else {
      RootedWalkNames([], Split(location, SLASH));
    }
  }

  /** Whatever is accepted stays in the workspace: its target is the location followed, segment by segment,
      by the request, and so the cleaned location or something below it at a segment boundary; and the check
      on the target then passes for every location in clean form. */
  lemma TargetConfined(location: string, requestPath: string)
    requires location == "" || Rooted(location)
    requires Rooted(requestPath) && CanonicalPath(requestPath)
    ensures var target := TargetFor(location, requestPath);
            && Under(Absolute(Home(location)), target)
            && Resolved(target) == Home(location) + Resolved(requestPath) && Clean(target) == target
            && (location == "" || location == Clean(location) ==> AddressesWorkspace(location, target))
  {
    var names := AcceptedNames(requestPath);
    TargetFollows(location, requestPath, names);
    HomeIsNames(location);
    AbsoluteUnder(Home(location), names);
    CleanAbsolute(Home(location) + names);
    WalkAbsolute(true, [], names, requestPath != Absolute(names));
    assert [] + names == names;
  }

  /** Requests with one target are written with the same names: they differ at most in a slash at
      the end. */
  lemma TargetInjective(location: string, a: string, b: string)
    requires location == "" || Rooted(location)
    requires Rooted(a) && CanonicalPath(a) && Rooted(b) && CanonicalPath(b)
    ensures TargetFor(location, a) == TargetFor(location, b) <==> exists names :: WrittenWith(a, names) && WrittenWith(b, names)
  {
    var x := AcceptedNames(a);
    var y := AcceptedNames(b);
    TargetFollows(location, a, x);
    TargetFollows(location, b, y);
    HomeIsNames(location);
    CleanAbsolute(Home(location) + x);
    CleanAbsolute(Home(location) + y);
    if TargetFor(location, a) == TargetFor(location, b) {
      assert x == (Home(location) + x)[|Home(location)|..] == (Home(location) + y)[|Home(location)|..] == y;
    }
    if names :| WrittenWith(a, names) && WrittenWith(b, names) {
      TargetFollows(location, a, names);
      TargetFollows(location, b, names);
    }
  }

  // -------- why both conditions are there --------

  /** What `parent` holds under `sibling` instead of `workspace`, by way of "..". */
  lemma DotDotTarget(parent: seq<string>, workspace: string, sibling: string, start: string)
    requires AllNames(parent) && IsName(workspace) && IsName(sibling) && (start == "" || start == "/")
    ensures TargetFor(Absolute(parent + [workspace]), start + "../" + sibling) == Absolute(parent + [sibling])
  {
    var location, path := Absolute(parent + [workspace]), start + "../" + sibling;
    var whole := location + "/" + path;
    assert whole == location + [SLASH] + path;
    SplitConcat(location, path, SLASH);
    CleanAbsolute(parent + [workspace]);
    SplitDotDot(sibling, start);
    WalkConcat(true, [], Split(location, SLASH), Split(path, SLASH));
    var kept := parent + [workspace];
    assert Push(true, kept, "..") == parent;
    assert Rooted(whole) && Walk(true, [], Split(location, SLASH)) == kept;
    WalkTwo(true, kept, "..", sibling);
    assert Walk(true, kept, ["..", sibling]) == parent + [sibling];
    assert [] + ["..", sibling] == ["..", sibling];
    if start == "/" {
      WalkConcat(true, kept, [""], ["..", sibling]);
      WalkTwo(true, kept, "", "");
    }
    assert Resolved(whole) == parent + [sibling];
  }

  lemma SplitDotDot(sibling: string, start: string)
    requires IsName(sibling) && (start == "" || start == "/")
    ensures Split(start + "../" + sibling, SLASH) == (if start == "" then [] else [""]) + ["..", sibling]
  {
    var path := Join(["..", sibling], SLASH);
    assert ["..", sibling][1..] == [sibling];
    assert Join([sibling], SLASH) == sibling;
    assert path == ".." + [SLASH] + sibling;
    assert ".." + [SLASH] == "../";
    SplitJoin(["..", sibling], SLASH);
    if start == "" {
      assert start + "../" + sibling == path && [] + ["..", sibling] == ["..", sibling];
    } else {
      assert start + "../" + sibling == "" + [SLASH] + path;
      SplitConcat("", path, SLASH);
    }
  }

  lemma LongerIsOutside(location: string, more: string)
    requires location != "" && !HasSuffix(location, "/") && more != "" && more[0] != SLASH
    ensures HasPrefix(location + more, location) && !Under(location, location + more)
  {
    assert (location + more)[|location|] == more[0];
  }

  /** The check on the target does not confine by itself: a workspace whose name begins with this one's
      passes it. Only the refusal of "..", which comes first, keeps such a request out. */
  lemma PrefixAloneIsNotEnough(parent: seq<string>, workspace: string, more: string)
    requires AllNames(parent) && IsName(workspace) && more != "" && IsName(workspace + more)
    ensures var location, requestPath := Absolute(parent + [workspace]), "/../" + workspace + more;
            && AddressesWorkspace(location, TargetFor(location, requestPath))
            && !Under(location, TargetFor(location, requestPath))
            && !CanonicalPath(requestPath)
  {
    var location, requestPath := Absolute(parent + [workspace]), "/../" + workspace + more;
    assert requestPath == "/" + "../" + (workspace + more);
    DotDotTarget(parent, workspace, workspace + more, "/");
    LastGrows(parent, workspace, more);
    assert TargetFor(location, requestPath) == location + more;
    CleanAbsolute(parent + [workspace]);
    JoinEnds(parent + [workspace]);
    assert more[0] in workspace + more;
    LongerIsOutside(location, more);
    if CanonicalPath(requestPath) {
      TargetConfined(location, requestPath);
    }
  }

  lemma LastGrows(parent: seq<string>, last: string, more: string)
    ensures Absolute(parent + [last + more]) == Absolute(parent + [last]) + more
  {
    if parent == [] {
      assert parent + [last + more] == [last + more] && parent + [last] == [last];
    } else {
      JoinConcat(parent, [last + more], SLASH);
      JoinConcat(parent, [last], SLASH);
    }
  }

  lemma UnrootedAccepted(sibling: string)
    requires IsName(sibling)
    ensures CanonicalPath("../" + sibling)
  {
    var requestPath := "../" + sibling;
    assert requestPath[|requestPath| - 1] == sibling[|sibling| - 1];
    assert sibling[|sibling| - 1] in sibling;
    assert TrimSlash(requestPath) == requestPath;
    UnrootedResolved(sibling);
    assert Join(["..", sibling], SLASH) == ".." + [SLASH] + sibling;
  }

  lemma UnrootedResolved(sibling: string)
    requires IsName(sibling)
    ensures Resolved("../" + sibling) == ["..", sibling]
  {
    assert "../" + sibling == "" + "../" + sibling;
    SplitDotDot(sibling, "");
    assert [] + ["..", sibling] == ["..", sibling];
    WalkTwo(false, [], "..", sibling);
  }

  lemma SiblingsApart(parent: seq<string>, a: string, b: string)
    requires AllNames(parent) && IsName(a) && IsName(b) && a != b
    ensures Absolute(parent + [a]) != Absolute(parent + [b])
  {
    CleanAbsolute(parent + [a]);
    CleanAbsolute(parent + [b]);
    assert (parent + [a])[|parent|] != (parent + [b])[|parent|];
  }

  /** Of `canonicalPath` by itself: a path that does not begin with a slash may be accepted and leave the
      workspace. Go's HTTP server hands no such path to a handler; the theorems above ask for the slash. */
  lemma UnrootedEscapes(parent: seq<string>, workspace: string, sibling: string)
    requires AllNames(parent) && IsName(workspace) && IsName(sibling) && sibling != workspace
    ensures var location, requestPath := Absolute(parent + [workspace]), "../" + sibling;
            && CanonicalPath(requestPath)
            && TargetFor(location, requestPath) == Absolute(parent + [sibling]) != location
  {
    UnrootedAccepted(sibling);
    assert "" + "../" + sibling == "../" + sibling;
    DotDotTarget(parent, workspace, sibling, "");
    SiblingsApart(parent, workspace, sibling);
  }

  // -------- which other paths are accepted --------

  function Ups(n: nat): seq<string> {
    seq(n, _ => "..")
  }

  ghost predicate UpThen(kept: seq<string>, n: nat, names: seq<string>) {
    kept == Ups(n) + names && AllNames(names)
  }

  /** What the segments of a relative path come down to: some steps up, and then names. */
  ghost predicate UpThenNames(kept: seq<string>) {
    exists n: nat, names :: UpThen(kept, n, names)
  }

  lemma PushKeepsForm(kept: seq<string>, segment: string)
    requires UpThenNames(kept) && SLASH !in segment
    ensures UpThenNames(Push(false, kept, segment))
  {
    var n: nat, names :| UpThen(kept, n, names);
    if segment == "" || segment == "." {
    } else if segment != ".." {
      assert UpThen(kept + [segment], n, names + [segment]);
    } else if names != [] {
      assert names[|names| - 1] in names && kept[|kept| - 1] == names[|names| - 1];
      assert UpThen(kept[..|kept| - 1], n, names[..|names| - 1]);
    } else {
      assert kept == Ups(n);
      assert UpThen(kept + [".."], n + 1, []);
    }
  }

  lemma {:induction false} WalkKeepsForm(kept: seq<string>, segments: seq<string>)
    requires UpThenNames(kept) && forall segment <- segments :: SLASH !in segment
    ensures UpThenNames(Walk(false, kept, segments))
    decreases |segments|
  {
    if segments != [] {
      PushKeepsForm(kept, segments[0]);
      WalkKeepsForm(Push(false, kept, segments[0]), segments[1..]);
    }
  }

  lemma {:induction false} WalkUps(kept: nat, n: nat)
    ensures Walk(false, Ups(kept), Ups(n)) == Ups(kept + n)
    decreases n
  {
    if n > 0 {
      assert Ups(n)[1..] == Ups(n - 1) && Ups(kept) + [".."] == Ups(kept + 1);
      WalkUps(kept + 1, n - 1);
    }
  }

  lemma FormIsResolved(n: nat, names: seq<string>)
    requires AllNames(names) && (n > 0 || names != [])
    ensures var kept := Ups(n) + names;
            var path := Join(kept, SLASH);
            Split(path, SLASH) == kept && Walk(false, [], kept) == kept && path != "" && !Rooted(path) && !HasSuffix(path, "/")
  {
    var kept := Ups(n) + names;
    forall segment | segment in kept ensures SLASH !in segment && segment != "" {
      assert segment in Ups(n) || segment in names;
    }
    SplitJoin(kept, SLASH);
    WalkConcat(false, [], Ups(n), names);
    assert Ups(0) == [] && Ups(0 + n) == Ups(n);
    WalkUps(0, n);
    WalkNames(false, Ups(n), names);
    JoinOpenEnds(kept);
  }

  lemma {:induction false} JoinOpenEnds(parts: seq<string>)
    requires parts != [] && forall part <- parts :: SLASH !in part && part != ""
    ensures Join(parts, SLASH) != "" && !Rooted(Join(parts, SLASH)) && !HasSuffix(Join(parts, SLASH), "/")
  {
    var first := parts[0];
    assert first in parts && first[0] in first && first[|first| - 1] in first;
    if |parts| > 1 {
      JoinOpenEnds(parts[1..]);
      assert Join(parts, SLASH)[0] == first[0];
    } else {
      assert Join(parts, SLASH) == first;
    }
  }

  /** Some steps up and then names, or "." if there is nothing of either. */
  function Upwards(n: nat, names: seq<string>): string {
    if n == 0 && names == [] then "." else Join(Ups(n) + names, SLASH)
  }

  /** The path is that, perhaps with a slash after it. */
  ghost predicate WrittenUp(requestPath: string, n: nat, names: seq<string>) {
    AllNames(names) && (requestPath == Upwards(n, names) || requestPath == Upwards(n, names) + "/")
  }

  /** Exactly which paths that do not begin with a slash would be accepted. */
  lemma UnrootedExactly(requestPath: string)
    requires !Rooted(requestPath)
    ensures CanonicalPath(requestPath) <==> exists n: nat, names :: WrittenUp(requestPath, n, names)
  {
    if CanonicalPath(requestPath) {
      var trimmed := TrimSlash(requestPath);
      assert trimmed != "" && !Rooted(trimmed);
      assert UpThen([], 0, []);
      WalkKeepsForm([], Split(trimmed, SLASH));
      var n: nat, names :| UpThen(Resolved(trimmed), n, names);
      assert requestPath == trimmed || requestPath == trimmed + "/";
      assert WrittenUp(requestPath, n, names);
    }
    if n: nat, names :| WrittenUp(requestPath, n, names) {
      UpAccepted(n, names);
    }
  }

  lemma ResolvedAccepted(text: string)
    requires text != "" && !HasSuffix(text, "/") && Clean(text) == text
    ensures CanonicalPath(text) && CanonicalPath(text + "/")
  {
    assert TrimSlash(text) == text && TrimSlash(text + "/") == text;
  }

  lemma DotIsClean()
    ensures Clean(".") == "."
  {
    SplitFree(".", SLASH);
    WalkTwo(false, [], ".", "");
  }

  lemma UpwardsIsClean(n: nat, names: seq<string>)
    requires AllNames(names)
    ensures var text := Upwards(n, names); text != "" && !HasSuffix(text, "/") && Clean(text) == text
  {
    if n == 0 && names == [] {
      DotIsClean();
    } else {
      FormIsResolved(n, names);
    }
  }

  lemma UpAccepted(n: nat, names: seq<string>)
    requires AllNames(names)
    ensures CanonicalPath(Upwards(n, names)) && CanonicalPath(Upwards(n, names) + "/")
  {
    UpwardsIsClean(n, names);
    ResolvedAccepted(Upwards(n, names));
  }
}
