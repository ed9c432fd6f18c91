// Search-scope deduplication of src/ui/search/scopedSearchLogic.ts: nested and repeated
// directories are searched once. The one-pass loop and the all-pairs pass over result
// roots both come down to the minimal elements of one containment order.
module SearchScopes {
  import opened Text

  datatype Kind = Primary | ChainDirectory | AgentRunDir

  // A scope's id, kind, raw path and raw bridge; empty strings stand for absent ones.
  datatype Scope = Scope(id: string, kind: Kind, path: string, bridge: string)

  // ---- Normal forms ----

  function Forward(s: string): (t: string)
    ensures |t| == |s|
  {
    seq(|s|, i requires 0 <= i < |s| => if s[i] == '\\' then '/' else s[i])
  }

  // One slash for every run of slashes.
  function Collapse(s: string): string {
    if |s| < 2 then s
    else if s[0] == '/' && s[1] == '/' then Collapse(s[1..])
    else [s[0]] + Collapse(s[1..])
  }

  function NormalizeFsPath(p: string): string {
    var clean := Collapse(Forward(Trim(p)));
    if |clean| > 1 && clean[|clean| - 1] == '/' then clean[..|clean| - 1] else clean
  }

  ghost predicate IsNormal(p: string) {
    && '\\' !in p
    && (forall i :: 0 <= i < |p| - 1 ==> !(p[i] == '/' && p[i + 1] == '/'))
    && (|p| > 1 ==> p[|p| - 1] != '/')
  }

  lemma {:induction false} CollapseFacts(s: string)
    ensures var t := Collapse(s);
      && (forall i :: 0 <= i < |t| - 1 ==> !(t[i] == '/' && t[i + 1] == '/'))
      && (t == "" <==> s == "")
      && (s != "" ==> t[0] == s[0])
      && ('\\' in t ==> '\\' in s)
  {
    if |s| >= 2 {
      CollapseFacts(s[1..]);
    }
  }

  // Forward slashes only, single, and none at the end but for the root itself.
  lemma NormalFormIsNormal(p: string)
    ensures IsNormal(NormalizeFsPath(p))
  {
    var forward := Forward(Trim(p));
    CollapseFacts(forward);
    assert '\\' !in forward;
  }

  lemma {:induction false} CollapseOfSingle(s: string)
    requires forall i :: 0 <= i < |s| - 1 ==> !(s[i] == '/' && s[i + 1] == '/')
    ensures Collapse(s) == s
  {
    if |s| >= 2 {
      CollapseOfSingle(s[1..]);
    }
  }

  // A normal path without spaces around it stays as it is.
  lemma NormalStays(p: string)
    requires p != "" && IsNormal(p) && !IsSpace(p[0]) && !IsSpace(p[|p| - 1])
    ensures NormalizeFsPath(p) == p
  {
    TrimOfSolid(p);
    CollapseOfSingle(p);
    hide Trim, IsSpace, Collapse;
    assert Forward(p) == p;
  }

  // ---- Containment ----

  function Path(s: Scope): string {
    NormalizeFsPath(s.path)
  }

  function Bridge(s: Scope): string {
    Trim(if s.bridge == "" then "local" else s.bridge)
  }

  predicate Inside(q: string, p: string) {
    p + "/" <= q
  }

  // Keys are compared within one bridge, and only when both paths are known.
  predicate Comparable(a: Scope, b: Scope) {
    Bridge(a) == Bridge(b) && Path(a) != "" && Path(b) != ""
  }

  predicate Same(a: Scope, b: Scope) {
    Comparable(a, b) && Path(a) == Path(b)
  }

  predicate Contains(a: Scope, b: Scope) {
    Comparable(a, b) && Inside(Path(b), Path(a))
  }

  predicate Covers(a: Scope, b: Scope) {
    Same(a, b) || Contains(a, b)
  }

  lemma InsideFacts(p: string, q: string, r: string)
    ensures Inside(q, p) ==> |p| < |q|
    ensures Inside(q, p) && Inside(r, q) ==> Inside(r, p)
  {
    if Inside(q, p) && Inside(r, q) {
      assert q == p + "/" + q[|p| + 1..];
      assert r == q + "/" + r[|q| + 1..];
    }
  }

  // Containment is a strict partial order on scopes with a path.
  lemma ContainmentIsAnOrder(a: Scope, b: Scope, c: Scope)
    ensures !Contains(a, a)
    ensures Contains(a, b) && Covers(b, c) ==> Contains(a, c)
    ensures Covers(a, b) && Contains(b, c) ==> Contains(a, c)
    ensures Same(a, b) && Same(b, c) ==> Same(a, c)
  {
    hide NormalizeFsPath, Bridge;
    InsideFacts(Path(a), Path(b), Path(c));
    InsideFacts(Path(a), Path(a), Path(a));
    hide Inside;
  }

  // ---- Containment is containment of directories ----

  // One more character: a slash starts a new segment.
  function Append(segments: seq<string>, c: char): (more: seq<string>)
    requires segments != []
    ensures more != []
  {
    var last := |segments| - 1;
    if c == '/' then segments + [""] else segments[..last] + [segments[last] + [c]]
  }

  // The segments of a path, as a split at its slashes gives them.
  function Split(p: string): (segments: seq<string>)
    ensures segments != []
  {
    if p == "" then [""] else Append(Split(p[..|p| - 1]), p[|p| - 1])
  }

  function Join(segments: seq<string>): string
    requires segments != []
  {
    if |segments| == 1 then segments[0]
    else Join(segments[..|segments| - 1]) + "/" + segments[|segments| - 1]
  }

  lemma JoinMore(before: seq<string>, last: string, segments: seq<string>)
    requires segments == before + [last]
    ensures Join(segments) == if before == [] then last else Join(before) + "/" + last
  {
    assert segments[..|before|] == before;
  }

  lemma JoinLonger(path: string, last: string, c: char)
    ensures path + "/" + (last + [c]) == path + "/" + last + [c]
  {}

  lemma JoinAppend(segments: seq<string>, c: char)
    requires segments != []
    ensures Join(Append(segments, c)) == Join(segments) + [c]
  {
    hide Join;
    if c == '/' {
      JoinMore(segments, "", segments + [""]);
      assert Join(segments) + "/" + "" == Join(segments) + [c];
    } else {
      var n := |segments| - 1;
      var before, last := segments[..n], segments[n];
      assert segments == before + [last];
      JoinMore(before, last, segments);
      JoinMore(before, last + [c], before + [last + [c]]);
      if before != [] {
        JoinLonger(Join(before), last, c);
      }
    }
  }

  lemma SplitMore(p: string, c: char, longer: string)
    requires longer == p + [c]
    ensures Split(longer) == Append(Split(p), c)
  {
    assert longer[..|p|] == p;
  }

  lemma {:induction false} JoinSplit(p: string)
    ensures Join(Split(p)) == p
  {
    if p != "" {
      var n := |p| - 1;
      JoinSplit(p[..n]);
      hide *;
      assert p == p[..n] + [p[n]];
      SplitMore(p[..n], p[n], p);
      JoinAppend(Split(p[..n]), p[n]);
    }
  }

  lemma AppendAfter(a: seq<string>, b: seq<string>, c: char)
    requires b != []
    ensures Append(a + b, c) == a + Append(b, c)
  {
    assert (a + b)[..|a| + |b| - 1] == a + b[..|b| - 1];
  }

  lemma {:induction false} SplitAtSlash(p: string, r: string)
    ensures Split(p + "/" + r) == Split(p) + Split(r)
  {
    if r == "" {
      SplitMore(p, '/', p + "/" + r);
    } else {
      var n := |r| - 1;
      SplitAtSlash(p, r[..n]);
      assert r == r[..n] + [r[n]];
      SplitMore(p + "/" + r[..n], r[n], p + "/" + r);
      AppendAfter(Split(p), Split(r[..n]), r[n]);
      hide Append;
    }
  }

  lemma {:induction false} JoinConcat(a: seq<string>, b: seq<string>)
    requires a != [] && b != []
    ensures Join(a + b) == Join(a) + "/" + Join(b)
  {
    var n := |b| - 1;
    assert (a + b)[..|a| + n] == a + b[..n];
    if n == 0 {
      assert a + b[..n] == a;
    } else {
      JoinConcat(a, b[..n]);
    }
  }

  lemma JoinGoesOn(a: seq<string>, b: seq<string>)
    requires a != [] && a < b
    ensures Inside(Join(b), Join(a))
  {
    hide Join;
    var rest := b[|a|..];
    assert b == a + rest;
    JoinConcat(a, rest);
  }

  // One path is inside another exactly when its segments go on from all of the other's.
  lemma InsideIsSegmentPrefix(q: string, p: string)
    ensures Inside(q, p) <==> Split(p) < Split(q)
  {
    hide Split, Join;
    if Inside(q, p) {
      var rest := q[|p| + 1..];
      assert q == p + "/" + rest;
      SplitAtSlash(p, rest);
    }
    if Split(p) < Split(q) {
      JoinGoesOn(Split(p), Split(q));
      JoinSplit(p);
      JoinSplit(q);
    }
  }

  lemma InsideSlash(q: string)
    ensures Inside(q, "/") <==> |q| >= 2 && q[0] == '/' && q[1] == '/'
  {}

  // The directories on the way to a path. The root's own path is the slash that starts every
  // path below it, so it has one directory, not two.
  function Dirs(p: string): seq<string> {
    if p == "/" then [""] else Split(p)
  }

  lemma EmptyIsOneSegment()
    ensures Split("") == [""]
  {}

  // The exact condition: the prefix test agrees with containment of directories except for
  // the root and the absolute paths below it, where the test misses the containment.
  lemma TestAgreesIff(q: string, p: string)
    requires IsNormal(p) && IsNormal(q) && p != "" && q != ""
    ensures (Inside(q, p) <==> Dirs(p) < Dirs(q)) <==> !(p == "/" && q != "/" && q[0] == '/')
  {
    InsideFacts(p, q, "");
    if q != "/" {
      InsideIsSegmentPrefix(q, if p == "/" then "" else p);
      InsideSlash(q);
      EmptyIsOneSegment();
      assert Inside(q, "") <==> q[0] == '/' by {
        assert "" + "/" == "/";
      }
    } else {
      assert Dirs(q) == [""] && Dirs(p) != [];
    }
    hide Split, Inside;
  }

  // The root's path already ends in the slash that the test adds.
  lemma RootContainsNothing(a: Scope, b: Scope)
    ensures Path(a) == "/" ==> !Contains(a, b)
  {
    NormalFormIsNormal(b.path);
    InsideSlash(Path(b));
    hide NormalizeFsPath, Inside;
  }

  // ---- The survivors ----

  // Scope i is dropped for scope j: j contains it, or is an earlier one with its key.
  predicate DroppedFor(scopes: seq<Scope>, i: nat, j: nat)
    requires i < |scopes| && j < |scopes|
  {
    Contains(scopes[j], scopes[i]) || (j < i && Same(scopes[j], scopes[i]))
  }

  ghost predicate Survives(scopes: seq<Scope>, i: nat)
    requires i < |scopes|
  {
    forall j :: 0 <= j < |scopes| ==> !DroppedFor(scopes, i, j)
  }

  // The surviving scopes among the first n, in order.
  ghost function Survivors(scopes: seq<Scope>, n: nat): seq<Scope>
    requires n <= |scopes|
  {
    if n == 0 then []
    else Survivors(scopes, n - 1) + if Survives(scopes, n - 1) then [scopes[n - 1]] else []
  }

  ghost predicate IsCovered(active: seq<Scope>, x: Scope) {
    exists k :: 0 <= k < |active| && Covers(active[k], x)
  }

  lemma PrefixDrops(scopes: seq<Scope>, x: Scope, i: nat)
    requires i < |scopes|
    ensures Survives(scopes + [x], i) <==> Survives(scopes, i) && !Contains(x, scopes[i])
  {
    hide Contains, Same;
    var more, n := scopes + [x], |scopes|;
    assert more[i] == scopes[i] && more[n] == x;
    assert DroppedFor(more, i, n) <==> Contains(x, scopes[i]);
    assert forall j :: 0 <= j < n ==> (DroppedFor(more, i, j) <==> DroppedFor(scopes, i, j));
  }

  // The retained part: what a new scope does not contain.
  function Retained(active: seq<Scope>, x: Scope): seq<Scope> {
    if active == [] then []
    else
      var n := |active| - 1;
      if Contains(x, active[n]) then Retained(active[..n], x) else Retained(active[..n], x) + [active[n]]
  }

  function Removed(active: seq<Scope>, x: Scope): seq<Scope> {
    if active == [] then []
    else
      var n := |active| - 1;
      if Contains(x, active[n]) then Removed(active[..n], x) + [active[n]] else Removed(active[..n], x)
  }

  lemma RetainedMore(active: seq<Scope>, y: Scope, x: Scope)
    ensures Retained(active + [y], x) == Retained(active, x) + if Contains(x, y) then [] else [y]
  {
    hide Contains;
    assert (active + [y])[..|active|] == active;
  }

  lemma RetainedNone(x: Scope)
    ensures Retained([], x) == []
  {}

  // A new scope takes away the survivors that it contains.
  lemma {:induction false} SurvivorsAfter(scopes: seq<Scope>, x: Scope, n: nat)
    requires n <= |scopes|
    ensures Survivors(scopes + [x], n) == Retained(Survivors(scopes, n), x)
  {
    hide Survives, Contains, Retained;
    if n == 0 {
      RetainedNone(x);
    } else {
      var before := Survivors(scopes, n - 1);
      SurvivorsAfter(scopes, x, n - 1);
      PrefixDrops(scopes, x, n - 1);
      RetainedMore(before, scopes[n - 1], x);
      assert (scopes + [x])[n - 1] == scopes[n - 1] && before + [] == before;
      assert Retained(before, x) + [] == Retained(before, x);
    }
  }

  lemma RetainedAll(active: seq<Scope>, x: Scope)
    requires forall k :: 0 <= k < |active| ==> !Contains(x, active[k])
    ensures Retained(active, x) == active
  {
    hide Contains;
    if active != [] {
      RetainedAll(active[..|active| - 1], x);
    }
  }

  // So a search of the root, added at the end, takes the place of no other scope.
  lemma RootReplacesNothing(scopes: seq<Scope>, root: Scope)
    requires Path(root) == "/"
    ensures Survivors(scopes + [root], |scopes|) == Survivors(scopes, |scopes|)
  {
    hide Survivors, Path, Contains;
    SurvivorsAfter(scopes, root, |scopes|);
    var active := Survivors(scopes, |scopes|);
    forall k | 0 <= k < |active|
      ensures !Contains(root, active[k])
    {
      RootContainsNothing(root, active[k]);
    }
    RetainedAll(active, root);
  }

  lemma RootPaths(root: Scope, repo: Scope)
    requires root.path == "/" && repo.path == "/repo"
    ensures Path(root) == "/" && Path(repo) == "/repo"
    ensures IsNormal("/") && IsNormal("/repo") && !Inside("/repo", "/") && !Inside("/", "/repo")
  {
    NormalStays("/");
    NormalStays("/repo");
    hide Collapse, Forward, Trim;
  }

  // Two scopes with different paths, neither inside the other, both survive.
  lemma BothSurvive(a: Scope, b: Scope)
    requires Path(a) != Path(b) && !Contains(a, b) && !Contains(b, a)
    ensures Survivors([a, b], 2) == [a, b]
  {
    ContainmentIsAnOrder(a, a, a);
    ContainmentIsAnOrder(b, b, b);
    hide Path, Inside, Bridge;
    var scopes := [a, b];
    assert Survives(scopes, 0) && Survives(scopes, 1);
    hide Survives;
    assert Survivors(scopes, 0) == [] && Survivors(scopes, 1) == [a];
  }

  // Of the root and /repo on one bridge, though one contains the other, both are searched.
  lemma RootAndRepoSurvive(root: Scope, repo: Scope)
    requires root.path == "/" && repo.path == "/repo" && root.bridge == repo.bridge
    ensures Comparable(root, repo) && Dirs(Path(root)) < Dirs(Path(repo))
    ensures Survivors([root, repo], 2) == [root, repo] && Survivors([repo, root], 2) == [repo, root]
  {
    RootPaths(root, repo);
    TestAgreesIff("/repo", "/");
    RootContainsNothing(root, repo);
    hide Path, Dirs, Bridge;
    BothSurvive(root, repo);
    BothSurvive(repo, root);
  }

  // ---- The survivors are the minimal elements ----

  lemma {:induction false} SurvivorAt(scopes: seq<Scope>, n: nat, k: nat) returns (i: nat)
    requires n <= |scopes| && k < |Survivors(scopes, n)|
    ensures i < n && Survives(scopes, i) && scopes[i] == Survivors(scopes, n)[k]
  {
    hide Survives;
    if k < |Survivors(scopes, n - 1)| {
      i := SurvivorAt(scopes, n - 1, k);
    } else {
      i := n - 1;
    }
  }

  lemma {:induction false} SurvivorIn(scopes: seq<Scope>, n: nat, i: nat)
    requires i < n <= |scopes| && Survives(scopes, i)
    ensures scopes[i] in Survivors(scopes, n)
  {
    hide Survives;
    if i < n - 1 {
      SurvivorIn(scopes, n - 1, i);
    }
  }

  // Every scope with a path lies in a survivor.
  lemma {:induction false} FindSurvivor(scopes: seq<Scope>, i: nat) returns (k: nat)
    requires i < |scopes| && Path(scopes[i]) != ""
    ensures k < |scopes| && Survives(scopes, k) && Covers(scopes[k], scopes[i])
    decreases |Path(scopes[i])|, i
  {
    hide NormalizeFsPath, Bridge, Inside;
    if Survives(scopes, i) {
      return i;
    }
    var j :| 0 <= j < |scopes| && DroppedFor(scopes, i, j);
    InsideFacts(Path(scopes[j]), Path(scopes[i]), "");
    k := FindSurvivor(scopes, j);
    ContainmentIsAnOrder(scopes[k], scopes[j], scopes[i]);
  }

  lemma CoversHasPath(a: Scope, b: Scope)
    ensures Covers(a, b) ==> Path(a) != "" && Path(b) != ""
  {
    hide NormalizeFsPath, Bridge;
  }

  lemma CoveredBySurvivors(scopes: seq<Scope>, x: Scope)
    ensures (exists j :: 0 <= j < |scopes| && Covers(scopes[j], x)) <==> IsCovered(Survivors(scopes, |scopes|), x)
  {
    hide Survives, Survivors, Contains, Same, NormalizeFsPath, Bridge;
    var active := Survivors(scopes, |scopes|);
    if j :| 0 <= j < |scopes| && Covers(scopes[j], x) {
      CoversHasPath(scopes[j], x);
      var k := FindSurvivor(scopes, j);
      SurvivorIn(scopes, |scopes|, k);
      ContainmentIsAnOrder(scopes[k], scopes[j], x);
      var m :| 0 <= m < |active| && active[m] == scopes[k];
      assert Covers(active[m], x);
    }
    if IsCovered(active, x) {
      var m :| 0 <= m < |active| && Covers(active[m], x);
      var i := SurvivorAt(scopes, |scopes|, m);
      assert Covers(scopes[i], x);
    }
  }

  ghost predicate Antichain(active: seq<Scope>) {
    forall i, j :: 0 <= i < |active| && 0 <= j < |active| && i != j ==> !Covers(active[i], active[j])
  }

  lemma SameIsSymmetric(a: Scope, b: Scope)
    ensures Same(a, b) <==> Same(b, a)
  {
    hide NormalizeFsPath, Bridge;
  }

  lemma {:induction false} SurvivorsAreApart(scopes: seq<Scope>, n: nat)
    requires n <= |scopes|
    ensures Antichain(Survivors(scopes, n))
  {
    hide Contains, Comparable;
    if n > 0 {
      SurvivorsAreApart(scopes, n - 1);
      var before := Survivors(scopes, n - 1);
      if Survives(scopes, n - 1) {
        forall k | 0 <= k < |before|
          ensures !Covers(before[k], scopes[n - 1]) && !Covers(scopes[n - 1], before[k])
        {
          var i := SurvivorAt(scopes, n - 1, k);
          SameIsSymmetric(scopes[i], scopes[n - 1]);
          assert !DroppedFor(scopes, n - 1, i) && !DroppedFor(scopes, i, n - 1);
        }
      }
    }
  }

  // What this means for the result: of two comparable survivors one still contains the other
  // exactly when it is the root and the other an absolute path below it.
  lemma SurvivorsNestIff(scopes: seq<Scope>, i: nat, j: nat)
    requires var active := Survivors(scopes, |scopes|);
      i < |active| && j < |active| && Comparable(active[i], active[j])
    ensures var active := Survivors(scopes, |scopes|);
      var p, q := Path(active[i]), Path(active[j]);
      Dirs(p) < Dirs(q) <==> p == "/" && q != "/" && q[0] == '/'
  {
    SurvivorsAreApart(scopes, |scopes|);
    hide Survivors, Survives, NormalizeFsPath, Bridge, Dirs, Inside, IsNormal;
    var active := Survivors(scopes, |scopes|);
    ContainmentIsAnOrder(active[i], active[j], active[i]);
    NormalFormIsNormal(active[i].path);
    NormalFormIsNormal(active[j].path);
    assert !Covers(active[i], active[j]) || i == j;
    TestAgreesIff(Path(active[j]), Path(active[i]));
  }

  // The survivors are exactly the minimal elements: apart from each other, they cover every
  // scope with a path, and a scope without one always survives.
  lemma SurvivorsAreMinimal(scopes: seq<Scope>, x: Scope)
    requires x in scopes
    ensures var active := Survivors(scopes, |scopes|);
      && Antichain(active)
      && (Path(x) != "" ==> IsCovered(active, x))
      && (Path(x) == "" ==> x in active)
      && (x in active ==> forall y :: y in scopes ==> !Contains(y, x))
  {
    var i :| 0 <= i < |scopes| && scopes[i] == x;
    SurvivorsAreApart(scopes, |scopes|);
    CoveredBySurvivors(scopes, x);
    if Path(x) == "" {
      assert Survives(scopes, i);
      SurvivorIn(scopes, |scopes|, i);
    } else {
      assert Same(x, x);
      assert Covers(scopes[i], x);
    }
    if x in Survivors(scopes, |scopes|) {
      var k :| 0 <= k < |Survivors(scopes, |scopes|)| && Survivors(scopes, |scopes|)[k] == x;
      var m := SurvivorAt(scopes, |scopes|, k);
      forall y | y in scopes
        ensures !Contains(y, x)
      {
        var j :| 0 <= j < |scopes| && scopes[j] == y;
        assert !DroppedFor(scopes, m, j);
      }
    }
    hide NormalizeFsPath, Bridge, Inside, Survivors;
  }

  // Whatever the order of the input, the same bridges and paths survive.
  lemma OrderIsIrrelevant(a: seq<Scope>, b: seq<Scope>, x: Scope) returns (y: Scope)
    requires multiset(a) == multiset(b) && x in Survivors(a, |a|) && Path(x) != ""
    ensures y in Survivors(b, |b|) && Same(y, x)
  {
    hide NormalizeFsPath, Bridge, Survivors, Contains;
    var k :| 0 <= k < |Survivors(a, |a|)| && Survivors(a, |a|)[k] == x;
    var m := SurvivorAt(a, |a|, k);
    assert x in multiset(a) && x in b;
    SurvivorsAreMinimal(a, x);
    SurvivorsAreMinimal(b, x);
    var j :| 0 <= j < |Survivors(b, |b|)| && Covers(Survivors(b, |b|)[j], x);
    y := Survivors(b, |b|)[j];
    var i := SurvivorAt(b, |b|, j);
    assert y in multiset(b) && y in a;
  }

  // ---- The one-pass loop ----

  lemma NewSurvives(scopes: seq<Scope>, x: Scope)
    ensures Survives(scopes + [x], |scopes|) <==> !IsCovered(Survivors(scopes, |scopes|), x)
  {
    CoveredBySurvivors(scopes, x);
    ContainmentIsAnOrder(x, x, x);
    hide Contains, Same, Survivors, IsCovered;
    var more, n := scopes + [x], |scopes|;
    assert forall j :: 0 <= j < n ==> (DroppedFor(more, n, j) <==> Covers(scopes[j], x));
    assert !DroppedFor(more, n, n);
    if j :| 0 <= j < n && Covers(scopes[j], x) {
      assert DroppedFor(more, n, j);
    }
  }

  lemma CoveredContainsNone(scopes: seq<Scope>, x: Scope)
    requires IsCovered(Survivors(scopes, |scopes|), x)
    ensures Retained(Survivors(scopes, |scopes|), x) == Survivors(scopes, |scopes|)
  {
    var active := Survivors(scopes, |scopes|);
    CoveredBySurvivors(scopes, x);
    var j :| 0 <= j < |scopes| && Covers(scopes[j], x);
    hide Contains, Same, Survivors, IsCovered, Retained;
    forall k | 0 <= k < |active|
      ensures !Contains(x, active[k])
    {
      var i := SurvivorAt(scopes, |scopes|, k);
      ContainmentIsAnOrder(scopes[j], x, active[k]);
      assert !DroppedFor(scopes, i, j);
    }
    RetainedAll(active, x);
  }

  lemma LastSurvivor(more: seq<Scope>, n: nat, x: Scope)
    requires |more| == n + 1 && more[n] == x
    ensures Survivors(more, n + 1) == if Survives(more, n) then Survivors(more, n) + [x] else Survivors(more, n)
  {
    hide Survives;
  }

  // What the next scope does to the survivors.
  lemma NextSurvivors(scopes: seq<Scope>, x: Scope, more: seq<Scope>)
    requires more == scopes + [x]
    ensures var active := Survivors(scopes, |scopes|);
      Survivors(more, |more|) == if IsCovered(active, x) then active else Retained(active, x) + [x]
  {
    hide *;
    var n, active := |scopes|, Survivors(scopes, |scopes|);
    SurvivorsAfter(scopes, x, n);
    NewSurvives(scopes, x);
    if IsCovered(active, x) {
      CoveredContainsNone(scopes, x);
    }
    LastSurvivor(more, n, x);
  }

  lemma {:induction false} RetainedAndRemoved(active: seq<Scope>, x: Scope)
    ensures multiset(Retained(active, x)) + multiset(Removed(active, x)) == multiset(active)
    ensures forall y :: y in Removed(active, x) ==> Contains(x, y) && Path(y) != ""
  {
    hide NormalizeFsPath, Bridge, Inside;
    if active != [] {
      var n := |active| - 1;
      RetainedAndRemoved(active[..n], x);
      assert active == active[..n] + [active[n]];
    }
  }

  method IsNested(active: seq<Scope>, scope: Scope) returns (nested: bool)
    requires Path(scope) != ""
    ensures nested == IsCovered(active, scope)
  {
    hide Path, Bridge;
    var normPath, normBridge := Path(scope), Bridge(scope);
    for k := 0 to |active|
      invariant forall j :: 0 <= j < k ==> !Covers(active[j], scope)
    {
      var existing := active[k];
      var existingBridge := Bridge(existing);
      if existingBridge != normBridge {
        continue;
      }
      var existingPath := Path(existing);
      if existingPath == "" {
        continue;
      }
      if normPath == existingPath {
        return true;
      }
      if existingPath + "/" <= normPath {
        return true;
      }
    }
    return false;
  }

  method Subsume(active: seq<Scope>, scope: Scope) returns (retained: seq<Scope>, removed: seq<Scope>)
    requires Path(scope) != ""
    ensures retained == Retained(active, scope) && removed == Removed(active, scope)
  {
    hide Path, Bridge;
    var normPath, normBridge := Path(scope), Bridge(scope);
    retained, removed := [], [];
    for k := 0 to |active|
      invariant retained == Retained(active[..k], scope) && removed == Removed(active[..k], scope)
    {
      assert active[..k + 1][..k] == active[..k];
      var existing := active[k];
      var existingBridge := Bridge(existing);
      var existingPath := Path(existing);
      if existingBridge == normBridge && existingPath != "" && normPath + "/" <= existingPath {
        removed := removed + [existing];
      } else {
        retained := retained + [existing];
      }
    }
    assert active[..|active|] == active;
  }

  lemma NoSurvivors()
    ensures Survivors([], 0) == []
  {}

  // Wherever the next scope goes, and those it takes the place of, none is lost.
  lemma KeepsAll(before: seq<Scope>, active: seq<Scope>, dropped: seq<Scope>, retained: seq<Scope>, removed: seq<Scope>,
                 x: Scope)
    requires multiset(active) + multiset(dropped) == multiset(before)
    requires multiset(retained) + multiset(removed) == multiset(active)
    ensures multiset(active + [x]) + multiset(dropped) == multiset(before + [x])
    ensures multiset(active) + multiset(dropped + [x]) == multiset(before + [x])
    ensures multiset(retained + [x]) + multiset(dropped + removed) == multiset(before + [x])
  {}

  lemma PathlessIsApart(active: seq<Scope>, x: Scope)
    requires Path(x) == ""
    ensures !IsCovered(active, x) && Retained(active, x) == active
  {
    hide NormalizeFsPath, Bridge;
    RetainedAll(active, x);
  }

  lemma DroppedIsCovered(scopes: seq<Scope>, active: seq<Scope>, dropped: seq<Scope>, x: Scope)
    requires active == Survivors(scopes, |scopes|) && multiset(active) + multiset(dropped) == multiset(scopes)
    requires x in dropped && Path(x) != ""
    ensures IsCovered(active, x)
  {
    hide NormalizeFsPath, Survivors, IsCovered;
    assert x in multiset(dropped) && x in multiset(scopes);
    SurvivorsAreMinimal(scopes, x);
  }

  // Active and dropped scopes are the input, rearranged; the active ones are its survivors,
  // in order.
  method DeduplicateSearchScopes(scopes: seq<Scope>) returns (active: seq<Scope>, dropped: seq<Scope>)
    ensures active == Survivors(scopes, |scopes|)
    ensures multiset(active) + multiset(dropped) == multiset(scopes)
    ensures forall x :: x in dropped ==> IsCovered(active, x)
  {
    hide NormalizeFsPath, Bridge, Survivors, Contains, IsCovered, Retained, Removed;
    active, dropped := [], [];
    ghost var before: seq<Scope> := [];
    NoSurvivors();
    for n := 0 to |scopes|
      invariant before == scopes[..n]
      invariant active == Survivors(before, |before|)
      invariant multiset(active) + multiset(dropped) == multiset(before)
      invariant forall x :: x in dropped ==> Path(x) != ""
    {
      var scope := scopes[n];
      NextSurvivors(before, scope, before + [scope]);
      RetainedAndRemoved(active, scope);
      KeepsAll(before, active, dropped, Retained(active, scope), Removed(active, scope), scope);
      before := before + [scope];
      if Path(scope) == "" {
        PathlessIsApart(active, scope);
        active := active + [scope];
        continue;
      }
      var nested := IsNested(active, scope);
      if nested {
        dropped := dropped + [scope];
      } else {
        var retained, removed := Subsume(active, scope);
        dropped := dropped + removed;
        active := retained + [scope];
      }
    }
    assert before == scopes;
    forall x | x in dropped
      ensures IsCovered(active, x)
    {
      assert x in multiset(dropped);
      DroppedIsCovered(scopes, active, dropped, x);
    }
  }

  // ---- The all-pairs pass over result roots ----

  datatype Result = Result(scope: Scope, root: string)

  // The scope with its root as path, where the backend reported one.
  function Rooted(r: Result): Scope {
    if r.root == "" then r.scope else r.scope.(path := r.root)
  }

  // Of two results with one root, a primary scope wins, and otherwise the earlier one.
  predicate Preferred(results: seq<Result>, i: nat, j: nat)
    requires i < |results| && j < |results|
  {
    var a, b := results[i].scope.kind, results[j].scope.kind;
    (a == Primary && b != Primary) || (i < j && !(b == Primary && a != Primary))
  }

  predicate Beats(results: seq<Result>, i: nat, j: nat)
    requires i < |results| && j < |results|
  {
    var a, b := Rooted(results[i]), Rooted(results[j]);
    i != j && (Contains(a, b) || (Same(a, b) && Preferred(results, i, j)))
  }

  ghost predicate IsBeaten(results: seq<Result>, j: nat)
    requires j < |results|
  {
    exists i :: 0 <= i < |results| && Beats(results, i, j)
  }

  ghost predicate LosesId(results: seq<Result>, id: string) {
    exists j :: 0 <= j < |results| && results[j].scope.id == id && IsBeaten(results, j)
  }

  ghost function Winners(results: seq<Result>, n: nat): seq<Result>
    requires n <= |results|
  {
    if n == 0 then []
    else Winners(results, n - 1) + if LosesId(results, results[n - 1].scope.id) then [] else [results[n - 1]]
  }

  ghost function Losers(results: seq<Result>, n: nat): seq<Scope>
    requires n <= |results|
  {
    if n == 0 then []
    else Losers(results, n - 1) + if LosesId(results, results[n - 1].scope.id) then [results[n - 1].scope] else []
  }

  // The pair (i, j) comes before (m, n) in the order of the two loops.
  predicate PairBefore(i: int, j: int, m: int, n: int) {
    i < m || (i == m && j < n)
  }

  ghost predicate FoundIds(results: seq<Result>, ids: set<string>, m: nat, n: nat) {
    && (forall id :: id in ids ==> LosesId(results, id))
    && (forall i, j :: 0 <= i < |results| && 0 <= j < |results| && PairBefore(i, j, m, n) && Beats(results, i, j) ==>
          results[j].scope.id in ids)
  }

  method CompareRoots(results: seq<Result>, i: nat, j: nat) returns (subsumed: bool)
    requires i < |results| && j < |results|
    ensures subsumed == Beats(results, i, j)
  {
    hide Path, Bridge;
    var a, b := results[i], results[j];
    var bridgeA, rootA := Bridge(Rooted(a)), Path(Rooted(a));
    if rootA == "" || i == j {
      return false;
    }
    var bridgeB, rootB := Bridge(Rooted(b)), Path(Rooted(b));
    if bridgeA != bridgeB || rootB == "" {
      return false;
    }
    if rootB == rootA {
      InsideFacts(rootA, rootB, "");
      return (a.scope.kind == Primary && b.scope.kind != Primary)
          || (i < j && !(b.scope.kind == Primary && a.scope.kind != Primary));
    }
    return rootA + "/" <= rootB;
  }

  lemma BeatenLosesId(results: seq<Result>, i: nat, j: nat)
    requires i < |results| && j < |results| && Beats(results, i, j)
    ensures LosesId(results, results[j].scope.id)
  {
    hide Beats;
    assert IsBeaten(results, j);
  }

  lemma FoundAll(results: seq<Result>, ids: set<string>, n: nat)
    requires FoundIds(results, ids, |results|, 0) && n < |results|
    ensures results[n].scope.id in ids <==> LosesId(results, results[n].scope.id)
  {
    hide Beats;
  }

  method DeduplicateScopeResultsByRoot(results: seq<Result>) returns (active: seq<Result>, subsumed: seq<Scope>)
    ensures active == Winners(results, |results|) && subsumed == Losers(results, |results|)
  {
    hide Beats, LosesId;
    var ids: set<string> := {};
    for i := 0 to |results|
      invariant FoundIds(results, ids, i, 0)
    {
      for j := 0 to |results|
        invariant FoundIds(results, ids, i, j)
      {
        var beaten := CompareRoots(results, i, j);
        if beaten {
          BeatenLosesId(results, i, j);
          ids := ids + {results[j].scope.id};
        }
      }
    }
    active, subsumed := [], [];
    for n := 0 to |results|
      invariant active == Winners(results, n) && subsumed == Losers(results, n)
    {
      FoundAll(results, ids, n);
      if results[n].scope.id in ids {
        subsumed := subsumed + [results[n].scope];
      } else {
        active := active + [results[n]];
      }
    }
  }

  // ---- With unique ids, the winners are the minimal elements too ----

  ghost predicate UniqueIds(results: seq<Result>) {
    forall i, j :: 0 <= i < j < |results| ==> results[i].scope.id != results[j].scope.id
  }

  lemma {:induction false} WinnerAt(results: seq<Result>, n: nat, k: nat) returns (i: nat)
    requires n <= |results| && k < |Winners(results, n)|
    ensures i < n && !IsBeaten(results, i) && results[i] == Winners(results, n)[k]
  {
    hide IsBeaten;
    if k < |Winners(results, n - 1)| {
      i := WinnerAt(results, n - 1, k);
    } else {
      i := n - 1;
    }
  }

  lemma {:induction false} WinnerIn(results: seq<Result>, n: nat, i: nat)
    requires i < n <= |results| && UniqueIds(results) && !IsBeaten(results, i)
    ensures results[i] in Winners(results, n)
  {
    hide IsBeaten;
    if i < n - 1 {
      WinnerIn(results, n - 1, i);
    }
  }

  function Rank(r: Result): nat {
    if r.scope.kind == Primary then 0 else 1
  }

  // Every result with a root lies in an unbeaten one.
  lemma {:induction false} FindWinner(results: seq<Result>, j: nat) returns (k: nat)
    requires j < |results| && Path(Rooted(results[j])) != ""
    ensures k < |results| && !IsBeaten(results, k) && Covers(Rooted(results[k]), Rooted(results[j]))
    decreases |Path(Rooted(results[j]))|, Rank(results[j]), j
  {
    hide NormalizeFsPath, Bridge, Inside;
    if !IsBeaten(results, j) {
      return j;
    }
    var i :| 0 <= i < |results| && Beats(results, i, j);
    InsideFacts(Path(Rooted(results[i])), Path(Rooted(results[j])), "");
    k := FindWinner(results, i);
    ContainmentIsAnOrder(Rooted(results[k]), Rooted(results[i]), Rooted(results[j]));
  }

  // Of two different results that cover each other's roots, one is beaten.
  lemma WinnersAreApart(results: seq<Result>, i: nat, j: nat)
    requires i < |results| && j < |results| && i != j && !IsBeaten(results, i) && !IsBeaten(results, j)
    ensures !Covers(Rooted(results[i]), Rooted(results[j]))
  {
    hide Contains, Comparable;
    SameIsSymmetric(Rooted(results[i]), Rooted(results[j]));
    assert !Beats(results, i, j) && !Beats(results, j, i);
  }

  lemma InWinners(results: seq<Result>, i: nat)
    requires i < |results| && results[i] in Winners(results, |results|)
    ensures UniqueIds(results) ==> !IsBeaten(results, i)
  {
    hide IsBeaten, Winners;
    var winners := Winners(results, |results|);
    var k :| 0 <= k < |winners| && winners[k] == results[i];
    var m := WinnerAt(results, |results|, k);
  }

  // With unique ids every result with a root is covered by a winner, and no winner is
  // covered by another result that wins.
  lemma WinnersAreMinimal(results: seq<Result>, j: nat) returns (k: nat)
    requires UniqueIds(results) && j < |results| && Path(Rooted(results[j])) != ""
    ensures k < |results| && results[k] in Winners(results, |results|) && Covers(Rooted(results[k]), Rooted(results[j]))
    ensures forall i :: 0 <= i < |results| && i != j && results[i] in Winners(results, |results|)
                        && results[j] in Winners(results, |results|) ==>
                        !Covers(Rooted(results[i]), Rooted(results[j]))
  {
    hide Covers, IsBeaten, NormalizeFsPath;
    k := FindWinner(results, j);
    WinnerIn(results, |results|, k);
    forall i | 0 <= i < |results| && i != j && results[i] in Winners(results, |results|) &&
      results[j] in Winners(results, |results|)
      ensures !Covers(Rooted(results[i]), Rooted(results[j]))
    {
      InWinners(results, i);
      InWinners(results, j);
      WinnersAreApart(results, i, j);
    }
  }

  ghost predicate CoveredByKept(results: seq<Result>, j: nat)
    requires j < |results|
  {
    exists k :: 0 <= k < |results| && !LosesId(results, results[k].scope.id)
      && Covers(Rooted(results[k]), Rooted(results[j]))
  }

  // An unbeaten result that shares its id with a beaten one, and so is dropped with it.
  ghost predicate LostWithId(results: seq<Result>, k: nat)
    requires k < |results|
  {
    Path(Rooted(results[k])) != "" && !IsBeaten(results, k) && LosesId(results, results[k].scope.id)
  }

  lemma KeptIsUnbeaten(results: seq<Result>, k: nat)
    requires k < |results|
    ensures IsBeaten(results, k) ==> LosesId(results, results[k].scope.id)
  {}

  // Ids matter: every result with a root is covered by a kept one exactly when no unbeaten
  // result shares its id with a beaten one.
  lemma CoverageIff(results: seq<Result>)
    ensures (forall j :: 0 <= j < |results| && Path(Rooted(results[j])) != "" ==> CoveredByKept(results, j))
       <==> (forall k :: 0 <= k < |results| ==> !LostWithId(results, k))
  {
    hide IsBeaten, LosesId, Covers, NormalizeFsPath;
    if forall k :: 0 <= k < |results| ==> !LostWithId(results, k) {
      forall j | 0 <= j < |results| && Path(Rooted(results[j])) != ""
        ensures CoveredByKept(results, j)
      {
        var k := FindWinner(results, j);
        CoversHasPath(Rooted(results[k]), Rooted(results[j]));
        assert !LostWithId(results, k);
      }
    }
    forall j | 0 <= j < |results| && LostWithId(results, j)
      ensures !CoveredByKept(results, j)
    {
      forall k | 0 <= k < |results| && !LosesId(results, results[k].scope.id)
        ensures !Covers(Rooted(results[k]), Rooted(results[j]))
      {
        KeptIsUnbeaten(results, k);
        WinnersAreApart(results, k, j);
      }
    }
  }

  // It does fail: one id on a root and on its subdirectory loses both.
  lemma RepeatedIdLosesAll(a: Result, b: Result)
    requires a.scope.id == b.scope.id && Contains(Rooted(a), Rooted(b))
    ensures Winners([a, b], 2) == []
  {
    hide Contains;
    var results := [a, b];
    assert Beats(results, 0, 1);
    BeatenLosesId(results, 0, 1);
    assert LosesId(results, a.scope.id);
    assert Winners(results, 0) == [] && Winners(results, 1) == [];
  }
}
