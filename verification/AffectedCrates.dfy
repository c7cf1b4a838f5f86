/** Selecting the workspace packages that a set of changed paths can affect.

    Directories are relative to the workspace root; `deps` are the directories a package's path
    dependencies name. */
module AffectedCrates {
  import opened Order
  import opened Text

  datatype Package = Package(id: string, name: string, dir: string, deps: seq<string>)

  datatype Metadata = Metadata(members: set<string>, packages: seq<Package>)

  datatype Selection = Workspace | Packages(names: seq<string>)

  type Graph = map<string, set<string>>

  // ----- what the metadata says -----

  function Members(m: Metadata): seq<Package> {
    Filtered(m.packages, m.members)
  }

  function Filtered(packages: seq<Package>, members: set<string>): seq<Package> {
    if packages == [] then []
    else (if packages[0].id in members then [packages[0]] else []) + Filtered(packages[1..], members)
  }

  /** Directory to package; of two packages in one directory the later counts. */
  function Owners(packages: seq<Package>): map<string, string> {
    if packages == [] then map[]
    else
      var last := packages[|packages| - 1];
      Owners(packages[..|packages| - 1])[last.dir := last.id]
  }

  function Names(packages: seq<Package>): map<string, string> {
    if packages == [] then map[]
    else
      var last := packages[|packages| - 1];
      Names(packages[..|packages| - 1])[last.id := last.name]
  }

  predicate DependsOn(p: Package, owners: map<string, string>, id: string) {
    id != "" && exists d | d in p.deps :: d in owners && owners[d] == id
  }

  /** The packages among `packages` that depend on `id` directly. */
  function Dependents(packages: seq<Package>, owners: map<string, string>, id: string): set<string> {
    set p | p in packages && DependsOn(p, owners, id) :: p.id
  }

  /** Each package with those that depend on it directly. */
  function Reverse(packages: seq<Package>): Graph {
    var owners := Owners(packages);
    map id | id in Names(packages) :: Dependents(packages, owners, id)
  }

  lemma {:induction false} IdsAreNamed(packages: seq<Package>)
    ensures forall p | p in packages :: p.id in Names(packages)
    ensures forall d | d in Owners(packages) :: Owners(packages)[d] in Names(packages)
  {
    if packages != [] {
      var front := packages[..|packages| - 1];
      IdsAreNamed(front);
      assert packages == front + [packages[|packages| - 1]];
    }
  }

  // ----- which paths are refused, and who owns the others -----

  const RESERVED := ["Cargo.toml", "Cargo.lock", "build.rs", "tests", "test", "fixtures", "helpers",
                     "test_helpers", ".cargo", ".config"]

  function LowerChar(c: char): char {
    if 'A' <= c <= 'Z' then 'a' + (c - 'A') else c
  }

  function Lower(s: string): string {
    seq(|s|, i requires 0 <= i < |s| => LowerChar(s[i]))
  }

  predicate Suspicious(part: string) {
    var l := Lower(part);
    part in RESERVED || part == ".." || Contains(l, "test") || Contains(l, "fixture") || Contains(l, "helper")
    || Contains(l, "config")
  }

  predicate Under(dir: string, path: string) {
    dir != "." && dir + "/" <= path
  }

  predicate EndsWith(s: string, suffix: string) {
    |suffix| <= |s| && s[|s| - |suffix|..] == suffix
  }

  predicate IsCrateSource(path: string) {
    EndsWith(path, ".rs") && Contains("/" + path, "/src/")
  }

  predicate Unowned(owners: map<string, string>, path: string) {
    forall d | d in owners :: !Under(d, path)
  }

  /** A change that may reach beyond one crate: the whole workspace is selected. */
  predicate Refused(owners: map<string, string>, path: string) {
    || path == "" || path[0] == '/' || (exists part | part in Split(path, '/') :: Suspicious(part))
    || Unowned(owners, path) || !IsCrateSource(path)
  }

  /** `dir` is the deepest package directory above the path. */
  predicate Deepest(owners: map<string, string>, path: string, dir: string) {
    dir in owners && Under(dir, path) && forall d | d in owners && Under(d, path) :: |d| <= |dir|
  }

  lemma DeepestUnique(owners: map<string, string>, path: string, d: string, e: string)
    requires Deepest(owners, path, d) && Deepest(owners, path, e)
    ensures d == e
  {
    assert path[..|d|] == (d + "/")[..|d|] == d;
    assert path[..|e|] == (e + "/")[..|e|] == e;
  }

  /** The packages that own a changed path. */
  ghost function Roots(owners: map<string, string>, paths: seq<string>): set<string> {
    set d, path | path in paths && d in owners && Deepest(owners, path, d) :: owners[d]
  }

  // ----- the closure -----

  ghost predicate Closed(s: set<string>, graph: Graph) {
    forall id | id in s && id in graph :: graph[id] <= s
  }

  /** The least set that contains the roots and, with a package, all that depend on it. */
  ghost predicate IsClosure(s: set<string>, roots: set<string>, graph: Graph) {
    roots <= s && Closed(s, graph) && forall t: set<string> | roots <= t && Closed(t, graph) :: s <= t
  }

  lemma ClosureUnique(s: set<string>, t: set<string>, roots: set<string>, graph: Graph)
    requires IsClosure(s, roots, graph) && IsClosure(t, roots, graph)
    ensures s == t
  {
  }

  predicate Connected(graph: Graph) {
    forall id | id in graph :: graph[id] <= graph.Keys
  }

  method Listing(s: set<string>) returns (r: seq<string>)
    ensures Elements(r) == s
  {
    r := [];
    var todo := s;
    while todo != {}
      invariant todo <= s && Elements(r) == s - todo
      decreases |todo|
    {
      var id :| id in todo;
      assert Elements(r + [id]) == Elements(r) + {id};
      r := r + [id];
      todo := todo - {id};
    }
  }

  /** What is not yet expanded waits in `pending`; nothing is included without a reason. */
  ghost predicate Expanding(affected: set<string>, waiting: set<string>, roots: set<string>, graph: Graph) {
    && roots <= affected <= graph.Keys && waiting <= affected
    && (forall id | id in affected && id !in waiting :: graph[id] <= affected)
    && forall t: set<string> | roots <= t && Closed(t, graph) :: affected <= t
  }

  lemma ExpandOne(affected: set<string>, waiting: set<string>, rest: set<string>, roots: set<string>, graph: Graph,
                  id: string)
    requires Expanding(affected, waiting, roots, graph) && Connected(graph)
    requires id in waiting && waiting - {id} <= rest <= waiting
    ensures Expanding(affected + graph[id], rest + (graph[id] - affected), roots, graph)
  {
  }

  lemma Shrinks(all: set<string>, before: set<string>, after: set<string>)
    requires before <= after <= all && before != after
    ensures |all - after| < |all - before|
  {
    assert all - before == (all - after) + (after - before);
    var id :| id in after - before;
  }

  /** Includes every dependent found and makes it wait. */
  method Include(affected: set<string>, pending: seq<string>, found: set<string>)
    returns (more: set<string>, waiting: seq<string>)
    ensures more == affected + found && Elements(waiting) == Elements(pending) + found
    ensures found == {} ==> waiting == pending
  {
    hide Elements;
    more, waiting := affected, pending;
    var todo := found;
    ghost var done: set<string> := {};
    while todo != {}
      invariant done + todo == found && more == affected + done && Elements(waiting) == Elements(pending) + done
      invariant found == {} ==> waiting == pending
      decreases |todo|
    {
      var dependent :| dependent in todo;
      PushElements(waiting, dependent);
      MoveOne(affected, done, todo, dependent);
      MoveOne(Elements(pending), done, todo, dependent);
      more := more + {dependent};
      waiting := waiting + [dependent];
      done := done + {dependent};
      todo := todo - {dependent};
    }
  }

  lemma MoveOne(base: set<string>, done: set<string>, todo: set<string>, id: string)
    requires id in todo
    ensures base + done + {id} == base + (done + {id})
    ensures done + {id} + (todo - {id}) == done + todo
  {
  }

  lemma PushElements(s: seq<string>, id: string)
    ensures Elements(s + [id]) == Elements(s) + {id}
  {
  }

  lemma PopElements(s: seq<string>)
    requires s != []
    ensures var id, rest := s[|s| - 1], Elements(s[..|s| - 1]);
      id in Elements(s) && Elements(s) - {id} <= rest <= Elements(s)
  {
    assert s == s[..|s| - 1] + [s[|s| - 1]];
  }

  lemma NoneWaiting(affected: set<string>, roots: set<string>, graph: Graph)
    requires Expanding(affected, {}, roots, graph)
    ensures IsClosure(affected, roots, graph)
  {
  }

  lemma StartExpanding(roots: set<string>, graph: Graph)
    requires roots <= graph.Keys
    ensures Expanding(roots, roots, roots, graph)
  {
  }

  /** The worklist computes the closure, whatever order it takes and whatever cycles there are. */
  method Worklist(graph: Graph, roots: set<string>) returns (affected: set<string>)
    requires Connected(graph) && roots <= graph.Keys
    ensures IsClosure(affected, roots, graph)
  {
    hide Expanding, Elements, IsClosure;
    affected := roots;
    var pending := Listing(affected);
    StartExpanding(roots, graph);
    while pending != []
      invariant Expanding(affected, Elements(pending), roots, graph) && affected <= graph.Keys
      decreases |graph.Keys - affected|, |pending|
    {
      ghost var before, waiting := affected, Elements(pending);
      PopElements(pending);
      var id := pending[|pending| - 1];
      WaitingIsKnown(affected, waiting, roots, graph, id);
      pending := pending[..|pending| - 1];
      ExpandOne(before, waiting, Elements(pending), roots, graph, id);
      assert before + (graph[id] - before) == before + graph[id];
      affected, pending := Include(affected, pending, graph[id] - affected);
      if affected != before {
        Shrinks(graph.Keys, before, affected);
      }
    }
    assert Elements(pending) == {} by { NoElements(pending); }
    NoneWaiting(affected, roots, graph);
  }

  lemma NoElements(s: seq<string>)
    requires s == []
    ensures Elements(s) == {}
  {
  }

  lemma WaitingIsKnown(affected: set<string>, waiting: set<string>, roots: set<string>, graph: Graph, id: string)
    requires Expanding(affected, waiting, roots, graph) && id in waiting && Connected(graph)
    ensures id in graph && graph[id] <= graph.Keys
  {
  }

  // ----- building the maps -----

  method OwnersOf(packages: seq<Package>) returns (owners: map<string, string>)
    ensures owners == Owners(packages)
  {
    owners := map[];
    for i := 0 to |packages|
      invariant owners == Owners(packages[..i])
    {
      assert packages[..i + 1][..i] == packages[..i];
      owners := owners[packages[i].dir := packages[i].id];
    }
    assert packages[..|packages|] == packages;
  }

  method NamesOf(packages: seq<Package>) returns (names: map<string, string>)
    ensures names == Names(packages)
  {
    names := map[];
    for i := 0 to |packages|
      invariant names == Names(packages[..i])
    {
      assert packages[..i + 1][..i] == packages[..i];
      names := names[packages[i].id := packages[i].name];
    }
    assert packages[..|packages|] == packages;
  }

  /** The edges from the first `j` dependencies of one package. */
  predicate DependsUpTo(p: Package, j: nat, owners: map<string, string>, id: string)
    requires j <= |p.deps|
  {
    DependsOn(p.(deps := p.deps[..j]), owners, id)
  }

  lemma DependsNext(p: Package, j: nat, owners: map<string, string>, id: string)
    requires j < |p.deps|
    ensures DependsUpTo(p, j + 1, owners, id) <==>
            DependsUpTo(p, j, owners, id) || (id != "" && p.deps[j] in owners && owners[p.deps[j]] == id)
  {
    var d := p.deps[j];
    assert p.deps[..j + 1] == p.deps[..j] + [d];
    if d in owners && owners[d] == id {
      assert d in p.deps[..j + 1];
    }
  }

  lemma DependentsSnoc(packages: seq<Package>, p: Package, owners: map<string, string>, id: string)
    ensures Dependents(packages + [p], owners, id) ==
            Dependents(packages, owners, id) + (if DependsOn(p, owners, id) then {p.id} else {})
  {
  }

  function Edge(p: Package, j: nat, owners: map<string, string>, id: string): set<string>
    requires j <= |p.deps|
  {
    if DependsUpTo(p, j, owners, id) then {p.id} else {}
  }

  predicate IsOwner(owners: map<string, string>, d: string, id: string) {
    id != "" && d in owners && owners[d] == id
  }

  /** One dependency adds its edge, if it names the directory of a package. */
  method AddEdge(before: Graph, dependent: string, d: string, owners: map<string, string>) returns (graph: Graph)
    requires forall e | e in owners :: owners[e] in before
    ensures graph.Keys == before.Keys
    ensures forall id | id in before ::
      graph[id] == before[id] + (if IsOwner(owners, d, id) then {dependent} else {})
  {
    graph := before;
    if d in owners && owners[d] != "" {
      graph := graph[owners[d] := graph[owners[d]] + {dependent}];
    }
  }

  lemma EdgeNext(p: Package, j: nat, owners: map<string, string>, id: string, before: set<string>)
    requires j < |p.deps|
    ensures before + Edge(p, j, owners, id) + (if IsOwner(owners, p.deps[j], id) then {p.id} else {}) ==
            before + Edge(p, j + 1, owners, id)
  {
    DependsNext(p, j, owners, id);
  }

  method AddEdges(before: Graph, p: Package, owners: map<string, string>) returns (graph: Graph)
    requires forall d | d in owners :: owners[d] in before
    ensures graph.Keys == before.Keys
    ensures forall id | id in before :: graph[id] == before[id] + Edge(p, |p.deps|, owners, id)
  {
    hide Edge, IsOwner;
    graph := before;
    forall id | id in before
      ensures before[id] == before[id] + Edge(p, 0, owners, id)
    {
      NoEdges(p, owners, id);
    }
    for j := 0 to |p.deps|
      invariant graph.Keys == before.Keys
      invariant forall id | id in before :: graph[id] == before[id] + Edge(p, j, owners, id)
    {
      forall id | id in before
        ensures before[id] + Edge(p, j, owners, id) + (if IsOwner(owners, p.deps[j], id) then {p.id} else {}) ==
                before[id] + Edge(p, j + 1, owners, id)
      {
        EdgeNext(p, j, owners, id, before[id]);
      }
      graph := AddEdge(graph, p.id, p.deps[j], owners);
    }
  }

  lemma NoEdges(p: Package, owners: map<string, string>, id: string)
    ensures Edge(p, 0, owners, id) == {}
  {
  }

  method ReverseOf(packages: seq<Package>, owners: map<string, string>, names: map<string, string>) returns (graph: Graph)
    requires owners == Owners(packages) && names == Names(packages)
    ensures graph == Reverse(packages)
  {
    hide DependsOn;
    IdsAreNamed(packages);
    graph := map id | id in names :: {};
    for i := 0 to |packages|
      invariant graph.Keys == names.Keys
      invariant forall id | id in names :: graph[id] == Dependents(packages[..i], owners, id)
    {
      var p := packages[i];
      graph := AddEdges(graph, p, owners);
      assert p.deps[..|p.deps|] == p.deps && p.(deps := p.deps) == p;
      assert packages[..i + 1] == packages[..i] + [p];
      forall id | id in names
        ensures graph[id] == Dependents(packages[..i + 1], owners, id)
      {
        DependentsSnoc(packages[..i], p, owners, id);
      }
    }
    assert packages[..|packages|] == packages;
  }

  // ----- the changed paths -----

  /** The package directory a path lies deepest in, among the owners visited. */
  method OwnerOf(owners: map<string, string>, path: string) returns (dir: string)
    requires !Unowned(owners, path)
    ensures Deepest(owners, path, dir)
  {
    dir :| dir in owners && Under(dir, path);
    var todo := owners.Keys;
    while todo != {}
      invariant todo <= owners.Keys && dir in owners && Under(dir, path)
      invariant forall d | d in owners && d !in todo && Under(d, path) :: |d| <= |dir|
      decreases |todo|
    {
      var d :| d in todo;
      if Under(d, path) && |d| > |dir| {
        dir := d;
      }
      todo := todo - {d};
    }
  }

  method RootsOf(owners: map<string, string>, paths: seq<string>) returns (accepted: bool, roots: set<string>)
    ensures accepted <==> forall i | 0 <= i < |paths| :: !Refused(owners, paths[i])
    ensures accepted ==> roots == Roots(owners, paths)
  {
    hide Refused, Deepest;
    roots := {};
    for i := 0 to |paths|
      invariant forall k | 0 <= k < i :: !Refused(owners, paths[k])
      invariant roots == Roots(owners, paths[..i])
    {
      if Refused(owners, paths[i]) {
        return false, {};
      }
      RefusedIfUnowned(owners, paths[i]);
      var dir := OwnerOf(owners, paths[i]);
      RootsSnoc(owners, paths[..i], paths[i], dir);
      assert paths[..i + 1] == paths[..i] + [paths[i]];
      roots := roots + {owners[dir]};
    }
    assert paths[..|paths|] == paths;
    accepted := true;
  }

  lemma RefusedIfUnowned(owners: map<string, string>, path: string)
    requires !Refused(owners, path)
    ensures !Unowned(owners, path)
  {
  }

  lemma RootsSnoc(owners: map<string, string>, paths: seq<string>, path: string, dir: string)
    requires Deepest(owners, path, dir) && dir in owners
    ensures Roots(owners, paths + [path]) == Roots(owners, paths) + {owners[dir]}
  {
    hide Deepest;
    var all := paths + [path];
    forall id | id in Roots(owners, all)
      ensures id in Roots(owners, paths) + {owners[dir]}
    {
      var d, p :| p in all && d in owners && Deepest(owners, p, d) && id == owners[d];
      if p == path {
        DeepestUnique(owners, path, d, dir);
      }
    }
    forall id | id in Roots(owners, paths)
      ensures id in Roots(owners, all)
    {
      var d, p :| p in paths && d in owners && Deepest(owners, p, d) && id == owners[d];
      assert p in all;
    }
    assert path in all;
  }

  // ----- the sorted names -----

  ghost predicate NonDecreasing(s: seq<string>) {
    forall i, j | 0 <= i < j < |s| :: !TextLess(s[j], s[i])
  }

  function Insert(x: string, s: seq<string>): seq<string> {
    if s != [] && TextLess(s[0], x) then [s[0]] + Insert(x, s[1..]) else [x] + s
  }

  lemma {:induction false} InsertCounts(x: string, s: seq<string>)
    ensures multiset(Insert(x, s)) == multiset(s) + multiset{x}
  {
    if s != [] && TextLess(s[0], x) {
      InsertCounts(x, s[1..]);
      assert s == [s[0]] + s[1..];
    }
  }

  lemma NotBelow(a: string, b: string, c: string)
    requires !TextLess(b, a) && !TextLess(c, b)
    ensures !TextLess(c, a)
  {
    TextTotal(a, b);
    TextTotal(b, c);
    if TextLess(c, a) {
      if TextLess(a, b) { TextTransitive(c, a, b); }
    }
  }

  lemma ConsNonDecreasing(x: string, s: seq<string>)
    requires NonDecreasing(s) && forall y | y in s :: !TextLess(y, x)
    ensures NonDecreasing([x] + s)
  {
    var t := [x] + s;
    forall i, j | 0 <= i < j < |t|
      ensures !TextLess(t[j], t[i])
    {
      assert t[j] == s[j - 1] && t[j] in s;
    }
  }

  lemma {:induction false} InsertSorts(x: string, s: seq<string>)
    requires NonDecreasing(s)
    ensures NonDecreasing(Insert(x, s))
  {
    if s == [] {
    } else if TextLess(s[0], x) {
      InsertSorts(x, s[1..]);
      InsertCounts(x, s[1..]);
      forall y | y in Insert(x, s[1..])
        ensures !TextLess(y, s[0])
      {
        assert y in multiset(Insert(x, s[1..]));
        if y == x { Asymmetric(s[0], x); }
      }
      ConsNonDecreasing(s[0], Insert(x, s[1..]));
    } else {
      forall y | y in s
        ensures !TextLess(y, x)
      {
        if y != s[0] { NotBelow(x, s[0], y); }
      }
      ConsNonDecreasing(x, s);
    }
  }

  lemma Asymmetric(a: string, b: string)
    requires TextLess(a, b)
    ensures !TextLess(b, a)
  {
    if TextLess(b, a) {
      TextTransitive(a, b, a);
      TextIrreflexive(a);
    }
  }

  function NamedAs(names: map<string, string>, s: set<string>, name: string): set<string> {
    set id | id in s && id in names && names[id] == name
  }

  /** The names of exactly these packages, each as often as it occurs, in order. */
  ghost predicate Lists(names: map<string, string>, s: set<string>, out: seq<string>) {
    NonDecreasing(out) && forall name: string :: multiset(out)[name] == |NamedAs(names, s, name)|
  }

  lemma HeadIsLeast(s: seq<string>, x: string)
    requires NonDecreasing(s) && x in s
    ensures !TextLess(x, s[0])
  {
    TextIrreflexive(s[0]);
  }

  lemma SameHead(a: seq<string>, b: seq<string>)
    requires NonDecreasing(a) && NonDecreasing(b) && multiset(a) == multiset(b) && a != []
    ensures b != [] && a[0] == b[0]
  {
    assert a[0] in multiset(b);
    assert b[0] in multiset(a);
    HeadIsLeast(a, b[0]);
    HeadIsLeast(b, a[0]);
    TextTotal(a[0], b[0]);
  }

  lemma {:induction false} SortedPermutation(a: seq<string>, b: seq<string>)
    requires NonDecreasing(a) && NonDecreasing(b) && multiset(a) == multiset(b)
    ensures a == b
  {
    hide TextLess;
    if a == [] {
      assert |multiset(b)| == 0;
    } else {
      SameHead(a, b);
      assert a == [a[0]] + a[1..] && b == [b[0]] + b[1..];
      assert multiset(a[1..]) == multiset(a) - multiset{a[0]} && multiset(b[1..]) == multiset(b) - multiset{b[0]};
      SortedPermutation(a[1..], b[1..]);
    }
  }

  /** The list does not depend on the order in which the packages were found. */
  lemma ListsUnique(names: map<string, string>, s: set<string>, a: seq<string>, b: seq<string>)
    requires Lists(names, s, a) && Lists(names, s, b)
    ensures a == b
  {
    forall name: string
      ensures multiset(a)[name] == multiset(b)[name]
    {
      assert multiset(a)[name] == |NamedAs(names, s, name)|;
    }
    assert multiset(a) == multiset(b);
    SortedPermutation(a, b);
  }

  lemma NamedGrows(names: map<string, string>, s: set<string>, id: string, name: string)
    requires id in names && id !in s
    ensures |NamedAs(names, s + {id}, name)| == |NamedAs(names, s, name)| + (if names[id] == name then 1 else 0)
  {
    assert NamedAs(names, s + {id}, name) == NamedAs(names, s, name) + (if names[id] == name then {id} else {});
  }

  lemma ListsInsert(names: map<string, string>, s: set<string>, out: seq<string>, id: string)
    requires Lists(names, s, out) && id in names && id !in s
    ensures Lists(names, s + {id}, Insert(names[id], out))
  {
    hide Insert, NamedAs, NonDecreasing;
    InsertSorts(names[id], out);
    InsertCounts(names[id], out);
    forall name: string
      ensures multiset(Insert(names[id], out))[name] == |NamedAs(names, s + {id}, name)|
    {
      NamedGrows(names, s, id, name);
      assert multiset(out)[name] == |NamedAs(names, s, name)|;
    }
  }

  method SortedNames(names: map<string, string>, s: set<string>) returns (out: seq<string>)
    requires s <= names.Keys
    ensures Lists(names, s, out)
  {
    hide Lists;
    out := [];
    NoneListed(names);
    var todo := s;
    ghost var done: set<string> := {};
    while todo != {}
      invariant done + todo == s && done * todo == {} && Lists(names, done, out)
      decreases |todo|
    {
      var id :| id in todo;
      ListsInsert(names, done, out, id);
      out := Insert(names[id], out);
      done := done + {id};
      todo := todo - {id};
    }
    assert done == s;
  }

  lemma NoneListed(names: map<string, string>)
    ensures Lists(names, {}, [])
  {
  }

  // ----- the selection -----

  /** Either some path may reach beyond one crate and the whole workspace is selected, or the
      selection is the names of exactly the closure of the paths' deepest owners. */
  ghost predicate Selects(packages: seq<Package>, paths: seq<string>, r: Selection) {
    match r
    case Workspace => exists i | 0 <= i < |paths| :: Refused(Owners(packages), paths[i])
    case Packages(names) =>
      && (forall i | 0 <= i < |paths| :: !Refused(Owners(packages), paths[i]))
      && exists affected: set<string> :: SelectsClosure(packages, paths, affected, names)
  }

  ghost predicate SelectsClosure(packages: seq<Package>, paths: seq<string>, affected: set<string>, names: seq<string>) {
    IsClosure(affected, Roots(Owners(packages), paths), Reverse(packages)) && Lists(Names(packages), affected, names)
  }

  /** There is only one right selection, whatever order sets are visited in. */
  lemma SelectionUnique(packages: seq<Package>, paths: seq<string>, r: Selection, q: Selection)
    requires Selects(packages, paths, r) && Selects(packages, paths, q)
    ensures r == q
  {
    hide Refused, Lists, IsClosure, Roots, Reverse;
    if r.Packages? && q.Packages? {
      var s :| SelectsClosure(packages, paths, s, r.names);
      var t :| SelectsClosure(packages, paths, t, q.names);
      ClosureUnique(s, t, Roots(Owners(packages), paths), Reverse(packages));
      ListsUnique(Names(packages), s, r.names, q.names);
    }
  }

  method Select(m: Metadata, paths: seq<string>) returns (r: Selection)
    ensures Selects(Members(m), paths, r)
  {
    hide Refused, Lists, IsClosure, Roots;
    var packages := Members(m);
    var owners := OwnersOf(packages);
    var names := NamesOf(packages);
    var graph := ReverseOf(packages, owners, names);
    var accepted, roots := RootsOf(owners, paths);
    if !accepted {
      return Workspace;
    }
    GraphIsConnected(packages, paths);
    var affected := Worklist(graph, roots);
    ClosureIsNamed(affected, roots, graph);
    var listed := SortedNames(names, affected);
    assert SelectsClosure(packages, paths, affected, listed);
    r := Packages(listed);
  }

  lemma GraphIsConnected(packages: seq<Package>, paths: seq<string>)
    ensures Connected(Reverse(packages)) && Roots(Owners(packages), paths) <= Reverse(packages).Keys
  {
    IdsAreNamed(packages);
  }

  lemma ClosureIsNamed(s: set<string>, roots: set<string>, graph: Graph)
    requires IsClosure(s, roots, graph) && Connected(graph) && roots <= graph.Keys
    ensures s <= graph.Keys
  {
    assert Closed(graph.Keys, graph);
  }

  // ----- what the metadata and the path rules come down to -----

  /** Exactly the packages listed as members are considered, in their order. */
  lemma {:induction false} MembersWhen(packages: seq<Package>, p: Package, members: set<string>)
    ensures Filtered(packages + [p], members) == Filtered(packages, members) + (if p.id in members then [p] else [])
  {
    if packages == [] {
      assert [] + [p] == [p] && [p][1..] == [];
    } else {
      assert (packages + [p])[1..] == packages[1..] + [p];
      MembersWhen(packages[1..], p, members);
    }
  }

  /** The `i`th package is the last one in its directory. */
  predicate LastIn(packages: seq<Package>, i: nat, dir: string) {
    i < |packages| && packages[i].dir == dir && forall j | i < j < |packages| :: packages[j].dir != dir
  }

  predicate LastCalled(packages: seq<Package>, i: nat, id: string) {
    i < |packages| && packages[i].id == id && forall j | i < j < |packages| :: packages[j].id != id
  }

  /** A directory belongs to the last package in it, and a package has the last name given to its id. */
  lemma {:induction false} OwnersWhen(packages: seq<Package>)
    ensures forall d :: d in Owners(packages) <==> exists p | p in packages :: p.dir == d
    ensures forall i: nat, d | LastIn(packages, i, d) :: d in Owners(packages) && Owners(packages)[d] == packages[i].id
    ensures forall id :: id in Names(packages) <==> exists p | p in packages :: p.id == id
    ensures forall i: nat, id | LastCalled(packages, i, id) ::
      id in Names(packages) && Names(packages)[id] == packages[i].name
  {
    if packages != [] {
      var n := |packages| - 1;
      var front, last := packages[..n], packages[n];
      assert packages == front + [last];
      OwnersWhen(front);
      forall i: nat, d | LastIn(packages, i, d)
        ensures d in Owners(packages) && Owners(packages)[d] == packages[i].id
      {
        if i < n { assert packages[n].dir != d && LastIn(front, i, d); }
      }
      forall i: nat, id | LastCalled(packages, i, id)
        ensures id in Names(packages) && Names(packages)[id] == packages[i].name
      {
        if i < n { assert packages[n].id != id && LastCalled(front, i, id); }
      }
    }
  }

  /** One of a package's path dependencies is a directory that belongs to `id`. */
  predicate LinksTo(p: Package, owners: map<string, string>, id: string) {
    exists k | 0 <= k < |p.deps| :: p.deps[k] in owners && owners[p.deps[k]] == id
  }

  /** A package is listed under another exactly when it names that one's directory as a dependency. */
  lemma ReverseWhen(packages: seq<Package>, id: string, dependent: string)
    ensures Reverse(packages).Keys == Names(packages).Keys
    ensures id in Names(packages) ==>
      (dependent in Reverse(packages)[id] <==>
       id != "" && exists i | 0 <= i < |packages| ::
         packages[i].id == dependent && LinksTo(packages[i], Owners(packages), id))
  {
    var owners := Owners(packages);
    forall p | p in packages
      ensures DependsOn(p, owners, id) <==> id != "" && LinksTo(p, owners, id)
    {
    }
    if id in Names(packages) && dependent in Reverse(packages)[id] {
      var p :| p in packages && DependsOn(p, owners, id) && p.id == dependent;
      var i :| 0 <= i < |packages| && packages[i] == p;
      assert LinksTo(packages[i], owners, id);
    }
  }

  /** The letter of a word, in either case. */
  predicate SameLetter(c: char, lower: char) {
    c == lower || (c in UPPERS && c as int + 32 == lower as int)
  }

  /** The word stands at this place, in any mixture of cases. */
  predicate WordAt(part: string, word: string, i: nat) {
    i + |word| <= |part| && forall k | 0 <= k < |word| :: SameLetter(part[i + k], word[k])
  }

  ghost predicate HasWord(part: string, word: string) {
    exists i: nat :: WordAt(part, word, i)
  }

  lemma LowerWord(part: string, word: string, i: nat)
    requires forall k | 0 <= k < |word| :: IsLower(word[k])
    ensures OccursAt(Lower(part), word, i) <==> WordAt(part, word, i)
  {
    if i + |word| <= |part| {
      forall k | 0 <= k < |word|
        ensures Lower(part)[i + k] == word[k] <==> SameLetter(part[i + k], word[k])
      {
        UpperIs(part[i + k]);
      }
      var found := Lower(part)[i..i + |word|];
      assert forall k | 0 <= k < |word| :: found[k] == Lower(part)[i + k];
      if WordAt(part, word, i) {
        assert found == word;
      }
    }
  }

  lemma ContainsWord(part: string, word: string)
    requires forall k | 0 <= k < |word| :: IsLower(word[k])
    ensures Contains(Lower(part), word) <==> HasWord(part, word)
  {
    hide OccursAt, WordAt;
    ContainsIs(Lower(part), word);
    forall i: nat
      ensures OccursAt(Lower(part), word, i) <==> WordAt(part, word, i)
    {
      LowerWord(part, word, i);
    }
  }

  /** Which components of a path may reach beyond one crate. */
  lemma SuspiciousWhen(part: string)
    ensures Suspicious(part) <==>
      || part in {"Cargo.toml", "Cargo.lock", "build.rs", "tests", "test", "fixtures", "helpers", "test_helpers",
                  ".cargo", ".config", ".."}
      || HasWord(part, "test") || HasWord(part, "fixture") || HasWord(part, "helper") || HasWord(part, "config")
  {
    hide Contains, HasWord;
    ContainsWord(part, "test");
    ContainsWord(part, "fixture");
    ContainsWord(part, "helper");
    ContainsWord(part, "config");
  }

  /** The path lies somewhere below the directory, which is not the workspace root. */
  predicate Below(path: string, dir: string) {
    dir != "." && |dir| < |path| && path[..|dir|] == dir && path[|dir|] == '/'
  }

  lemma UnderIs(dir: string, path: string)
    ensures Under(dir, path) <==> Below(path, dir)
  {
    if |dir| < |path| {
      assert path[..|dir| + 1] == path[..|dir|] + [path[|dir|]];
      assert dir + "/" <= path <==> path[..|dir| + 1] == dir + "/";
      if path[..|dir| + 1] == dir + "/" {
        assert path[..|dir|] == (dir + "/")[..|dir|] && path[|dir|] == (dir + "/")[|dir|];
      }
    }
  }

  ghost predicate NoneSuspicious(parts: seq<string>) {
    forall i | 0 <= i < |parts| :: !Suspicious(parts[i])
  }

  lemma SomePart(parts: seq<string>)
    ensures NoneSuspicious(parts) <==> !exists part | part in parts :: Suspicious(part)
  {
    hide Suspicious;
    if NoneSuspicious(parts) {
      forall part | part in parts
        ensures !Suspicious(part)
      {
        var i :| 0 <= i < |parts| && parts[i] == part;
      }
    }
  }

  /** Some package directory lies above the path. */
  predicate HasOwner(owners: map<string, string>, path: string) {
    exists d | d in owners :: Below(path, d)
  }

  lemma SomeOwner(owners: map<string, string>, path: string)
    ensures !Unowned(owners, path) <==> HasOwner(owners, path)
  {
    hide Under, Below;
    forall d
      ensures Under(d, path) <==> Below(path, d)
    {
      UnderIs(d, path);
    }
  }

  /** A Rust file within a `src` directory. */
  ghost predicate InSource(path: string) {
    && |path| >= 3 && OccursAt(path, ".rs", |path| - 3)
    && exists i: nat :: OccursAt("/" + path, "/src/", i)
  }

  lemma SourceIs(path: string)
    ensures IsCrateSource(path) <==> InSource(path)
  {
    hide Contains;
    ContainsIs("/" + path, "/src/");
    if |path| >= 3 {
      assert path[|path| - 3..] == path[|path| - 3..|path| - 3 + 3];
    }
  }

  /** A path is accepted exactly when it is relative, no component of it is suspicious, some package
      directory lies above it, and it is a Rust source file within a `src` directory. */
  lemma RefusedWhen(owners: map<string, string>, path: string)
    ensures !Refused(owners, path) <==>
      && path != "" && path[0] != '/' && NoneSuspicious(Split(path, '/')) && HasOwner(owners, path) && InSource(path)
  {
    hide Suspicious, HasOwner, InSource, NoneSuspicious, Unowned, IsCrateSource;
    SomePart(Split(path, '/'));
    SomeOwner(owners, path);
    SourceIs(path);
  }

  /** A package directory owns a path when it lies above it and every other one above the path lies
      above that directory too. */
  lemma DeepestWhen(owners: map<string, string>, path: string, dir: string)
    ensures Deepest(owners, path, dir) <==>
      && dir in owners && Below(path, dir) && forall d | d in owners && d != dir && Below(path, d) :: Below(dir, d)
  {
    hide Under;
    forall d
      ensures Under(d, path) <==> Below(path, d)
    {
      UnderIs(d, path);
    }
    if dir in owners && Below(path, dir) {
      forall d | d in owners && d != dir && Below(path, d)
        ensures Below(dir, d) <==> |d| <= |dir|
      {
        BothAbove(path, d, dir);
      }
    }
  }

  lemma BothAbove(path: string, d: string, e: string)
    requires Below(path, d) && Below(path, e) && d != e
    ensures Below(e, d) <==> |d| <= |e|
  {
    if |d| <= |e| {
      assert e[..|d|] == path[..|e|][..|d|] == path[..|d|];
    }
  }

  /** A chain of packages, each depending directly on the one before, from a root to `id`. */
  predicate Chain(chain: seq<string>, roots: set<string>, graph: Graph, id: string) {
    && chain != [] && chain[0] in roots && chain[|chain| - 1] == id
    && forall i | 0 <= i && i + 1 < |chain| :: chain[i] in graph && chain[i + 1] in graph[chain[i]]
  }

  ghost predicate Depends(roots: set<string>, graph: Graph, id: string) {
    exists chain :: Chain(chain, roots, graph, id)
  }

  lemma DependsGrows(roots: set<string>, graph: Graph, id: string, dependent: string)
    requires Depends(roots, graph, id) && id in graph && dependent in graph[id]
    ensures Depends(roots, graph, dependent)
  {
    var chain :| Chain(chain, roots, graph, id);
    assert Chain(chain + [dependent], roots, graph, dependent);
  }

  lemma {:induction false} ChainStays(chain: seq<string>, roots: set<string>, graph: Graph, id: string, s: set<string>)
    requires Chain(chain, roots, graph, id) && roots <= s && Closed(s, graph)
    ensures id in s
    decreases |chain|
  {
    if |chain| > 1 {
      var n := |chain| - 1;
      ChainStays(chain[..n], roots, graph, chain[n - 1], s);
    }
  }

  /** Affected is exactly what depends, through any number of packages, on a package that owns a
      changed path. */
  lemma ClosureDepends(s: set<string>, roots: set<string>, graph: Graph, id: string)
    requires IsClosure(s, roots, graph)
    ensures id in s <==> Depends(roots, graph, id)
  {
    var reached := set x | x in s && Depends(roots, graph, x);
    forall x | x in roots
      ensures x in reached
    {
      assert Chain([x], roots, graph, x);
    }
    forall x | x in reached && x in graph
      ensures graph[x] <= reached
    {
      forall y | y in graph[x]
        ensures y in reached
      {
        DependsGrows(roots, graph, x, y);
      }
    }
    assert Closed(reached, graph);
    if Depends(roots, graph, id) {
      var chain :| Chain(chain, roots, graph, id);
      ChainStays(chain, roots, graph, id, s);
    }
  }
}
