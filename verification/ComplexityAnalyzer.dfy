/** The complexity analyzer: a visitor that walks a syntax tree with running counters,
    saving and restoring them around each function definition. */
module ComplexityAnalyzer {
  import opened Basics
  import opened Wrappers

  datatype Arguments = Arguments(positional: nat, keywordOnly: nat, vararg: bool, kwarg: bool)

  datatype Kind = If | For | While | ExceptHandler | With | Try | TryStar | Plain {
    predicate IsDecision() {
      If? || For? || While? || ExceptHandler?
    }

    predicate IsNested() {
      !Plain?
    }
  }

  /** A function definition (plain or async), of which the visitor looks at the body
      only, or any other node with its children in visiting order. */
  datatype Node =
    | FunctionDef(name: string, arguments: Arguments, line: int, endLine: Option<int>, body: seq<Node>)
    | Tree(kind: Kind, children: seq<Node>)

  datatype Metrics = Metrics(filename: string, name: string, lines: int, complexity: int, depth: int, args: int)

  // ---- specification ----

  /** Decision nodes in the tree, not counting those inside a function definition. */
  function Decisions(n: Node): nat {
    match n
    case FunctionDef(_, _, _, _, _) => 0
    case Tree(kind, children) => (if kind.IsDecision() then 1 else 0) + DecisionsAll(children)
  }

  function DecisionsAll(ns: seq<Node>): nat {
    if ns == [] then 0 else DecisionsAll(ns[..|ns| - 1]) + Decisions(ns[|ns| - 1])
  }

  /** The deepest nesting of blocks, not looking inside function definitions. */
  function Depth(n: Node): nat {
    match n
    case FunctionDef(_, _, _, _, _) => 0
    case Tree(kind, children) => (if kind.IsNested() then 1 else 0) + DepthAll(children)
  }

  function DepthAll(ns: seq<Node>): nat {
    if ns == [] then 0 else Max(DepthAll(ns[..|ns| - 1]), Depth(ns[|ns| - 1]))
  }

  function ArgumentCount(a: Arguments): nat {
    a.positional + a.keywordOnly + (if a.vararg then 1 else 0) + (if a.kwarg then 1 else 0)
  }

  function LineCount(line: int, endLine: Option<int>): int {
    match endLine
    case None => 0
    case Some(end) => if end != 0 then end - line else 0
  }

  function MetricsOf(f: Node, filename: string): Metrics
    requires f.FunctionDef?
  {
    Metrics(filename, f.name, LineCount(f.line, f.endLine), 1 + DecisionsAll(f.body), DepthAll(f.body),
            ArgumentCount(f.arguments))
  }

  /** One record per function definition, nested ones before the one around them. */
  function Records(n: Node, filename: string): seq<Metrics> {
    match n
    case FunctionDef(_, _, _, _, body) => RecordsAll(body, filename) + [MetricsOf(n, filename)]
    case Tree(_, children) => RecordsAll(children, filename)
  }

  function RecordsAll(ns: seq<Node>, filename: string): seq<Metrics> {
    if ns == [] then [] else RecordsAll(ns[..|ns| - 1], filename) + Records(ns[|ns| - 1], filename)
  }

  // ---- the visitor ----

  class Analyzer {
    const filename: string
    var functions: seq<Metrics>
    var currentFunction: Option<string>
    var currentComplexity: int
    var currentDepth: int
    var maxDepth: int
    var currentArgs: int

    constructor (filename: string)
      ensures this.filename == filename && functions == []
      ensures currentDepth == maxDepth == 0
    {
      this.filename := filename;
      functions := [];
      currentFunction := None;
      currentComplexity := 0;
      currentDepth := 0;
      maxDepth := 0;
      currentArgs := 0;
    }

    method Visit(n: Node)
      requires maxDepth >= currentDepth
      modifies this
      ensures functions == old(functions) + Records(n, filename)
      ensures currentComplexity == old(currentComplexity) + Decisions(n)
      ensures maxDepth == Max(old(maxDepth), old(currentDepth) + Depth(n))
      ensures currentDepth == old(currentDepth)
      ensures currentFunction == old(currentFunction) && currentArgs == old(currentArgs)
      decreases n, 3
    {
      match n
      case FunctionDef(_, _, _, _, _) => AnalyzeFunction(n);
      case Tree(kind, children) =>
        if kind.IsDecision() {
          currentComplexity := currentComplexity + 1;
        }
        if kind.IsNested() {
          VisitNested(n);
        } else {
          GenericVisit(n);
        }
    }

    method VisitNested(n: Node)
      requires n.Tree? && maxDepth >= currentDepth
      modifies this
      ensures functions == old(functions) + RecordsAll(n.children, filename)
      ensures currentComplexity == old(currentComplexity) + DecisionsAll(n.children)
      ensures maxDepth == Max(old(maxDepth), old(currentDepth) + 1 + DepthAll(n.children))
      ensures currentDepth == old(currentDepth)
      ensures currentFunction == old(currentFunction) && currentArgs == old(currentArgs)
      decreases n, 2
    {
      currentDepth := currentDepth + 1;
      maxDepth := Max(maxDepth, currentDepth);
      GenericVisit(n);
      currentDepth := currentDepth - 1;
    }

    method GenericVisit(n: Node)
      requires n.Tree? && maxDepth >= currentDepth
      modifies this
      ensures functions == old(functions) + RecordsAll(n.children, filename)
      ensures currentComplexity == old(currentComplexity) + DecisionsAll(n.children)
      ensures maxDepth == Max(old(maxDepth), old(currentDepth) + DepthAll(n.children))
      ensures currentDepth == old(currentDepth)
      ensures currentFunction == old(currentFunction) && currentArgs == old(currentArgs)
      decreases n, 1
    {
      var children := n.children;
      for i := 0 to |children|
        invariant functions == old(functions) + RecordsAll(children[..i], filename)
        invariant currentComplexity == old(currentComplexity) + DecisionsAll(children[..i])
        invariant maxDepth == Max(old(maxDepth), old(currentDepth) + DepthAll(children[..i]))
        invariant currentDepth == old(currentDepth)
        invariant currentFunction == old(currentFunction) && currentArgs == old(currentArgs)
      {
        assert children[..i + 1][..i] == children[..i];
        Visit(children[i]);
      }
      assert children[..|children|] == children;
    }

    method CountArguments(arguments: Arguments)
      modifies this`currentArgs
      ensures currentArgs == ArgumentCount(arguments)
    {
      currentArgs := arguments.positional + arguments.keywordOnly;
      if arguments.vararg {
        currentArgs := currentArgs + 1;
      }
      if arguments.kwarg {
        currentArgs := currentArgs + 1;
      }
    }

    /** All five running values come back as they were; only the record is left behind. */
    method AnalyzeFunction(f: Node)
      requires f.FunctionDef? && maxDepth >= currentDepth
      modifies this
      ensures functions == old(functions) + RecordsAll(f.body, filename) + [MetricsOf(f, filename)]
      ensures currentFunction == old(currentFunction)
      ensures currentComplexity == old(currentComplexity)
      ensures currentDepth == old(currentDepth)
      ensures maxDepth == old(maxDepth)
      ensures currentArgs == old(currentArgs)
      decreases f, 1
    {
      var oldFunction := currentFunction;
      var oldComplexity := currentComplexity;
      var oldDepth := currentDepth;
      var oldMaxDepth := maxDepth;
      var oldArgs := currentArgs;

      currentFunction := Some(f.name);
      currentComplexity := 1;
      currentDepth := 0;
      maxDepth := 0;
      CountArguments(f.arguments);
      var lines := 0;
      if f.endLine.Some? && f.endLine.value != 0 {
        lines := f.endLine.value - f.line;
      }

      var body := f.body;
      for i := 0 to |body|
        invariant functions == old(functions) + RecordsAll(body[..i], filename)
        invariant currentComplexity == 1 + DecisionsAll(body[..i])
        invariant maxDepth == DepthAll(body[..i]) && currentDepth == 0
        invariant currentFunction == Some(f.name) && currentArgs == ArgumentCount(f.arguments)
      {
        assert body[..i + 1][..i] == body[..i];
        Visit(body[i]);
      }
      assert body[..|body|] == body;

      functions := functions + [Metrics(filename, currentFunction.value, lines, currentComplexity, maxDepth,
                                        currentArgs)];
      currentFunction := oldFunction;
      currentComplexity := oldComplexity;
      currentDepth := oldDepth;
      maxDepth := oldMaxDepth;
      currentArgs := oldArgs;
    }
  }

  /** Analyzing a whole file. */
  method AnalyzeFile(filename: string, tree: Node) returns (metrics: seq<Metrics>)
    ensures metrics == Records(tree, filename)
  {
    var analyzer := new Analyzer(filename);
    analyzer.Visit(tree);
    metrics := analyzer.functions;
  }

  // ---- what the specification means, place by place ----

  type Path = seq<nat>

  /** The node a path of child indices leads to, without entering a function definition. */
  ghost predicate Leads(n: Node, path: Path) {
    path == [] || (n.Tree? && path[0] < |n.children| && Leads(n.children[path[0]], path[1..]))
  }

  ghost function At(n: Node, path: Path): Node
    requires Leads(n, path)
  {
    if path == [] then n else At(n.children[path[0]], path[1..])
  }

  /** Nested blocks (branches, loops, handlers, context managers and guarded blocks) met
      along the path, its end included. */
  ghost function Nesting(n: Node, path: Path): nat
    requires Leads(n, path)
  {
    (if n.Tree? && n.kind in {If, For, While, ExceptHandler, With, Try, TryStar} then 1 else 0)
    + (if path == [] then 0 else Nesting(n.children[path[0]], path[1..]))
  }

  lemma {:induction false} DepthAllBounds(ns: seq<Node>)
    ensures forall i :: 0 <= i < |ns| ==> Depth(ns[i]) <= DepthAll(ns)
    ensures ns != [] ==> exists i :: 0 <= i < |ns| && Depth(ns[i]) == DepthAll(ns)
  {
    if ns != [] {
      var k := |ns| - 1;
      DepthAllBounds(ns[..k]);
      if DepthAll(ns) == Depth(ns[k]) {
      } else {
        assert ns[..k] != [];
        var i :| 0 <= i < |ns[..k]| && Depth(ns[..k][i]) == DepthAll(ns[..k]);
        assert ns[..k][i] == ns[i];
      }
    }
  }

  lemma {:induction false} NoPathIsDeeper(n: Node, path: Path)
    requires Leads(n, path)
    ensures Nesting(n, path) <= Depth(n)
    decreases path
  {
    if path != [] {
      NoPathIsDeeper(n.children[path[0]], path[1..]);
      DepthAllBounds(n.children);
    }
  }

  lemma {:induction false} SomePathIsThatDeep(n: Node) returns (path: Path)
    ensures Leads(n, path) && Nesting(n, path) == Depth(n)
  {
    path := [];
    if n.Tree? && n.children != [] {
      DepthAllBounds(n.children);
      var i :| 0 <= i < |n.children| && Depth(n.children[i]) == DepthAll(n.children);
      var rest := SomePathIsThatDeep(n.children[i]);
      path := [i] + rest;
      assert path[1..] == rest;
    }
  }

  /** The depth of a node is the greatest nesting along any path from it. */
  lemma DepthIsGreatestNesting(n: Node)
    ensures forall path: Path | Leads(n, path) :: Nesting(n, path) <= Depth(n)
    ensures exists path: Path :: Leads(n, path) && Nesting(n, path) == Depth(n)
  {
    forall path: Path | Leads(n, path)
      ensures Nesting(n, path) <= Depth(n)
    {
      NoPathIsDeeper(n, path);
    }
    var path := SomePathIsThatDeep(n);
  }

  /** A branch, a loop or an exception handler. */
  ghost predicate IsDecisionSite(n: Node, path: Path) {
    Leads(n, path) && At(n, path).Tree? && At(n, path).kind in {If, For, While, ExceptHandler}
  }

  ghost function Below(i: nat, paths: set<Path>): set<Path> {
    set p | p in paths :: [i] + p
  }

  lemma {:induction false} BelowSize(i: nat, paths: set<Path>)
    ensures |Below(i, paths)| == |paths|
  {
    if paths != {} {
      var p :| p in paths;
      BelowSize(i, paths - {p});
      assert Below(i, paths) == Below(i, paths - {p}) + {[i] + p};
      forall q: Path
        ensures ([i] + q)[1..] == q
      {
      }
      assert forall q: Path :: q in paths - {p} ==> ([i] + q)[1..] != ([i] + p)[1..];
    }
  }

  lemma BelowMembers(i: nat, paths: set<Path>)
    ensures forall p: Path :: p in Below(i, paths) <==> p != [] && p[0] == i && p[1..] in paths
  {
    forall p: Path
      ensures p in Below(i, paths) <==> p != [] && p[0] == i && p[1..] in paths
    {
      if p != [] && p[0] == i && p[1..] in paths {
        assert p == [i] + p[1..];
      }
      if p in Below(i, paths) {
        var q :| q in paths && p == [i] + q;
        assert p[1..] == q;
      }
    }
  }

  ghost predicate AreSites(n: Node, sites: set<Path>) {
    forall p: Path :: p in sites <==> IsDecisionSite(n, p)
  }

  /** The decision sites below the first `k` children. */
  ghost predicate AreSitesBelow(ns: seq<Node>, k: nat, sites: set<Path>)
    requires k <= |ns|
  {
    forall p: Path :: p in sites <==> p != [] && p[0] < k && IsDecisionSite(ns[p[0]], p[1..])
  }

  lemma {:induction false} SitesBelow(ns: seq<Node>, k: nat) returns (sites: set<Path>)
    requires k <= |ns|
    ensures AreSitesBelow(ns, k, sites) && |sites| == DecisionsAll(ns[..k])
    decreases ns, k
  {
    if k == 0 {
      sites := {};
    } else {
      assert ns[..k][..k - 1] == ns[..k - 1];
      var before := SitesBelow(ns, k - 1);
      var own := DecisionSites(ns[k - 1]);
      var below := Below(k - 1, own);
      BelowSize(k - 1, own);
      BelowMembers(k - 1, own);
      sites := before + below;
      assert before !! below;
    }
  }

  /** The decision count is the number of places, reachable without entering a nested
      function, that hold a decision node. */
  lemma DecisionSites(n: Node) returns (sites: set<Path>)
    ensures AreSites(n, sites) && |sites| == Decisions(n)
    decreases n
  {
    if n.FunctionDef? {
      sites := {};
    } else {
      var below := SitesBelow(n.children, |n.children|);
      assert n.children[..|n.children|] == n.children;
      assert [] !in below;
      sites := if n.kind.IsDecision() then below + {[]} else below;
      assert n.kind.IsDecision() <==> n.kind in {If, For, While, ExceptHandler};
      forall p: Path
        ensures p in sites <==> IsDecisionSite(n, p)
      {
        if p != [] {
          assert p in sites <==> p in below;
          assert Leads(n, p) <==> p[0] < |n.children| && Leads(n.children[p[0]], p[1..]);
        }
      }
    }
  }

  // ---- the records ----

  /** The function definitions of a tree, nested ones included, in post-order. */
  ghost function Functions(n: Node): (fs: seq<Node>)
    ensures forall f :: f in fs ==> f.FunctionDef?
  {
    match n
    case FunctionDef(_, _, _, _, body) => FunctionsAll(body) + [n]
    case Tree(_, children) => FunctionsAll(children)
  }

  ghost function FunctionsAll(ns: seq<Node>): (fs: seq<Node>)
    ensures forall f :: f in fs ==> f.FunctionDef?
  {
    if ns == [] then [] else FunctionsAll(ns[..|ns| - 1]) + Functions(ns[|ns| - 1])
  }

  /** What a function's record says of it: its length, or nothing where the end is not
      known; one more than its decisions, the nesting of its blocks, all its arguments but
      the positional-only ones. */
  ghost predicate Describes(m: Metrics, f: Node, filename: string)
    requires f.FunctionDef?
  {
    && m.filename == filename && m.name == f.name
    && m.lines == (if f.endLine.GetOr(0) == 0 then 0 else f.endLine.value - f.line)
    && m.complexity == 1 + DecisionsAll(f.body) && m.depth == DepthAll(f.body)
    && m.args - f.arguments.positional - f.arguments.keywordOnly
       == (match (f.arguments.vararg, f.arguments.kwarg)
           case (true, true) => 2
           case (false, false) => 0
           case _ => 1)
  }

  /** There is exactly one record per function definition, in post-order. */
  lemma RecordsFollowFunctions(n: Node, filename: string)
    ensures |Records(n, filename)| == |Functions(n)|
    ensures forall i :: 0 <= i < |Functions(n)| ==> Describes(Records(n, filename)[i], Functions(n)[i], filename)
    decreases n
  {
    RecordsAllFollow(if n.FunctionDef? then n.body else n.children, filename);
  }

  lemma {:induction false} RecordsAllFollow(ns: seq<Node>, filename: string)
    ensures |RecordsAll(ns, filename)| == |FunctionsAll(ns)|
    ensures forall i :: 0 <= i < |FunctionsAll(ns)| ==>
      Describes(RecordsAll(ns, filename)[i], FunctionsAll(ns)[i], filename)
    decreases ns
  {
    if ns != [] {
      RecordsAllFollow(ns[..|ns| - 1], filename);
      RecordsFollowFunctions(ns[|ns| - 1], filename);
    }
  }
}
