/** The AST checker's function check (pycheckdoc_v2/check_function.py). */
module AstFunctionCheck {
  import opened PyAst
  import opened Events

  /** The functions check_function_doc examines: direct `FunctionDef` children of the module body. */
  function FunctionNodes(moduleNode: Tree): (r: seq<Stmt>)
    ensures forall s :: s in r ==> s.FunctionDef?
  {
    NodesOfType(moduleNode.body, FunctionDefType)
  }

  /** One function report per undocumented node, in order, carrying the node's line. */
  function FunctionReports(modulePath: string, nodes: seq<Stmt>): seq<Report> {
    if nodes == [] then []
    else
      var last := nodes[|nodes| - 1];
      FunctionReports(modulePath, nodes[..|nodes| - 1])
      + (if MissingDoc(last) then [FunctionErr(modulePath, last.name, last.lineno)] else [])
  }

  /**
   * check_function_doc: walks the selected function nodes in source order,
   * counting those whose docstring is missing and, when `printMsgs` holds,
   * reporting each of them.
   */
  method CheckFunctionDoc(modulePath: string, moduleNode: Tree, printMsgs: bool)
    returns (noDocNum: nat, reports: seq<Report>)
    ensures noDocNum == MissingCount(FunctionNodes(moduleNode))
    ensures noDocNum <= |FunctionNodes(moduleNode)|
    ensures reports == if printMsgs then FunctionReports(modulePath, FunctionNodes(moduleNode)) else []
  {
    var functionNodes := FunctionNodes(moduleNode);
    noDocNum, reports := 0, [];
    for i := 0 to |functionNodes|
      invariant noDocNum == MissingCount(functionNodes[..i])
      invariant reports == if printMsgs then FunctionReports(modulePath, functionNodes[..i]) else []
    {
      var funcNode := functionNodes[i];
      FunctionStep(modulePath, moduleNode, i);
      if !Documented(funcNode.body) {
        if printMsgs {
          reports := reports + [FunctionErr(modulePath, funcNode.name, funcNode.lineno)];
        }
        noDocNum := noDocNum + 1;
      }
    }
    assert functionNodes[..|functionNodes|] == functionNodes;
  }

  /** One more selected node: it is a `FunctionDef`, and its count and report follow those of the nodes before it. */
  lemma FunctionStep(modulePath: string, moduleNode: Tree, i: nat)
    requires i < |FunctionNodes(moduleNode)|
    ensures var nodes := FunctionNodes(moduleNode);
      nodes[i].FunctionDef?
      && MissingCount(nodes[..i + 1]) == MissingCount(nodes[..i]) + (if Documented(nodes[i].body) then 0 else 1)
      && FunctionReports(modulePath, nodes[..i + 1])
         == FunctionReports(modulePath, nodes[..i])
            + (if Documented(nodes[i].body) then [] else [FunctionErr(modulePath, nodes[i].name, nodes[i].lineno)])
  {
    var nodes := FunctionNodes(moduleNode);
    assert nodes[i] in nodes;
    var done := nodes[..i + 1];
    assert done[..i] == nodes[..i] && done[i] == nodes[i];
  }

  /** Exactly one report per counted function. */
  lemma {:induction false} ReportPerMissingFunction(modulePath: string, nodes: seq<Stmt>)
    ensures |FunctionReports(modulePath, nodes)| == MissingCount(nodes)
    ensures forall r :: r in FunctionReports(modulePath, nodes) ==> r.FunctionErr? && r.moduleName == modulePath
  {
    if nodes != [] {
      ReportPerMissingFunction(modulePath, nodes[..|nodes| - 1]);
    }
  }

  /**
   * Only direct `FunctionDef` children count: an async def, a class (with its
   * methods) or a block with functions nested in it can be added anywhere in
   * the module body without changing the count or the reports.
   */
  lemma OnlyTopLevelFunctionDefs(a: seq<Stmt>, s: Stmt, b: seq<Stmt>, modulePath: string)
    requires !s.FunctionDef?
    ensures MissingCount(FunctionNodes(Module(a + [s] + b))) == MissingCount(FunctionNodes(Module(a + b)))
    ensures FunctionReports(modulePath, FunctionNodes(Module(a + [s] + b)))
         == FunctionReports(modulePath, FunctionNodes(Module(a + b)))
  {
    NodesOfTypeSkips(a, s, b, FunctionDefType);
  }

  /** No function is counted exactly when every top-level `FunctionDef` has a docstring. */
  lemma NoMissingFunctionIff(moduleNode: Tree)
    ensures MissingCount(FunctionNodes(moduleNode)) == 0
        <==> forall s :: s in moduleNode.body && s.FunctionDef? ==> Documented(s.body)
  {
    MissingCountZero(FunctionNodes(moduleNode));
  }
}
