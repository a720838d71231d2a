/** The AST checker's class and method checks (pycheckdoc_v2/check_class.py). */
module AstClassCheck {
  import opened PyAst
  import opened Events

  /** The classes check_class_doc examines: direct `ClassDef` children of the module body. */
  function ClassNodes(moduleNode: Tree): (r: seq<Stmt>)
    ensures forall c :: c in r ==> c.ClassDef?
  {
    NodesOfType(moduleNode.body, ClassDefType)
  }

  /** The methods check_method_doc examines: direct `FunctionDef` children of the class body. */
  function MethodNodes(classNode: Stmt): (r: seq<Stmt>)
    requires classNode.ClassDef?
    ensures forall s :: s in r ==> s.FunctionDef?
  {
    NodesOfType(classNode.body, FunctionDefType)
  }

  /** One method report per undocumented method node, in order. */
  function MethodReports(moduleName: string, className: string, nodes: seq<Stmt>): seq<Report> {
    if nodes == [] then []
    else
      var last := nodes[|nodes| - 1];
      MethodReports(moduleName, className, nodes[..|nodes| - 1])
      + (if MissingDoc(last) then [MethodErr(moduleName, className, last.name, last.lineno)] else [])
  }

  /** Undocumented methods summed over all classes, documented or not. */
  function MissingMethods(classes: seq<Stmt>): nat
    requires forall c :: c in classes ==> c.ClassDef?
  {
    if classes == [] then 0
    else MissingMethods(classes[..|classes| - 1]) + MissingCount(MethodNodes(classes[|classes| - 1]))
  }

  /** All method nodes of the given classes. */
  function MethodTotal(classes: seq<Stmt>): nat
    requires forall c :: c in classes ==> c.ClassDef?
  {
    if classes == [] then 0
    else MethodTotal(classes[..|classes| - 1]) + |MethodNodes(classes[|classes| - 1])|
  }

  /** Class by class: the class's own report when it is undocumented, then the reports for its methods. */
  function ClassReports(moduleName: string, classes: seq<Stmt>): seq<Report>
    requires forall c :: c in classes ==> c.ClassDef?
  {
    if classes == [] then []
    else
      var last := classes[|classes| - 1];
      ClassReports(moduleName, classes[..|classes| - 1])
      + (if MissingDoc(last) then [ClassErr(moduleName, last.name, last.lineno)] else [])
      + MethodReports(moduleName, last.name, MethodNodes(last))
  }

  /** check_method_doc: counts and reports the undocumented methods of one class. */
  method CheckMethodDoc(classNode: Stmt, moduleName: string) returns (noDocNum: nat, reports: seq<Report>)
    requires classNode.ClassDef?
    ensures noDocNum == MissingCount(MethodNodes(classNode))
    ensures noDocNum <= |MethodNodes(classNode)|
    ensures reports == MethodReports(moduleName, classNode.name, MethodNodes(classNode))
  {
    var methodNodes := MethodNodes(classNode);
    noDocNum, reports := 0, [];
    for i := 0 to |methodNodes|
      invariant noDocNum == MissingCount(methodNodes[..i])
      invariant reports == MethodReports(moduleName, classNode.name, methodNodes[..i])
    {
      var methodNode := methodNodes[i];
      assert methodNode in methodNodes;
      ghost var done := methodNodes[..i + 1];
      assert done[..i] == methodNodes[..i] && done[i] == methodNode;
      if !Documented(methodNode.body) {
        reports := reports + [MethodErr(moduleName, classNode.name, methodNode.name, methodNode.lineno)];
        noDocNum := noDocNum + 1;
      }
    }
    assert methodNodes[..|methodNodes|] == methodNodes;
  }

  /**
   * check_class_doc: for each class in source order, counts and reports it
   * when undocumented, then adds its method count, whether or not the class
   * itself is documented. There is no switch to silence the reports.
   */
  method CheckClassDoc(moduleName: string, moduleNode: Tree)
    returns (noDocNumClass: nat, noDocNumMethod: nat, reports: seq<Report>)
    ensures noDocNumClass == MissingCount(ClassNodes(moduleNode))
    ensures noDocNumClass <= |ClassNodes(moduleNode)|
    ensures noDocNumMethod == MissingMethods(ClassNodes(moduleNode))
    ensures noDocNumMethod <= MethodTotal(ClassNodes(moduleNode))
    ensures reports == ClassReports(moduleName, ClassNodes(moduleNode))
  {
    var classNodes := ClassNodes(moduleNode);
    noDocNumClass, noDocNumMethod, reports := 0, 0, [];
    for i := 0 to |classNodes|
      invariant noDocNumClass == MissingCount(classNodes[..i])
      invariant noDocNumMethod == MissingMethods(classNodes[..i])
      invariant reports == ClassReports(moduleName, classNodes[..i])
    {
      var classNode := classNodes[i];
      assert classNode in classNodes;
      ghost var done := classNodes[..i + 1];
      assert done[..i] == classNodes[..i] && done[i] == classNode;
      if !Documented(classNode.body) {
        reports := reports + [ClassErr(moduleName, classNode.name, classNode.lineno)];
        noDocNumClass := noDocNumClass + 1;
      }
      var methodCount, methodReports := CheckMethodDoc(classNode, moduleName);
      noDocNumMethod := noDocNumMethod + methodCount;
      reports := reports + methodReports;
    }
    assert classNodes[..|classNodes|] == classNodes;
    MissingMethodsBounded(classNodes);
  }

  /** Exactly one report per counted method. */
  lemma {:induction false} ReportPerMissingMethod(moduleName: string, className: string, nodes: seq<Stmt>)
    ensures |MethodReports(moduleName, className, nodes)| == MissingCount(nodes)
  {
    if nodes != [] {
      ReportPerMissingMethod(moduleName, className, nodes[..|nodes| - 1]);
    }
  }

  /** Exactly one report per counted class and one per counted method. */
  lemma {:induction false} ReportPerMissingClassOrMethod(moduleName: string, classes: seq<Stmt>)
    requires forall c :: c in classes ==> c.ClassDef?
    ensures |ClassReports(moduleName, classes)| == MissingCount(classes) + MissingMethods(classes)
  {
    if classes != [] {
      var last := classes[|classes| - 1];
      ReportPerMissingClassOrMethod(moduleName, classes[..|classes| - 1]);
      ReportPerMissingMethod(moduleName, last.name, MethodNodes(last));
    }
  }

  /** The method count never exceeds the number of methods examined. */
  lemma {:induction false} MissingMethodsBounded(classes: seq<Stmt>)
    requires forall c :: c in classes ==> c.ClassDef?
    ensures MissingMethods(classes) <= MethodTotal(classes)
  {
    if classes != [] {
      MissingMethodsBounded(classes[..|classes| - 1]);
    }
  }

  /**
   * Documenting a class removes its own report but leaves its methods'
   * count as it was: a docstring is not a `FunctionDef`.
   */
  lemma DocumentingClassKeepsMethods(name: string, lineno: nat, body: seq<Stmt>, doc: string)
    requires doc != ""
    ensures var documented := ClassDef(name, lineno, [StrExpr(doc)] + body);
      && !MissingDoc(documented)
      && MethodNodes(documented) == MethodNodes(ClassDef(name, lineno, body))
  {
    NodesOfTypeSkips([], StrExpr(doc), body, FunctionDefType);
    assert [] + [StrExpr(doc)] + body == [StrExpr(doc)] + body;
    assert [] + body == body;
  }

  /** Methods of nested classes and async methods are not examined. */
  lemma OnlyDirectMethods(name: string, lineno: nat, a: seq<Stmt>, s: Stmt, b: seq<Stmt>)
    requires !s.FunctionDef?
    ensures MethodNodes(ClassDef(name, lineno, a + [s] + b)) == MethodNodes(ClassDef(name, lineno, a + b))
  {
    NodesOfTypeSkips(a, s, b, FunctionDefType);
  }
}
