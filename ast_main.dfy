/** The AST checker's entry point (pycheckdoc_v2/main.py). */
module AstMain {
  import opened PyAst
  import opened Events
  import opened Aggregate
  import AstModuleCheck
  import AstFunctionCheck
  import AstClassCheck

  /** A parsed source file: its path and its tree. */
  type SourceUnit = (string, Tree)

  /** What main ends with: the usage text and exit status 1, or a summary verdict. */
  datatype Outcome = UsageExit(exitCode: int) | Checked(verdict: Verdict)

  /** The module, function, class and method counts of one file, added up. */
  function FileErrors(unit: SourceUnit): nat {
    AstModuleCheck.CheckModuleDoc(unit.0, unit.1, true).0
    + MissingCount(AstFunctionCheck.FunctionNodes(unit.1))
    + MissingCount(AstClassCheck.ClassNodes(unit.1))
    + AstClassCheck.MissingMethods(AstClassCheck.ClassNodes(unit.1))
  }

  /** Everything one file reports, in the order main triggers it. */
  function FileReports(unit: SourceUnit): seq<Report> {
    AstModuleCheck.CheckModuleDoc(unit.0, unit.1, true).1
    + AstFunctionCheck.FunctionReports(unit.0, AstFunctionCheck.FunctionNodes(unit.1))
    + AstClassCheck.ClassReports(unit.0, AstClassCheck.ClassNodes(unit.1))
  }

  /** The per-file counts, file by file. */
  function FileCounts(modules: seq<SourceUnit>): (r: seq<nat>)
    ensures |r| == |modules|
  {
    if modules == [] then []
    else FileCounts(modules[..|modules| - 1]) + [FileErrors(modules[|modules| - 1])]
  }

  function AllReports(modules: seq<SourceUnit>): seq<Report> {
    if modules == [] then []
    else AllReports(modules[..|modules| - 1]) + FileReports(modules[|modules| - 1])
  }

  /**
   * main: with fewer than two command-line entries, usage and exit status 1
   * before anything is checked. Otherwise, file by file, adds the four counts
   * to `totalErrors` and counts the file as failing when the total grew; then
   * the failure summary when errors were found, else the success line, both
   * naming the number of files checked.
   */
  method Run(argv: seq<string>, modules: seq<SourceUnit>)
    returns (outcome: Outcome, totalErrors: nat, filesWithErrors: nat, reports: seq<Report>)
    ensures |argv| < 2 ==> outcome == UsageExit(1) && totalErrors == 0 && filesWithErrors == 0 && reports == []
    ensures |argv| >= 2 ==> totalErrors == Sum(FileCounts(modules))
    ensures |argv| >= 2 ==> filesWithErrors == Positives(FileCounts(modules))
    ensures |argv| >= 2 ==> reports == AllReports(modules)
    ensures |argv| >= 2 ==> outcome == Checked(Decide(totalErrors, filesWithErrors, |modules|))
    ensures |argv| >= 2 ==> (outcome.verdict.Failed? <==> totalErrors != 0)
    ensures filesWithErrors <= |modules| && filesWithErrors <= totalErrors
  {
    if |argv| < 2 {
      return UsageExit(1), 0, 0, [];
    }
    totalErrors, filesWithErrors, reports := 0, 0, [];
    for i := 0 to |modules|
      invariant totalErrors == Sum(FileCounts(modules[..i]))
      invariant filesWithErrors == Positives(FileCounts(modules[..i]))
      invariant reports == AllReports(modules[..i])
    {
      var path, moduleNode := modules[i].0, modules[i].1;
      PrefixStep(modules, i);
      var prevCount := totalErrors;

      var moduleResult := AstModuleCheck.CheckModuleDoc(path, moduleNode, true);
      var funcErrors, funcReports := AstFunctionCheck.CheckFunctionDoc(path, moduleNode, true);
      var classErrors, methodErrors, classReports := AstClassCheck.CheckClassDoc(path, moduleNode);

      assert FileErrors(modules[i]) == moduleResult.0 + funcErrors + classErrors + methodErrors;
      assert FileReports(modules[i]) == moduleResult.1 + funcReports + classReports;
      totalErrors := totalErrors + (moduleResult.0 + funcErrors + classErrors + methodErrors);
      reports := reports + (moduleResult.1 + funcReports + classReports);

      if prevCount < totalErrors {
        filesWithErrors := filesWithErrors + 1;
      }
      Step(FileCounts(modules[..i]), FileErrors(modules[i]));
    }
    assert modules[..|modules|] == modules;
    PositivesAtMostSum(FileCounts(modules));
    FailsIffErrors(FileCounts(modules), |modules|);
    outcome := Checked(Decide(totalErrors, filesWithErrors, |modules|));
  }

  /** The counts and reports of one more file are appended to those of the files before it. */
  lemma PrefixStep(modules: seq<SourceUnit>, i: nat)
    requires i < |modules|
    ensures FileCounts(modules[..i + 1]) == FileCounts(modules[..i]) + [FileErrors(modules[i])]
    ensures AllReports(modules[..i + 1]) == AllReports(modules[..i]) + FileReports(modules[i])
  {
    var done := modules[..i + 1];
    assert done[..i] == modules[..i] && done[i] == modules[i];
  }

  /** The per-file counts are `count` applied file by file. */
  lemma {:induction false} FileCountsOf(modules: seq<SourceUnit>)
    ensures FileCounts(modules) == CountsOf(modules, FileErrors)
  {
    if modules != [] {
      FileCountsOf(modules[..|modules| - 1]);
    }
  }

  /**
   * The parsed files reach main in whatever order the worker pool returns
   * them; any reordering gives the same total, failing files and verdict.
   */
  lemma RunOrderIndependent(modules: seq<SourceUnit>, reordered: seq<SourceUnit>)
    requires multiset(modules) == multiset(reordered)
    ensures Sum(FileCounts(modules)) == Sum(FileCounts(reordered))
    ensures Positives(FileCounts(modules)) == Positives(FileCounts(reordered))
    ensures Decide(Sum(FileCounts(modules)), Positives(FileCounts(modules)), |modules|)
         == Decide(Sum(FileCounts(reordered)), Positives(FileCounts(reordered)), |reordered|)
  {
    FileCountsOf(modules);
    FileCountsOf(reordered);
    VerdictOrderIndependent(modules, reordered, FileErrors);
  }

  /** With messages printed, every counted error is reported exactly once. */
  lemma {:induction false} ReportPerError(modules: seq<SourceUnit>)
    ensures |AllReports(modules)| == Sum(FileCounts(modules))
  {
    if modules != [] {
      var last := modules[|modules| - 1];
      ReportPerError(modules[..|modules| - 1]);
      AstFunctionCheck.ReportPerMissingFunction(last.0, AstFunctionCheck.FunctionNodes(last.1));
      AstClassCheck.ReportPerMissingClassOrMethod(last.0, AstClassCheck.ClassNodes(last.1));
    }
  }

  /**
   * A documented module with a documented function `f` and an undocumented
   * class `C` holding an undocumented method `m` and a documented method `n`.
   */
  const documentedF := FunctionDef("f", 3, [StrExpr("Doc."), Other])
  const undocumentedM := FunctionDef("m", 8, [Other])
  const documentedN := FunctionDef("n", 11, [StrExpr("Doc."), Other])
  const undocumentedC := ClassDef("C", 7, [undocumentedM, documentedN])
  const mixedModule := Module([StrExpr("Module doc."), documentedF, undocumentedC])

  /** The filters see `f` as the only function, `C` as the only class, and `m`, `n` as its methods. */
  lemma MixedModuleNodes()
    ensures AstFunctionCheck.FunctionNodes(mixedModule) == [documentedF]
    ensures AstClassCheck.ClassNodes(mixedModule) == [undocumentedC]
    ensures AstClassCheck.MethodNodes(undocumentedC) == [undocumentedM, documentedN]
  {
    var f, c := documentedF, undocumentedC;
    assert mixedModule.body[1..] == [f, c] && [f, c][1..] == [c] && [c][1..] == [];
    assert NodesOfType([c], FunctionDefType) == [] && NodesOfType([c], ClassDefType) == [c];
    assert NodesOfType([f, c], FunctionDefType) == [f] && NodesOfType([f, c], ClassDefType) == [c];
    assert c.body[1..] == [documentedN] && [documentedN][1..] == [];
    assert NodesOfType([documentedN], FunctionDefType) == [documentedN];
  }

  /** That module has one class error and one method error and nothing else. */
  lemma MixedModuleCounts()
    ensures AstModuleCheck.CheckModuleDoc("mod", mixedModule, true).0 == 0
    ensures MissingCount(AstFunctionCheck.FunctionNodes(mixedModule)) == 0
    ensures MissingCount(AstClassCheck.ClassNodes(mixedModule)) == 1
    ensures AstClassCheck.MissingMethods(AstClassCheck.ClassNodes(mixedModule)) == 1
    ensures FileErrors(("mod", mixedModule)) == 2
  {
    MixedModuleNodes();
    assert [documentedF][..0] == [] && [undocumentedC][..0] == [];
    assert [undocumentedM, documentedN][..1] == [undocumentedM] && [undocumentedM][..0] == [];
    assert MissingCount([undocumentedM, documentedN]) == 1;
    assert AstClassCheck.MissingMethods([undocumentedC]) == 1;
  }

  /**
   * A module with neither docstring nor definitions has one error, and a run
   * over that one file fails with one error in one file of one checked.
   */
  lemma UndocumentedEmptyModule()
    ensures FileErrors(("mod", Module([Other]))) == 1
    ensures Decide(Sum(FileCounts([("mod", Module([Other]))])), Positives(FileCounts([("mod", Module([Other]))])), 1)
            == Failed(1, 1, 1)
  {
    var unit := ("mod", Module([Other]));
    assert AstFunctionCheck.FunctionNodes(unit.1) == [];
    assert AstClassCheck.ClassNodes(unit.1) == [];
    assert [unit][..0] == [];
    assert FileCounts([unit]) == [1];
    assert [1][..0] == [];
  }
}
