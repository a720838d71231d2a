/** The reflection checker's entry point (pycheckdoc/check_doc.py). */
module CheckDoc {
  import opened Events
  import opened Reflection
  import opened Aggregate
  import PrintFuncs
  import ModuleCheck
  import FunctionCheck
  import ClassCheck

  /** The module, function, class and method counts of one module, added up. */
  function ModuleErrors(m: ModuleObj): nat {
    ModuleCheck.CheckModuleDoc(m.name, m.doc, m.sourceLine).0
    + MissingFunctions(FunctionCheck.GetFunctions(m))
    + MissingClasses(ClassCheck.GetClasses(m))
    + ClassCheck.MissingMethods(ClassCheck.GetClasses(m))
  }

  /** Everything one module reports, in the order main triggers it. */
  function ModuleReports(m: ModuleObj): seq<Report> {
    ModuleCheck.CheckModuleDoc(m.name, m.doc, m.sourceLine).1
    + FunctionCheck.FunctionReports(m.name, FunctionCheck.GetFunctions(m))
    + ClassCheck.ClassReports(m.name, ClassCheck.GetClasses(m))
  }

  /** The per-module counts, module by module. */
  function ErrorCounts(modules: seq<ModuleObj>): (r: seq<nat>)
    ensures |r| == |modules|
  {
    if modules == [] then []
    else ErrorCounts(modules[..|modules| - 1]) + [ModuleErrors(modules[|modules| - 1])]
  }

  function AllReports(modules: seq<ModuleObj>): seq<Report> {
    if modules == [] then []
    else AllReports(modules[..|modules| - 1]) + ModuleReports(modules[|modules| - 1])
  }

  /**
   * main: module by module, adds the four counts to `errorCount` and counts
   * the module as failing when the count grew; then prints the failure
   * summary when both totals are non-zero, else the success line, both
   * naming the number of modules checked.
   */
  method Run(modules: seq<ModuleObj>)
    returns (verdict: Verdict, summary: string, errorCount: nat, errorFiles: nat, reports: seq<Report>)
    ensures errorCount == Sum(ErrorCounts(modules))
    ensures errorFiles == Positives(ErrorCounts(modules))
    ensures reports == AllReports(modules)
    ensures verdict == Decide(errorCount, errorFiles, |modules|)
    ensures verdict.Failed? <==> errorCount != 0
    ensures errorFiles <= |modules| && errorFiles <= errorCount
    ensures summary == PrintFuncs.SummaryText(verdict)
  {
    errorCount, errorFiles, reports := 0, 0, [];
    for i := 0 to |modules|
      invariant errorCount == Sum(ErrorCounts(modules[..i]))
      invariant errorFiles == Positives(ErrorCounts(modules[..i]))
      invariant reports == AllReports(modules[..i])
    {
      var module_ := modules[i];
      PrefixStep(modules, i);
      var prevCount := errorCount;

      var modStatus := ModuleCheck.CheckModuleDoc(module_.name, module_.doc, module_.sourceLine);
      var funcStatus, funcReports := FunctionCheck.CheckFunctionDocSingle(module_);
      var classStatus, methodStatus, classReports := ClassCheck.CheckClassDoc(module_);

      assert ModuleErrors(module_) == modStatus.0 + funcStatus + classStatus + methodStatus;
      assert ModuleReports(module_) == modStatus.1 + funcReports + classReports;
      errorCount := errorCount + (modStatus.0 + funcStatus + classStatus + methodStatus);
      reports := reports + (modStatus.1 + funcReports + classReports);

      if prevCount < errorCount {
        errorFiles := errorFiles + 1;
      }
      Step(ErrorCounts(modules[..i]), ModuleErrors(module_));
    }
    assert modules[..|modules|] == modules;
    PositivesAtMostSum(ErrorCounts(modules));
    FailsIffErrors(ErrorCounts(modules), |modules|);

    verdict := Decide(errorCount, errorFiles, |modules|);
    if errorFiles != 0 && errorCount != 0 {
      var errorStr := PrintFuncs.ErrorMessage(errorCount, errorFiles, |modules|);
      summary := errorStr + "\n";
    } else {
      summary := PrintFuncs.SuccessText(|modules|);
    }
  }

  /** The counts and reports of one more module are appended to those of the modules before it. */
  lemma PrefixStep(modules: seq<ModuleObj>, i: nat)
    requires i < |modules|
    ensures ErrorCounts(modules[..i + 1]) == ErrorCounts(modules[..i]) + [ModuleErrors(modules[i])]
    ensures AllReports(modules[..i + 1]) == AllReports(modules[..i]) + ModuleReports(modules[i])
  {
    var done := modules[..i + 1];
    assert done[..i] == modules[..i] && done[i] == modules[i];
  }

  /** The per-module counts are `ModuleErrors` applied module by module. */
  lemma {:induction false} ErrorCountsOf(modules: seq<ModuleObj>)
    ensures ErrorCounts(modules) == CountsOf(modules, ModuleErrors)
  {
    if modules != [] {
      ErrorCountsOf(modules[..|modules| - 1]);
    }
  }

  /** Any reordering of the modules gives the same error count, error files and verdict. */
  lemma RunOrderIndependent(modules: seq<ModuleObj>, reordered: seq<ModuleObj>)
    requires multiset(modules) == multiset(reordered)
    ensures Sum(ErrorCounts(modules)) == Sum(ErrorCounts(reordered))
    ensures Positives(ErrorCounts(modules)) == Positives(ErrorCounts(reordered))
    ensures Decide(Sum(ErrorCounts(modules)), Positives(ErrorCounts(modules)), |modules|)
         == Decide(Sum(ErrorCounts(reordered)), Positives(ErrorCounts(reordered)), |reordered|)
  {
    ErrorCountsOf(modules);
    ErrorCountsOf(reordered);
    VerdictOrderIndependent(modules, reordered, ModuleErrors);
  }

  /** Every counted error is reported exactly once. */
  lemma {:induction false} ReportPerError(modules: seq<ModuleObj>)
    ensures |AllReports(modules)| == Sum(ErrorCounts(modules))
  {
    if modules != [] {
      var last := modules[|modules| - 1];
      ReportPerError(modules[..|modules| - 1]);
      FunctionCheck.ReportPerMissingFunction(last.name, FunctionCheck.GetFunctions(last));
      ClassCheck.ReportPerMissingClassOrMethod(last.name, ClassCheck.GetClasses(last));
    }
  }
}
