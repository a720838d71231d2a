/** The reflection checker's function checks (pycheckdoc/check_function.py). */
module FunctionCheck {
  import opened PyValues
  import opened Events
  import opened Reflection
  import opened Aggregate

  /** get_functions: the module's function members defined in the module itself, imported ones left out. */
  function GetFunctions(m: ModuleObj): (r: seq<FunctionObj>)
    ensures |r| <= |m.functions|
    ensures forall f :: f in r <==> f in m.functions && f.definingModule == m.name
  {
    FunctionsDefinedIn(m.functions, m.name)
  }

  /** One function report per undocumented function, in order. */
  function FunctionReports(moduleName: string, fs: seq<FunctionObj>): seq<Report> {
    if fs == [] then []
    else
      var last := fs[|fs| - 1];
      FunctionReports(moduleName, fs[..|fs| - 1])
      + (if Truthy(last.doc) then [] else [FunctionErr(moduleName, last.name, last.line)])
  }

  /** check_function_doc_single: counts and reports the undocumented functions of one module. */
  method CheckFunctionDocSingle(m: ModuleObj) returns (success: nat, reports: seq<Report>)
    ensures success == MissingFunctions(GetFunctions(m))
    ensures success <= |GetFunctions(m)|
    ensures reports == FunctionReports(m.name, GetFunctions(m))
  {
    var funcs := GetFunctions(m);
    success, reports := 0, [];
    for i := 0 to |funcs|
      invariant success == MissingFunctions(funcs[..i])
      invariant reports == FunctionReports(m.name, funcs[..i])
    {
      var func := funcs[i];
      FunctionStep(m.name, funcs, i);
      if !Truthy(func.doc) {
        reports := reports + [FunctionErr(m.name, func.name, func.line)];
        success := success + 1;
      }
    }
    assert funcs[..|funcs|] == funcs;
  }

  /** What check_function_doc_single counts for each module of a list. */
  function SingleCounts(modules: seq<ModuleObj>): (r: seq<nat>)
    ensures |r| == |modules|
  {
    if modules == [] then []
    else SingleCounts(modules[..|modules| - 1]) + [MissingFunctions(GetFunctions(modules[|modules| - 1]))]
  }

  /** What check_function_doc_single reports for each module of a list, one module after another. */
  function SingleReports(modules: seq<ModuleObj>): seq<Report> {
    if modules == [] then []
    else
      var last := modules[|modules| - 1];
      SingleReports(modules[..|modules| - 1]) + FunctionReports(last.name, GetFunctions(last))
  }

  /**
   * check_function_doc: pairs every module's name with its functions, then
   * counts and reports module by module. The result is the single-module
   * check summed over the list.
   */
  method CheckFunctionDoc(modules: seq<ModuleObj>) returns (success: nat, reports: seq<Report>)
    ensures success == Sum(SingleCounts(modules))
    ensures reports == SingleReports(modules)
  {
    var modFuncs := seq(|modules|, k requires 0 <= k < |modules| => (modules[k].name, GetFunctions(modules[k])));
    success, reports := 0, [];
    for i := 0 to |modFuncs|
      invariant success == Sum(SingleCounts(modules[..i]))
      invariant reports == SingleReports(modules[..i])
    {
      var moduleName := modFuncs[i].0;
      var funcs := modFuncs[i].1;
      ghost var before, beforeReports := success, reports;
      for j := 0 to |funcs|
        invariant success == before + MissingFunctions(funcs[..j])
        invariant reports == beforeReports + FunctionReports(moduleName, funcs[..j])
      {
        var func := funcs[j];
        FunctionStep(moduleName, funcs, j);
        if !Truthy(func.doc) {
          reports := reports + [FunctionErr(moduleName, func.name, func.line)];
          success := success + 1;
        }
      }
      assert funcs[..|funcs|] == funcs;
      ModuleStep(modules, i);
      Step(SingleCounts(modules[..i]), MissingFunctions(funcs));
    }
    assert modules[..|modules|] == modules;
  }

  /** One more function: its count and report follow those of the functions before it. */
  lemma FunctionStep(moduleName: string, fs: seq<FunctionObj>, j: nat)
    requires j < |fs|
    ensures MissingFunctions(fs[..j + 1]) == MissingFunctions(fs[..j]) + (if Truthy(fs[j].doc) then 0 else 1)
    ensures FunctionReports(moduleName, fs[..j + 1])
         == FunctionReports(moduleName, fs[..j]) + (if Truthy(fs[j].doc) then [] else [FunctionErr(moduleName, fs[j].name, fs[j].line)])
  {
    var done := fs[..j + 1];
    assert done[..j] == fs[..j] && done[j] == fs[j];
  }

  /** One more module: its count and reports follow those of the modules before it. */
  lemma ModuleStep(modules: seq<ModuleObj>, i: nat)
    requires i < |modules|
    ensures SingleCounts(modules[..i + 1]) == SingleCounts(modules[..i]) + [MissingFunctions(GetFunctions(modules[i]))]
    ensures SingleReports(modules[..i + 1]) == SingleReports(modules[..i]) + FunctionReports(modules[i].name, GetFunctions(modules[i]))
  {
    var seen := modules[..i + 1];
    assert seen[..i] == modules[..i] && seen[i] == modules[i];
  }

  /** One report per undocumented function, so as many reports as the count. */
  lemma {:induction false} ReportPerMissingFunction(moduleName: string, fs: seq<FunctionObj>)
    ensures |FunctionReports(moduleName, fs)| == MissingFunctions(fs)
  {
    if fs != [] {
      ReportPerMissingFunction(moduleName, fs[..|fs| - 1]);
    }
  }

  /** A single module's count is 0 exactly when each of its own functions has a docstring. */
  lemma NoMissingFunctionIff(m: ModuleObj)
    ensures MissingFunctions(GetFunctions(m)) == 0
            <==> forall f :: f in m.functions && f.definingModule == m.name ==> Truthy(f.doc)
  {
    MissingFunctionsZeroIff(GetFunctions(m));
  }

  /**
   * A function defined in another module, wherever `getmembers` lists it,
   * changes neither the functions examined, nor the count, nor the reports.
   */
  lemma ImportedFunctionIgnored(m: ModuleObj, a: seq<FunctionObj>, f: FunctionObj, b: seq<FunctionObj>)
    requires f.definingModule != m.name
    ensures GetFunctions(m.(functions := a + [f] + b)) == GetFunctions(m.(functions := a + b))
    ensures MissingFunctions(GetFunctions(m.(functions := a + [f] + b)))
         == MissingFunctions(GetFunctions(m.(functions := a + b)))
    ensures FunctionReports(m.name, GetFunctions(m.(functions := a + [f] + b)))
         == FunctionReports(m.name, GetFunctions(m.(functions := a + b)))
  {
    var withF, withoutF := m.(functions := a + [f] + b), m.(functions := a + b);
    assert withF.name == m.name && withF.functions == a + [f] + b;
    assert withoutF.name == m.name && withoutF.functions == a + b;
    FunctionsDefinedInSkips(a, f, b, m.name);
  }

  /** The multi-module test's first module: its one function is documented. */
  const withDocModule := ModuleObj("with_doc", Some("doc"), Some(0), [FunctionObj("f", "with_doc", Some("Doc."), 4)], [])

  /** The second module: its own function is undocumented, and so is the function it imports. */
  const noDocModule := ModuleObj("no_doc", None, Some(0),
                                 [FunctionObj("g", "no_doc", None, 3), FunctionObj("join", "posixpath", None, 71)], [])

  /** The first module counts 0. */
  lemma WithDocModuleCount()
    ensures GetFunctions(withDocModule) == withDocModule.functions
    ensures MissingFunctions(GetFunctions(withDocModule)) == 0
  {
    assert withDocModule.functions[..0] == [];
  }

  /** The second module counts 1: only its own function is examined. */
  lemma NoDocModuleCount()
    ensures GetFunctions(noDocModule) == [FunctionObj("g", "no_doc", None, 3)]
    ensures MissingFunctions(GetFunctions(noDocModule)) == 1
  {
    var g, join := FunctionObj("g", "no_doc", None, 3), FunctionObj("join", "posixpath", None, 71);
    assert noDocModule.functions == [g] + [join];
    FunctionsDefinedInAppend([g], [join], "no_doc");
    assert [g][..0] == [] && [join][..0] == [];
  }

  /** Over two modules the check adds the two single-module counts. */
  lemma TwoModuleSum(first: ModuleObj, second: ModuleObj)
    ensures Sum(SingleCounts([first, second]))
         == MissingFunctions(GetFunctions(first)) + MissingFunctions(GetFunctions(second))
  {
    var ms := [first, second];
    ModuleStep(ms, 0);
    ModuleStep(ms, 1);
    assert ms[..0] == [] && ms[..2] == ms;
    Step(SingleCounts(ms[..0]), MissingFunctions(GetFunctions(first)));
    Step(SingleCounts(ms[..1]), MissingFunctions(GetFunctions(second)));
  }

  /** The multi-module test: the two modules, in this order, add up to 1. */
  lemma WithDocThenNoDoc()
    ensures Sum(SingleCounts([withDocModule, noDocModule])) == 1
  {
    WithDocModuleCount();
    NoDocModuleCount();
    TwoModuleSum(withDocModule, noDocModule);
  }
}
