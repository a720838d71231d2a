/** The reflection checker's class and method checks (pycheckdoc/check_class.py). */
module ClassCheck {
  import opened PyValues
  import opened Events
  import opened Reflection

  /** get_classes: the module's class members defined in the module itself. */
  function GetClasses(m: ModuleObj): (r: seq<ClassObj>)
    ensures |r| <= |m.classes|
    ensures forall c :: c in r <==> c in m.classes && c.definingModule == m.name
  {
    ClassesDefinedIn(m.classes, m.name)
  }

  /** get_methods: the class's function members defined in the class's own module, inherited ones included. */
  function GetMethods(c: ClassObj): (r: seq<FunctionObj>)
    ensures |r| <= |c.functions|
    ensures forall f :: f in r <==> f in c.functions && f.definingModule == c.definingModule
  {
    FunctionsDefinedIn(c.functions, c.definingModule)
  }

  /** One method report per undocumented method, naming the method's own module. */
  function MethodReports(className: string, ms: seq<FunctionObj>): seq<Report> {
    if ms == [] then []
    else
      var last := ms[|ms| - 1];
      MethodReports(className, ms[..|ms| - 1])
      + (if Truthy(last.doc) then [] else [MethodErr(last.definingModule, className, last.name, last.line)])
  }

  /** Undocumented methods summed over all classes, documented or not. */
  function MissingMethods(classes: seq<ClassObj>): nat {
    if classes == [] then 0
    else MissingMethods(classes[..|classes| - 1]) + MissingFunctions(GetMethods(classes[|classes| - 1]))
  }

  /** All methods of the given classes. */
  function MethodTotal(classes: seq<ClassObj>): nat {
    if classes == [] then 0
    else MethodTotal(classes[..|classes| - 1]) + |GetMethods(classes[|classes| - 1])|
  }

  /** Class by class: the class's own report when it is undocumented, then the reports for its methods. */
  function ClassReports(moduleName: string, classes: seq<ClassObj>): seq<Report> {
    if classes == [] then []
    else
      var last := classes[|classes| - 1];
      ClassReports(moduleName, classes[..|classes| - 1])
      + (if Truthy(last.doc) then [] else [ClassErr(moduleName, last.name, last.line)])
      + MethodReports(last.name, GetMethods(last))
  }

  /** check_method_doc: counts and reports the undocumented methods of one class. */
  method CheckMethodDoc(c: ClassObj) returns (success: nat, reports: seq<Report>)
    ensures success == MissingFunctions(GetMethods(c))
    ensures success <= |GetMethods(c)|
    ensures reports == MethodReports(c.name, GetMethods(c))
  {
    var methods := GetMethods(c);
    success, reports := 0, [];
    for i := 0 to |methods|
      invariant success == MissingFunctions(methods[..i])
      invariant reports == MethodReports(c.name, methods[..i])
    {
      var method_ := methods[i];
      ghost var done := methods[..i + 1];
      assert done[..i] == methods[..i] && done[i] == method_;
      if !Truthy(method_.doc) {
        reports := reports + [MethodErr(method_.definingModule, c.name, method_.name, method_.line)];
        success := success + 1;
      }
    }
    assert methods[..|methods|] == methods;
  }

  /**
   * check_class_doc: for every class of the module, reports and counts it when
   * undocumented, then adds its undocumented methods whatever its own state.
   */
  method CheckClassDoc(m: ModuleObj) returns (classSuccess: nat, methodSuccess: nat, reports: seq<Report>)
    ensures classSuccess == MissingClasses(GetClasses(m))
    ensures methodSuccess == MissingMethods(GetClasses(m))
    ensures classSuccess <= |GetClasses(m)| && methodSuccess <= MethodTotal(GetClasses(m))
    ensures reports == ClassReports(m.name, GetClasses(m))
  {
    var classes := GetClasses(m);
    classSuccess, methodSuccess, reports := 0, 0, [];
    for i := 0 to |classes|
      invariant classSuccess == MissingClasses(classes[..i])
      invariant methodSuccess == MissingMethods(classes[..i])
      invariant reports == ClassReports(m.name, classes[..i])
    {
      var class_ := classes[i];
      ghost var done := classes[..i + 1];
      assert done[..i] == classes[..i] && done[i] == class_;
      if !Truthy(class_.doc) {
        reports := reports + [ClassErr(m.name, class_.name, class_.line)];
        classSuccess := classSuccess + 1;
      }
      var methodErrors, methodReports := CheckMethodDoc(class_);
      methodSuccess := methodSuccess + methodErrors;
      reports := reports + methodReports;
    }
    assert classes[..|classes|] == classes;
    MissingMethodsBounded(classes);
  }

  /** No class has more undocumented methods than methods. */
  lemma {:induction false} MissingMethodsBounded(classes: seq<ClassObj>)
    ensures MissingMethods(classes) <= MethodTotal(classes)
  {
    if classes != [] {
      MissingMethodsBounded(classes[..|classes| - 1]);
    }
  }

  /** One report per undocumented method. */
  lemma {:induction false} ReportPerMissingMethod(className: string, ms: seq<FunctionObj>)
    ensures |MethodReports(className, ms)| == MissingFunctions(ms)
  {
    if ms != [] {
      ReportPerMissingMethod(className, ms[..|ms| - 1]);
    }
  }

  /** One report per undocumented class and one per undocumented method. */
  lemma {:induction false} ReportPerMissingClassOrMethod(moduleName: string, classes: seq<ClassObj>)
    ensures |ClassReports(moduleName, classes)| == MissingClasses(classes) + MissingMethods(classes)
  {
    if classes != [] {
      var last := classes[|classes| - 1];
      ReportPerMissingClassOrMethod(moduleName, classes[..|classes| - 1]);
      ReportPerMissingMethod(last.name, GetMethods(last));
    }
  }

  /** A class defined in another module, wherever `getmembers` lists it, is never examined. */
  lemma ImportedClassIgnored(m: ModuleObj, a: seq<ClassObj>, c: ClassObj, b: seq<ClassObj>)
    requires c.definingModule != m.name
    ensures GetClasses(m.(classes := a + [c] + b)) == GetClasses(m.(classes := a + b))
  {
    var withC, withoutC := m.(classes := a + [c] + b), m.(classes := a + b);
    assert withC.name == m.name && withC.classes == a + [c] + b;
    assert withoutC.name == m.name && withoutC.classes == a + b;
    ClassesDefinedInSkips(a, c, b, m.name);
  }

  /**
   * The class tests: `NoDoc` has no docstring and two undocumented methods,
   * so check_method_doc gives 2 and check_class_doc on its module (1, 2);
   * `WithDoc` and its method are documented, giving 0 and (0, 0).
   */
  lemma ClassTestCases()
    ensures var noDoc := ClassObj("NoDoc", "no_doc", None, 6,
                                  [FunctionObj("__init__", "no_doc", None, 7), FunctionObj("run", "no_doc", None, 10)]);
            var withDoc := ClassObj("WithDoc", "with_doc", Some("Class doc."), 6,
                                    [FunctionObj("run", "with_doc", Some("Method doc."), 9)]);
            MissingFunctions(GetMethods(noDoc)) == 2
            && MissingFunctions(GetMethods(withDoc)) == 0
            && MissingClasses(GetClasses(ModuleObj("no_doc", None, Some(0), [], [noDoc]))) == 1
            && MissingMethods(GetClasses(ModuleObj("no_doc", None, Some(0), [], [noDoc]))) == 2
            && MissingClasses(GetClasses(ModuleObj("with_doc", Some("doc"), Some(0), [], [withDoc]))) == 0
            && MissingMethods(GetClasses(ModuleObj("with_doc", Some("doc"), Some(0), [], [withDoc]))) == 0
  {
    var noDoc := ClassObj("NoDoc", "no_doc", None, 6,
                          [FunctionObj("__init__", "no_doc", None, 7), FunctionObj("run", "no_doc", None, 10)]);
    var withDoc := ClassObj("WithDoc", "with_doc", Some("Class doc."), 6,
                            [FunctionObj("run", "with_doc", Some("Method doc."), 9)]);
    assert GetMethods(noDoc) == noDoc.functions by {
      assert noDoc.functions[..1] == [noDoc.functions[0]];
    }
    assert GetMethods(noDoc)[..1] == [GetMethods(noDoc)[0]];
    assert GetMethods(withDoc) == withDoc.functions;
    assert GetClasses(ModuleObj("no_doc", None, Some(0), [], [noDoc])) == [noDoc];
    assert GetClasses(ModuleObj("with_doc", Some("doc"), Some(0), [], [withDoc])) == [withDoc];
    assert [noDoc][..0] == [];
  }
}
