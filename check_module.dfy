/** The reflection checker's module check (pycheckdoc/check_module.py). */
module ModuleCheck {
  import opened PyValues
  import opened Events

  /**
   * check_module_doc, on the three things it reads from its argument: the
   * name, `__doc__`, and the line `inspect.getsourcelines` gives (None when
   * that raises OSError). A truthy doc counts 0; a falsy one counts 1 with one
   * module report, unless the source lines cannot be had, when the OSError
   * is swallowed and nothing is counted or reported.
   */
  function CheckModuleDoc(name: string, doc: Option<string>, sourceLine: Option<int>): (r: (nat, seq<Report>))
    ensures r.0 <= 1 && |r.1| == r.0
    ensures r.0 == 1 <==> !Truthy(doc) && sourceLine.Some?
    ensures r.0 == 1 ==> r.1 == [ModuleErr(name, sourceLine.value)]
  {
    if Truthy(doc) then (0, [])
    else if sourceLine.None? then (0, [])
    else (1, [ModuleErr(name, sourceLine.value)])
  }

  /**
   * The cases the module tests exercise: a documented module, an undocumented
   * one (whose `getsourcelines` line is 0), a string and an int (whose
   * `__doc__` is their type's non-empty docstring), and classes with and
   * without a docstring.
   */
  lemma CheckModuleDocCases(strDoc: string, intDoc: string, classLine: int)
    requires strDoc != [] && intDoc != []
    ensures CheckModuleDoc("with_doc", Some("Module doc."), Some(0)).0 == 0
    ensures CheckModuleDoc("no_doc", None, Some(0)) == (1, [ModuleErr("no_doc", 0)])
    ensures CheckModuleDoc("module", Some(strDoc), None).0 == 0
    ensures CheckModuleDoc("2", Some(intDoc), None).0 == 0
    ensures CheckModuleDoc("WithDoc", Some("Class doc."), Some(classLine)).0 == 0
    ensures CheckModuleDoc("NoDoc", None, Some(classLine)).0 == 1
  {
  }

  /** An empty docstring is as missing as none at all. */
  lemma EmptyDocIsMissing(name: string, sourceLine: Option<int>)
    ensures CheckModuleDoc(name, Some(""), sourceLine) == CheckModuleDoc(name, None, sourceLine)
  {
  }
}
