/** The AST checker's module-docstring check (pycheckdoc_v2/check_module.py). */
module AstModuleCheck {
  import opened PyAst
  import opened Events

  /**
   * check_module_doc: 1 when the module's docstring is absent or empty, else 0.
   * With `printMsgs` one module report for `modulePath` goes with the 1; the
   * report is printed with the helper's default line, 0.
   */
  function CheckModuleDoc(modulePath: string, moduleNode: Tree, printMsgs: bool): (r: (nat, seq<Report>))
    ensures r.0 <= 1
    ensures r.0 == 1 <==> !Documented(moduleNode.body)
    ensures !printMsgs ==> r.1 == []
    ensures printMsgs ==> r.1 == if r.0 == 1 then [ModuleErr(modulePath, 0)] else []
  {
    if !Documented(moduleNode.body) then
      (1, if printMsgs then [ModuleErr(modulePath, 0)] else [])
    else
      (0, [])
  }

  /** The count is the same whether or not messages are printed. */
  lemma CountIgnoresPrinting(modulePath: string, moduleNode: Tree)
    ensures CheckModuleDoc(modulePath, moduleNode, true).0 == CheckModuleDoc(modulePath, moduleNode, false).0
  {
  }
}
