/**
 * What the checkers hand to the presentation layer: one error report per
 * undocumented declaration (a call of print_module_err, print_function_err,
 * print_class_err or print_method_err) and the verdict of a whole run
 * (a call of print_error or print_success).
 */
module Events {

  datatype Report =
    | ModuleErr(moduleName: string, line: int)
    | FunctionErr(moduleName: string, funcName: string, line: int)
    | ClassErr(moduleName: string, className: string, line: int)
    | MethodErr(moduleName: string, className: string, methodName: string, line: int)

  /** `print_error(errors, files, checked)` or `print_success(checked)`. */
  datatype Verdict =
    | Failed(errorCount: int, errorFiles: int, checked: int)
    | Passed(checked: int)
}
