# pycheckdoc in Dafny

pycheckdoc is a linter that reports Python modules, top-level functions,
classes and methods that have no docstring. For each file it adds up four
counts: the module (0 or 1), the undocumented functions, the undocumented
classes and the undocumented methods. A file "has errors" when its four
counts add up to more than zero. The run ends with either a failure summary
("Found N errors in F source files (checked M source files)") or a success
line.

The repository has two lines of evolution, and both are modelled here.

- **The AST checker (`pycheckdoc_v2/`).** It reads parsed syntax trees. A
  tree is the `PyAst.Tree`/`PyAst.Stmt` datatype. `ast.get_docstring` is the
  leading string constant of a body. The checker's node selections are
  `[node for node in body if type(node) is T]`, modelled as `NodesOfType`.
- **The reflection checker (`pycheckdoc/`).** It reads imported module
  objects through `inspect`. Its input is the `Reflection` records: a module
  with its function and class members, a class with its function members,
  and each member's defining module, `__doc__` and source line.
- **The message text (`pycheckdoc/print_funcs.py`).** It is modelled as
  plain strings without the terminal colour codes. `print_error`'s three
  `find`/`rfind` splices are an imperative method proved equal to the
  direct construction.

Every `print_*_err` call a checker makes is an `Events.Report` value. The
checkers return these reports in the order the calls happen. `print_error`
and `print_success` become an `Events.Verdict`. The counting loops are
methods with loop invariants. Each method is proved against recursive
specification functions (`MissingCount`, `MissingFunctions`, `Sum`,
`Positives`, ...). The lemmas then state what those functions mean. Both
entry points share the run-level arithmetic in module `Aggregate`.

Python's `not x` on an `Optional[str]` is `PyValues.Truthy` (None and ""
are both falsy). `str(int)` is `PrintFuncs.IntStr`. `str.find` and
`str.rfind` are `PrintFuncs.Find` and `PrintFuncs.RFind`, which are -1 when
the pattern is absent.

Two behaviours of the code are kept as written:

- The plural "s" is added only when a count is greater than 1, because the
  tests in `print_error` and `print_success` are `> 1`. A count of 0 stays
  singular ("0 error").
- `print_module_err` shows the line tag when `line == 0`. Its three siblings
  show it when `line != 0`.

## Model

| member | source | states |
|---|---|---|
| PyAst.NodesOfType | pycheckdoc_v2/check_function.py:27-29 | the selection holds exactly the body's direct children of the one node type, and is no longer than the body |
| PyAst.NodesOfTypeAppend | pycheckdoc_v2/check_function.py:27-29 | the selection keeps source order: selecting from a concatenation is the concatenation of the selections |
| PyAst.NodesOfTypeSkips | pycheckdoc_v2/check_class.py:25-27 | a statement of another type anywhere in a body does not change the selection |
| PyAst.Docstring | pycheckdoc_v2/check_module.py:27 | `ast.get_docstring`: a docstring is found only when the body's first statement is a string constant, and then it is that constant's text; otherwise there is none |
| PyAst.MissingCount | pycheckdoc_v2/check_function.py:31-41 | the number of undocumented definitions is at most the number of nodes examined |
| PyAst.MissingCountZero | pycheckdoc_v2/check_function.py:33-39 | the count is 0 exactly when no node is missing its docstring |
| PyAst.DocumentedIff | pycheckdoc_v2/check_module.py:27 | a body is documented exactly when its first statement is a non-empty string constant, so an empty docstring counts as missing |
| AstModuleCheck.CheckModuleDoc | pycheckdoc_v2/check_module.py:25-32 | the result is 0 or 1, and 1 exactly when the module's docstring is absent or empty; with printing off no report, with it on exactly one module report for the path, at the helper's default line 0, going with the 1 |
| AstModuleCheck.CountIgnoresPrinting | pycheckdoc_v2/check_module.py:27-30 | the count is the same whether messages are printed or not |
| AstFunctionCheck.FunctionNodes | pycheckdoc_v2/check_function.py:27-29 | every node selected is a `FunctionDef` |
| AstFunctionCheck.CheckFunctionDoc | pycheckdoc_v2/check_function.py:25-41 | the loop's count equals the number of undocumented top-level `FunctionDef` nodes and is at most their number; the reports are one per such node in source order with its line when printing is on, and none when it is off |
| AstFunctionCheck.FunctionStep | pycheckdoc_v2/check_function.py:31-39 | each node the loop visits is a `FunctionDef`, and it adds 1 to the count and one report exactly when its docstring is missing |
| AstFunctionCheck.ReportPerMissingFunction | pycheckdoc_v2/check_function.py:33-39 | exactly one function report per counted function, each naming the module path |
| AstFunctionCheck.OnlyTopLevelFunctionDefs | pycheckdoc_v2/check_function.py:27-29 | an async def, a class (and its methods) or a block holding nested defs can be added to the module body without changing the count or the reports |
| AstFunctionCheck.NoMissingFunctionIff | pycheckdoc_v2/check_function.py:31-41 | the count is 0 exactly when every top-level `FunctionDef` has a docstring |
| AstClassCheck.ClassNodes | pycheckdoc_v2/check_class.py:25-27 | every node selected is a `ClassDef` |
| AstClassCheck.MethodNodes | pycheckdoc_v2/check_class.py:54-56 | every method node selected is a `FunctionDef` |
| AstClassCheck.CheckMethodDoc | pycheckdoc_v2/check_class.py:44-70 | the count equals the number of undocumented direct `FunctionDef` children of the class and is at most their number; one method report each, in order, with module, class, method name and line |
| AstClassCheck.CheckClassDoc | pycheckdoc_v2/check_class.py:11-41 | the first count is the undocumented classes (at most the number of classes); the second is the method count summed over every class, documented or not, and at most the number of methods; the reports are, class by class, its own report when undocumented and then its methods' reports |
| AstClassCheck.ReportPerMissingMethod | pycheckdoc_v2/check_class.py:60-68 | exactly one report per counted method |
| AstClassCheck.ReportPerMissingClassOrMethod | pycheckdoc_v2/check_class.py:32-39 | the reports number the undocumented classes plus the undocumented methods |
| AstClassCheck.MissingMethodsBounded | pycheckdoc_v2/check_class.py:58-70 | the method count never exceeds the number of methods examined |
| AstClassCheck.DocumentingClassKeepsMethods | pycheckdoc_v2/check_class.py:32-39 | giving a class a docstring removes its own error and leaves the methods examined unchanged |
| AstClassCheck.OnlyDirectMethods | pycheckdoc_v2/check_class.py:54-56 | async methods, nested classes and their methods can be added to a class body without changing the methods examined |
| AstMain.FileCounts | pycheckdoc_v2/main.py:27-36 | one count per parsed file |
| AstMain.Run | pycheckdoc_v2/main.py:15-44 | fewer than two argv entries give usage and exit status 1 with nothing checked; otherwise the total is the sum of the per-file four-count sums, the failing files are the files with a positive sum, the reports are every file's reports in order, the verdict is failure with both numbers exactly when the total is non-zero, the file count is the number of files checked, and the failing files number at most the files and at most the errors |
| AstMain.PrefixStep | pycheckdoc_v2/main.py:27-36 | checking one more file appends its count and its reports to those of the files before it |
| AstMain.ReportPerError | pycheckdoc_v2/main.py:27-36 | over a run, the number of reports equals the error total |
| AstMain.FileCountsOf | pycheckdoc_v2/main.py:27-36 | the per-file counts are the four-count sum applied file by file |
| AstMain.RunOrderIndependent | pycheckdoc_v2/main.py:27-44 | any reordering of the parsed files gives the same total, the same failing-file count and the same verdict |
| AstMain.MixedModuleNodes | pycheckdoc_v2/main.py:30-32 | in the module with a documented `f` and an undocumented class `C` holding methods `m` and `n`, the checks examine exactly `f`, `C`, and `m` and `n` |
| AstMain.MixedModuleCounts | pycheckdoc_v2/main.py:30-36 | that module's counts are module 0, functions 0, classes 1, methods 1 |
| AstMain.UndocumentedEmptyModule | pycheckdoc_v2/main.py:27-44 | a module with no docstring and no definitions counts 1, and a run over it alone fails with 1 error in 1 file of 1 checked |
| Aggregate.Positives | pycheckdoc_v2/main.py:38-39 | the failing files never outnumber the files |
| Aggregate.Decide | pycheckdoc_v2/main.py:41-44 | failure exactly when both the total and the failing-file count are non-zero, carrying both; either branch names the number of files checked |
| Aggregate.Step | pycheckdoc_v2/main.py:34-39 | one more file adds its count to the total, and adds one failing file exactly when its count is positive, which is when `prev_count < total_errors` |
| Aggregate.PositivesAtMostSum | pycheckdoc_v2/main.py:27-39 | there are never more failing files than errors |
| Aggregate.PositivesZeroIff | pycheckdoc_v2/main.py:38-41 | no failing file exactly when no error |
| Aggregate.FailsIffErrors | pycheckdoc_v2/main.py:41-44 | with non-negative counts the two-part guard reduces to "the total is non-zero" |
| Aggregate.CountsOf | pycheckdoc_v2/main.py:27-36 | one count per item, in order |
| Aggregate.CountsOfAppend | pycheckdoc_v2/main.py:27-36 | counting a concatenation is counting each part, one after the other |
| Aggregate.SumAppend | pycheckdoc_v2/main.py:34-39 | the total and the failing-file count of a concatenation are those of its parts added |
| Aggregate.SumPerm | pycheckdoc_v2/main.py:34-39 | counts that are a permutation of each other have the same total and the same number of positive counts |
| Aggregate.CountsOfPerm | pycheckdoc_v2/main.py:27-36 | permuting the items permutes their counts |
| Aggregate.VerdictOrderIndependent | pycheckdoc_v2/main.py:27-44 | permuting the items leaves the total, the failing-item count and the verdict unchanged |
| PrintFuncs.NatStr | pycheckdoc/print_funcs.py:222-225 | the decimal numeral is non-empty and all digits |
| PrintFuncs.IntStr | pycheckdoc/print_funcs.py:222-225 | `str(int)` is non-empty and made of digits and a minus sign |
| PrintFuncs.NoLetterInNumeral | pycheckdoc/print_funcs.py:222-225 | no letter occurs in a numeral, so no numeral can hold "error" or "file" |
| PrintFuncs.FindFrom | pycheckdoc/print_funcs.py:229-231 | the first occurrence at or after the start, or -1 when there is none |
| PrintFuncs.Find | pycheckdoc/print_funcs.py:229-231 | `str.find`: the first occurrence, or -1 |
| PrintFuncs.RFindFrom | pycheckdoc/print_funcs.py:243-245 | the last occurrence at or before the start, or -1 when there is none |
| PrintFuncs.RFind | pycheckdoc/print_funcs.py:243-245 | `str.rfind`: the last occurrence, or -1 |
| PrintFuncs.FindLocates | pycheckdoc/print_funcs.py:229-231 | `find` lands on an occurrence when the pattern's first letter does not appear before it |
| PrintFuncs.RFindLocates | pycheckdoc/print_funcs.py:243-245 | `rfind` lands on an occurrence when the pattern's first letter does not appear in the rest of the pattern or after it |
| PrintFuncs.SpliceAfterFind | pycheckdoc/print_funcs.py:228-232 | cutting at `find(p) + len(p)` and inserting there puts the text right after that occurrence |
| PrintFuncs.SpliceAfterRFind | pycheckdoc/print_funcs.py:242-246 | cutting at `rfind(p) + len(p)` and inserting there puts the text right after that occurrence |
| PrintFuncs.InsertAfter | pycheckdoc/print_funcs.py:228-232 | cutting just after an occurrence and inserting there gives the text with the insertion in place |
| PrintFuncs.ErrorMessage | pycheckdoc/print_funcs.py:213-246 | the three conditional splices give exactly "Found N error(s) in F source file(s) (checked M source file(s))", each "s" present exactly when its own count exceeds 1 |
| PrintFuncs.SpliceFirstError | pycheckdoc/print_funcs.py:227-232 | the "error" splice pluralises the error noun and nothing else |
| PrintFuncs.SpliceFirstFile | pycheckdoc/print_funcs.py:234-239 | `find("file")` lands on the failing-file noun, whether or not "error" was pluralised |
| PrintFuncs.SpliceLastFile | pycheckdoc/print_funcs.py:241-246 | `rfind("file")` still lands on the checked-files noun after the first "file" was pluralised |
| PrintFuncs.ErrorTextLength | pycheckdoc/print_funcs.py:222-246 | the summary is the singular sentence lengthened by one letter per count above 1 |
| PrintFuncs.ErrorTextSingular | pycheckdoc/print_funcs.py:227-246 | counts of 1, 0 or less leave the sentence singular |
| PrintFuncs.ErrorTextAllSingular | pycheckdoc/print_funcs.py:222-246 | 1, 1, 1 give "Found 1 error in 1 source file (checked 1 source file)" |
| PrintFuncs.ErrorTextMixedPlurals | pycheckdoc/print_funcs.py:222-246 | 2, 1, 3 give "Found 2 errors in 1 source file (checked 3 source files)" |
| PrintFuncs.SuccessText | pycheckdoc/print_funcs.py:251-267 | the success line ends in "files" exactly when the count exceeds 1, then a newline |
| PrintFuncs.SummaryText | pycheckdoc/check_doc.py:46-49 | the summary ends its line; it starts with "Found " exactly when the verdict is a failure and with "Success: " exactly when it is a pass |
| PrintFuncs.LineTagInsertion | pycheckdoc/print_funcs.py:44-51 | with the tag the error line is the untagged line with " <line>:" inserted right after "<module>.py:"; without it the line does not depend on the line number |
| PrintFuncs.ModuleErrText | pycheckdoc/print_funcs.py:28-63 | the module error line starts with "<module>.py:" and ends with " module_err " and the error ending; it is the untagged line exactly when the line number is not 0 |
| PrintFuncs.FunctionErrText | pycheckdoc/print_funcs.py:90-127 | the function error line starts with "<module>.py:" and ends with " func_err: <function>" and the error ending; it is the untagged line exactly when the line number is 0 |
| PrintFuncs.ClassErrText | pycheckdoc/print_funcs.py:130-166 | the class error line starts with "<module>.py:" and ends with " class_err: <class>" and the error ending; it is the untagged line exactly when the line number is 0 |
| PrintFuncs.MethodErrText | pycheckdoc/print_funcs.py:169-210 | the method error line starts with "<module>.py:" and ends with " method_err: <class>: <method>" and the error ending; it is the untagged line exactly when the line number is 0 |
| PrintFuncs.ReportText | pycheckdoc/print_funcs.py:28-210 | every report a checker makes prints as one line that starts with its module's file name |
| PrintFuncs.ErrSuffix | pycheckdoc/print_funcs.py:103-127 | with a truthy `err` the line ends in ": <err>" and a newline, otherwise in the bare newline |
| PrintFuncs.SiblingLineShownIffNonZero | pycheckdoc/print_funcs.py:108-115 | function, class and method error lines differ from the line-0 form exactly when the line is not 0 |
| PrintFuncs.ModuleLineShownIffZero | pycheckdoc/print_funcs.py:44-51 | the module error line differs from the line-1 form exactly when the line is 0 (inverted as written) |
| PrintFuncs.SuccessMsgSuffix | pycheckdoc/print_funcs.py:7-25 | a truthy message replaces the closing newline of a success line by "  : <msg>" and a newline |
| PrintFuncs.ModuleSuccessText | pycheckdoc/print_funcs.py:7-25 | the module success line starts with a tab, the marker, the arrow and "<module>.py ", and ends with "  : <msg>" and a newline for a truthy message, else with a newline |
| PrintFuncs.FunctionSuccessText | pycheckdoc/print_funcs.py:66-87 | the function success line starts with a tab, the marker, the arrow and "<module>.py : <function> ", and ends as the module success line does |
| Reflection.FunctionsDefinedIn | pycheckdoc/check_function.py:20-24 | keeps exactly the function members whose defining module is the given one, in listing order |
| Reflection.ClassesDefinedIn | pycheckdoc/check_class.py:20-24 | keeps exactly the class members whose defining module is the given one, in listing order |
| Reflection.FunctionsDefinedInAppend | pycheckdoc/check_function.py:20-24 | the function filter keeps listing order: filtering a concatenation is filtering each part, one after the other |
| Reflection.ClassesDefinedInAppend | pycheckdoc/check_class.py:20-24 | the class filter keeps listing order: filtering a concatenation is filtering each part, one after the other |
| Reflection.FunctionsDefinedInSkips | pycheckdoc/check_function.py:20-24 | a function member from another module drops out of the filter wherever it is listed |
| Reflection.ClassesDefinedInSkips | pycheckdoc/check_class.py:20-24 | a class member from another module drops out of the filter wherever it is listed |
| Reflection.MissingFunctions | pycheckdoc/check_function.py:41-55 | the number of functions with a falsy `__doc__` is at most the number examined |
| Reflection.MissingClasses | pycheckdoc/check_class.py:85-95 | the number of classes with a falsy `__doc__` is at most the number examined |
| Reflection.MissingFunctionsZeroIff | pycheckdoc/check_function.py:43-55 | the count is 0 exactly when every function examined has a truthy `__doc__` |
| Reflection.MissingClassesZeroIff | pycheckdoc/check_class.py:88-95 | the class count is 0 exactly when every class examined has a truthy `__doc__` |
| ModuleCheck.CheckModuleDoc | pycheckdoc/check_module.py:22-32 | the result is 0 or 1; it is 1 exactly when `__doc__` is falsy and the source line is available, with one module report at that line; a truthy doc, or an `OSError` from `getsourcelines`, gives 0 and no report |
| ModuleCheck.CheckModuleDocCases | tests/test_pycheckdoc/test_check_module.py:9-65 | documented module 0, undocumented module 1, a string or an int 0, a documented class 0, an undocumented class 1 |
| ModuleCheck.EmptyDocIsMissing | pycheckdoc/check_module.py:23 | an empty `__doc__` is treated as no `__doc__` |
| FunctionCheck.GetFunctions | pycheckdoc/check_function.py:11-26 | exactly the module's function members whose `__module__` is the module's name, so imported functions are left out |
| FunctionCheck.CheckFunctionDocSingle | pycheckdoc/check_function.py:29-55 | the count equals the number of kept functions with a falsy `__doc__` and is at most their number; one function report each, in order, with its line |
| FunctionCheck.SingleCounts | pycheckdoc/check_function.py:68 | one per-module count per module |
| FunctionCheck.CheckFunctionDoc | pycheckdoc/check_function.py:58-86 | the nested loops' count is the single-module count summed over the list, and the reports are the single-module reports one module after another |
| FunctionCheck.FunctionStep | pycheckdoc/check_function.py:43-53 | one more function adds 1 to the count and one report exactly when its `__doc__` is falsy |
| FunctionCheck.ModuleStep | pycheckdoc/check_function.py:68-84 | one more module appends its single-module count and reports to those of the modules before it |
| FunctionCheck.TwoModuleSum | pycheckdoc/check_function.py:58-86 | over two modules the count is the two single-module counts added |
| FunctionCheck.ReportPerMissingFunction | pycheckdoc/check_function.py:43-53 | exactly one report per counted function |
| FunctionCheck.NoMissingFunctionIff | pycheckdoc/check_function.py:39-55 | the single-module count is 0 exactly when every function defined in the module has a truthy `__doc__` |
| FunctionCheck.ImportedFunctionIgnored | pycheckdoc/check_function.py:20-24 | a function defined elsewhere, documented or not and at any position in the listing, changes neither the functions examined, nor the count, nor the reports |
| FunctionCheck.WithDocThenNoDoc | tests/test_pycheckdoc/test_check_function.py:33-42 | the documented module followed by the one with an undocumented own function (and an undocumented imported one) sums to 1 |
| FunctionCheck.WithDocModuleCount | tests/test_pycheckdoc/test_check_function.py:33-42 | the documented module keeps its one function and counts 0 |
| FunctionCheck.NoDocModuleCount | tests/test_pycheckdoc/test_check_function.py:33-42 | the undocumented module keeps only its own function, dropping the imported `join`, and counts 1 |
| ClassCheck.GetClasses | pycheckdoc/check_class.py:11-26 | exactly the module's class members whose `__module__` is the module's name |
| ClassCheck.GetMethods | pycheckdoc/check_class.py:29-44 | exactly the class's function members whose `__module__` is the class's module, inherited ones from that module included |
| ClassCheck.ImportedClassIgnored | pycheckdoc/check_class.py:20-24 | a class defined elsewhere, at any position in the listing, leaves the classes examined unchanged |
| ClassCheck.CheckMethodDoc | pycheckdoc/check_class.py:47-71 | the count equals the number of kept methods with a falsy `__doc__` and is at most their number; one method report each, naming the method's own module |
| ClassCheck.CheckClassDoc | pycheckdoc/check_class.py:74-99 | the first count is the undocumented kept classes (at most their number); the second is the method count summed over all kept classes, documented or not, and at most the number of methods; the reports go class by class, the class's own report first |
| ClassCheck.MissingMethodsBounded | pycheckdoc/check_class.py:88-97 | the method count never exceeds the number of methods examined |
| ClassCheck.ReportPerMissingMethod | pycheckdoc/check_class.py:61-69 | exactly one report per counted method |
| ClassCheck.ReportPerMissingClassOrMethod | pycheckdoc/check_class.py:88-97 | the reports number the undocumented classes plus the undocumented methods |
| ClassCheck.ClassTestCases | tests/test_pycheckdoc/test_check_class.py:6-29 | `NoDoc` with two undocumented methods gives 2 and its module (1, 2); `WithDoc` gives 0 and (0, 0) |
| CheckDoc.ErrorCounts | pycheckdoc/check_doc.py:32-41 | one four-count sum per module |
| CheckDoc.Run | pycheckdoc/check_doc.py:22-49 | the error count is the sum of the per-module four-count sums; the error files are the modules with a positive sum, at most the modules and at most the errors; the verdict is failure exactly when the count is non-zero; the printed summary is the failure sentence for that verdict or the success line for the number of modules, ending its line either way |
| CheckDoc.PrefixStep | pycheckdoc/check_doc.py:32-41 | checking one more module appends its count and its reports to those before it |
| CheckDoc.ReportPerError | pycheckdoc/check_doc.py:32-41 | over a run, the number of reports equals the error count |
| CheckDoc.ErrorCountsOf | pycheckdoc/check_doc.py:32-41 | the per-module counts are the four-count sum applied module by module |
| CheckDoc.RunOrderIndependent | pycheckdoc/check_doc.py:32-49 | any reordering of the imported modules gives the same error count, error files and verdict |

## Left out

- `pycheckdoc_v2/generate_ast.py` is not part of this model. It reads files, runs `ast.parse` in a process pool and walks directories. `AstMain.Run` takes the parsed `(path, tree)` list as a parameter.
- `pycheckdoc/import_modules.py` is not part of this model. It changes `sys.path`, imports modules with a 1-second process timeout and redirects stdout and stderr to a temporary file. `CheckDoc.Run` takes the imported modules as a parameter.
- `AstMain.Run` takes the modules as a parameter. `pycheckdoc_v2/main.py` line 22 calls `get_ast()` with no arguments, though the function needs the paths.
- `ast.parse`, `inspect.getmembers` and `inspect.getsourcelines` are not modelled. Their results are inputs: the tree, the member lists in the order `getmembers` gives them (sorted by name), and each member's line.
- `ast.get_docstring`'s `cleandoc` whitespace trimming is not modelled. A docstring of only whitespace therefore counts as documented here.
- An `OSError` from `getsourcelines` is modelled only where the code catches it, in the module check. For functions, classes and methods the exception would escape the checker, and the model assumes their lines are available.
- Terminal colour codes, the stdout/stderr choice and `print` itself are not modelled. Reports are returned as `Events.Report` values and the summary as a string.
- The AST checker's module report carries line 0. `pycheckdoc_v2/check_module.py` calls its module printer without a line, and the default 0 is taken from `print_module_err` in `pycheckdoc/print_funcs.py` line 29.
- `pycheckdoc_v2/print_funcs.py` is not part of this model. The AST checker's reports and verdict are the same events, but their text is given only for the reflection checker's `print_funcs.py`.
- The usage text (`usage.py`) and the import-time argv check in `pycheckdoc/check_doc.py` (lines 8-10) are not modelled. `AstMain.Run` models v2's argv check as the `UsageExit(1)` outcome.
- The `__main__` blocks of the check modules and `setup.py` are not modelled.
- The per-declaration success helpers (`print_module_success`, `print_function_success`) are modelled as text only. No checker calls them.
- The test fixtures `no_doc` and `with_doc` are not part of this model. The test-case lemmas build inputs with the expected documentation and take the expected values from the tests.
