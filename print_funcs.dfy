/**
 * The text of pycheckdoc's messages (pycheckdoc/print_funcs.py), without the
 * terminal colour codes: the per-declaration error and success lines, the
 * success summary, and the failure summary whose plural endings are spliced in
 * by `str.find` / `str.rfind`.
 */
module PrintFuncs {
  import opened PyValues
  import opened Events

  // ---------------------------------------------------------------------------
  // Python's str(int), str.find and str.rfind

  function DigitChar(d: nat): (c: char)
    requires d < 10
    ensures '0' <= c <= '9'
  {
    ('0' as int + d) as char
  }

  /** Decimal digits of a natural number, most significant first. */
  function NatStr(n: nat): (r: string)
    ensures r != []
    ensures forall k :: 0 <= k < |r| ==> '0' <= r[k] <= '9'
  {
    if n < 10 then [DigitChar(n)] else NatStr(n / 10) + [DigitChar(n % 10)]
  }

  /** `str(n)` for a Python int: digits, with a leading minus sign when negative. */
  function IntStr(n: int): (r: string)
    ensures r != []
    ensures forall k :: 0 <= k < |r| ==> r[k] == '-' || '0' <= r[k] <= '9'
  {
    if n < 0 then "-" + NatStr(-n) else NatStr(n)
  }

  /** A decimal numeral holds no letter, so it never contains "error" or "file". */
  lemma NoLetterInNumeral(n: int, c: char)
    requires c != '-' && !('0' <= c <= '9')
    ensures c !in IntStr(n)
  {
  }

  /** `p` occurs in `s` starting at index `i`. */
  predicate OccursAt(s: string, p: string, i: int) {
    0 <= i && i + |p| <= |s| && s[i..i + |p|] == p
  }

  function FindFrom(s: string, p: string, k: nat): (r: int)
    ensures r == -1 ==> forall j :: k <= j ==> !OccursAt(s, p, j)
    ensures r != -1 ==> k <= r && OccursAt(s, p, r)
    ensures r != -1 ==> forall j :: k <= j < r ==> !OccursAt(s, p, j)
    decreases |s| - k
  {
    if k + |p| > |s| then -1
    else if s[k..k + |p|] == p then k
    else FindFrom(s, p, k + 1)
  }

  /** `s.find(p)`: the lowest index where `p` occurs, or -1. */
  function Find(s: string, p: string): (r: int)
    ensures r == -1 ==> forall j :: !OccursAt(s, p, j)
    ensures r != -1 ==> OccursAt(s, p, r) && forall j :: j < r ==> !OccursAt(s, p, j)
  {
    FindFrom(s, p, 0)
  }

  function RFindFrom(s: string, p: string, k: int): (r: int)
    ensures r == -1 ==> forall j :: j <= k ==> !OccursAt(s, p, j)
    ensures r != -1 ==> r <= k && OccursAt(s, p, r)
    ensures r != -1 ==> forall j :: r < j <= k ==> !OccursAt(s, p, j)
    decreases k + 1
  {
    if k < 0 then -1
    else if OccursAt(s, p, k) then k
    else RFindFrom(s, p, k - 1)
  }

  /** `s.rfind(p)`: the highest index where `p` occurs, or -1. */
  function RFind(s: string, p: string): (r: int)
    ensures r == -1 ==> forall j :: !OccursAt(s, p, j)
    ensures r != -1 ==> OccursAt(s, p, r) && forall j :: r < j ==> !OccursAt(s, p, j)
  {
    RFindFrom(s, p, |s| - |p|)
  }

  /** When the first letter of `p` does not appear before it, `find` lands on that occurrence. */
  lemma FindLocates(a: string, p: string, b: string)
    requires p != [] && p[0] !in a
    ensures Find(a + p + b, p) == |a|
  {
    var s := a + p + b;
    assert s[|a|..|a| + |p|] == p;
    assert OccursAt(s, p, |a|);
  }

  /**
   * When the first letter of `p` does not reappear in the rest of `p` or in
   * what follows it, `rfind` lands on that occurrence.
   */
  lemma RFindLocates(a: string, p: string, b: string)
    requires p != [] && p[0] !in p[1..] + b
    ensures RFind(a + p + b, p) == |a|
  {
    var s := a + p + b;
    assert s[|a|..|a| + |p|] == p;
    assert OccursAt(s, p, |a|);
    forall j | |a| < j
      ensures !OccursAt(s, p, j)
    {
    }
  }

  /** Splicing `x` in right after the occurrence of `p` that `find` reports. */
  lemma SpliceAfterFind(a: string, p: string, b: string, x: string)
    requires p != [] && p[0] !in a
    ensures var s := a + p + b; var i := Find(s, p);
      0 <= i + |p| <= |s| && s[..i + |p|] + x + s[i + |p|..] == a + p + x + b
  {
    FindLocates(a, p, b);
    InsertAfter(a, p, b, x);
  }

  /** Splicing `x` in right after the occurrence of `p` that `rfind` reports. */
  lemma SpliceAfterRFind(a: string, p: string, b: string, x: string)
    requires p != [] && p[0] !in p[1..] + b
    ensures var s := a + p + b; var i := RFind(s, p);
      0 <= i + |p| <= |s| && s[..i + |p|] + x + s[i + |p|..] == a + p + x + b
  {
    RFindLocates(a, p, b);
    InsertAfter(a, p, b, x);
  }

  /** Cutting just after an occurrence of `p` and putting `x` there. */
  lemma InsertAfter(a: string, p: string, b: string, x: string)
    ensures var s := a + p + b;
      s[..|a| + |p|] + x + s[|a| + |p|..] == a + p + x + b
  {
    var s := a + p + b;
    assert s[..|a| + |p|] == a + p;
    assert s[|a| + |p|..] == b;
  }

  // ---------------------------------------------------------------------------
  // print_error and print_success

  /** The plural ending print_error and print_success add: only for a count above one. */
  function Plural(count: int): string {
    if count > 1 then "s" else ""
  }

  /**
   * The failure summary around the three numerals `n`, `f`, `m`, with `en`,
   * `ef`, `em` appended to "error", the first "file" and the last "file".
   */
  function Sentence(n: string, f: string, m: string, en: string, ef: string, em: string): string {
    "Found " + n + " error" + en + " in " + f + " source file" + ef
    + " (checked " + m + " source file" + em + ")"
  }

  /** The f-string print_error starts from, every noun singular. */
  function BaseErrorText(errorCount: int, errorFiles: int, numModules: int): string {
    Sentence(IntStr(errorCount), IntStr(errorFiles), IntStr(numModules), "", "", "")
  }

  /** The failure summary written out directly, each noun with its own plural ending. */
  function ErrorText(errorCount: int, errorFiles: int, numModules: int): string {
    Sentence(IntStr(errorCount), IntStr(errorFiles), IntStr(numModules),
             Plural(errorCount), Plural(errorFiles), Plural(numModules))
  }

  /**
   * print_error: builds the singular sentence, then splices an "s" after the
   * first "error", after the first "file" and after the last "file", each only
   * when its own count exceeds one. The result is the direct construction.
   */
  method ErrorMessage(errorCount: int, errorFiles: int, numModules: int) returns (errorStr: string)
    ensures errorStr == ErrorText(errorCount, errorFiles, numModules)
  {
    errorStr := BaseErrorText(errorCount, errorFiles, numModules);
    ghost var n, f, m := IntStr(errorCount), IntStr(errorFiles), IntStr(numModules);
    ghost var en, ef, em := Plural(errorCount), Plural(errorFiles), Plural(numModules);
    NoLetterInNumeral(errorCount, 'e');
    NoLetterInNumeral(errorCount, 'f');
    NoLetterInNumeral(errorFiles, 'f');

    if errorCount > 1 {
      SpliceFirstError(n, f, m, "", "");
      var i := Find(errorStr, "error");
      errorStr := errorStr[..i + 5] + "s" + errorStr[i + 5..];
    }
    assert errorStr == Sentence(n, f, m, en, "", "");

    if errorFiles > 1 {
      SpliceFirstFile(n, f, m, en, "");
      var i := Find(errorStr, "file");
      errorStr := errorStr[..i + 4] + "s" + errorStr[i + 4..];
    }
    assert errorStr == Sentence(n, f, m, en, ef, "");

    if numModules > 1 {
      SpliceLastFile(n, f, m, en, ef);
      var i := RFind(errorStr, "file");
      errorStr := errorStr[..i + 4] + "s" + errorStr[i + 4..];
    }
  }

  /** `find("error")` lands on the first noun, so the splice pluralises "error" and nothing else. */
  lemma SpliceFirstError(n: string, f: string, m: string, ef: string, em: string)
    requires 'e' !in n
    ensures var s := Sentence(n, f, m, "", ef, em); var i := Find(s, "error");
      0 <= i + 5 <= |s| && s[..i + 5] + "s" + s[i + 5..] == Sentence(n, f, m, "s", ef, em)
  {
    var a := "Found " + n + " ";
    var b := " in " + f + " source file" + ef + " (checked " + m + " source file" + em + ")";
    assert Sentence(n, f, m, "", ef, em) == a + "error" + b;
    assert Sentence(n, f, m, "s", ef, em) == a + "error" + "s" + b;
    SpliceAfterFind(a, "error", b, "s");
  }

  /** `find("file")` lands on the failing-file noun: nothing before it holds an 'f'. */
  lemma SpliceFirstFile(n: string, f: string, m: string, en: string, em: string)
    requires 'f' !in n && 'f' !in f && 'f' !in en
    ensures var s := Sentence(n, f, m, en, "", em); var i := Find(s, "file");
      0 <= i + 4 <= |s| && s[..i + 4] + "s" + s[i + 4..] == Sentence(n, f, m, en, "s", em)
  {
    var a := "Found " + n + " error" + en + " in " + f + " source ";
    var b := " (checked " + m + " source file" + em + ")";
    assert Sentence(n, f, m, en, "", em) == a + "file" + b;
    assert Sentence(n, f, m, en, "s", em) == a + "file" + "s" + b;
    SpliceAfterFind(a, "file", b, "s");
  }

  /**
   * `rfind("file")` lands on the checked-files noun, whether or not the first
   * "file" was already pluralised: only ")" follows it.
   */
  lemma SpliceLastFile(n: string, f: string, m: string, en: string, ef: string)
    ensures var s := Sentence(n, f, m, en, ef, ""); var i := RFind(s, "file");
      0 <= i + 4 <= |s| && s[..i + 4] + "s" + s[i + 4..] == Sentence(n, f, m, en, ef, "s")
  {
    var a := "Found " + n + " error" + en + " in " + f + " source file" + ef + " (checked " + m + " source ";
    assert Sentence(n, f, m, en, ef, "") == a + "file" + ")";
    assert Sentence(n, f, m, en, ef, "s") == a + "file" + "s" + ")";
    SpliceAfterRFind(a, "file", ")", "s");
  }

  /** Each count above one adds exactly one letter to the singular sentence. */
  lemma ErrorTextLength(errorCount: int, errorFiles: int, numModules: int)
    ensures |ErrorText(errorCount, errorFiles, numModules)|
         == |BaseErrorText(errorCount, errorFiles, numModules)|
            + |Plural(errorCount)| + |Plural(errorFiles)| + |Plural(numModules)|
  {
  }

  /** Counts of 0 and 1 (and negative ones) stay singular: no "s" is spliced in. */
  lemma ErrorTextSingular(errorCount: int, errorFiles: int, numModules: int)
    requires errorCount <= 1 && errorFiles <= 1 && numModules <= 1
    ensures ErrorText(errorCount, errorFiles, numModules) == BaseErrorText(errorCount, errorFiles, numModules)
  {
  }

  /** One error in one failing file out of one checked: every noun singular. */
  lemma ErrorTextAllSingular()
    ensures ErrorText(1, 1, 1) == "Found 1 error in 1 source file (checked 1 source file)"
  {
    assert DigitChar(1) == '1';
    assert IntStr(1) == "1" && Plural(1) == "";
    SentenceWithoutEndings("1", "1", "1");
    SingularLiteral();
  }

  lemma SentenceWithoutEndings(n: string, f: string, m: string)
    ensures Sentence(n, f, m, "", "", "")
         == "Found " + n + " error" + " in " + f + " source file" + " (checked " + m + " source file" + ")"
  {
    assert forall x: string :: x + "" == x;
  }

  // The verifier compares string literals piece by piece.
  lemma SingularLiteral()
    ensures "Found 1 error in 1 source file (checked 1 source file)"
         == "Found " + "1" + " error" + " in " + "1" + " source file" + " (checked " + "1" + " source file" + ")"
  {
    assert "Found 1 error" == "Found " + "1" + " error";
    assert "Found 1 error in 1" == "Found 1 error" + " in " + "1";
    assert "Found 1 error in 1 source file" == "Found 1 error in 1" + " source file";
    assert "Found 1 error in 1 source file (checked 1"
        == "Found 1 error in 1 source file" + " (checked " + "1";
    assert "Found 1 error in 1 source file (checked 1 source file)"
        == "Found 1 error in 1 source file (checked 1" + " source file" + ")";
  }

  /** Two errors in one failing file out of three checked: each noun follows its own count. */
  lemma ErrorTextMixedPlurals()
    ensures ErrorText(2, 1, 3) == "Found 2 errors in 1 source file (checked 3 source files)"
  {
    assert DigitChar(1) == '1' && DigitChar(2) == '2' && DigitChar(3) == '3';
    assert IntStr(1) == "1" && IntStr(2) == "2" && IntStr(3) == "3";
    assert Plural(1) == "" && Plural(2) == "s" && Plural(3) == "s";
    MixedLiteral();
  }

  // The verifier compares string literals piece by piece.
  lemma MixedLiteral()
    ensures "Found 2 errors in 1 source file (checked 3 source files)"
         == "Found " + "2" + " error" + "s" + " in " + "1" + " source file" + "" + " (checked " + "3" + " source file" + "s" + ")"
  {
    assert "Found 2 errors" == "Found " + "2" + " error" + "s";
    assert "Found 2 errors in 1" == "Found 2 errors" + " in " + "1";
    assert "Found 2 errors in 1 source file" == "Found 2 errors in 1" + " source file" + "";
    assert "Found 2 errors in 1 source file (checked 3"
        == "Found 2 errors in 1 source file" + " (checked " + "3";
    assert "Found 2 errors in 1 source file (checked 3 source files)"
        == "Found 2 errors in 1 source file (checked 3" + " source file" + "s" + ")";
  }

  /** print_success, followed by its newline. */
  function SuccessText(numModules: int): (r: string)
    ensures |r| >= 2 && (r[|r| - 2] == 's' <==> numModules > 1) && r[|r| - 1] == '\n'
  {
    "Success: no issues found in " + IntStr(numModules) + " source file" + Plural(numModules) + "\n"
  }

  /** The summary line a verdict is printed as: print_error's sentence or print_success's, each ending its line. */
  function SummaryText(v: Verdict): (r: string)
    ensures EndsWith(r, "\n")
    ensures v.Failed? <==> StartsWith(r, "Found ")
    ensures v.Passed? <==> StartsWith(r, "Success: ")
  {
    match v
    case Failed(errorCount, errorFiles, checked) =>
      var r := ErrorText(errorCount, errorFiles, checked) + "\n";
      assert r[..6] == "Found " && r[0] == 'F';
      r
    case Passed(checked) =>
      var r := SuccessText(checked);
      assert r[..9] == "Success: " && r[0] == 'S';
      r
  }

  predicate StartsWith(s: string, prefix: string) {
    |prefix| <= |s| && s[..|prefix|] == prefix
  }

  predicate EndsWith(s: string, suffix: string) {
    |suffix| <= |s| && s[|s| - |suffix|..] == suffix
  }

  // ---------------------------------------------------------------------------
  // The per-declaration error lines

  /** How an error line ends: ": <err>" and a newline when `err` is truthy, a bare newline otherwise. */
  function ErrTail(err: Option<string>): string {
    if Truthy(err) then ": " + err.value + "\n" else "\n"
  }

  /**
   * The shape the four `*_err` helpers share: "<module>.py:", an optional
   * " <line>:", the helper's marker, then the ending.
   */
  function ErrLine(moduleName: string, showLine: bool, line: int, marker: string, err: Option<string>): (r: string)
    ensures StartsWith(r, moduleName + ".py:")
    ensures EndsWith(r, marker + ErrTail(err))
    ensures !showLine <==> r == moduleName + ".py:" + marker + ErrTail(err)
  {
    var head, tail := moduleName + ".py:", marker + ErrTail(err);
    var tag := if showLine then " " + IntStr(line) + ":" else "";
    assert head + tag + marker + ErrTail(err) == head + tag + tail;
    assert (head + tag + tail)[..|head|] == head;
    assert (head + tag + tail)[|head + tag|..] == tail;
    assert showLine ==> |head + tag + tail| > |head + tail|;
    head + tag + marker + ErrTail(err)
  }

  /** print_module_err: the line tag is printed exactly when `line == 0`, the opposite of its siblings. */
  function ModuleErrText(moduleName: string, err: Option<string>, line: int): (r: string)
    ensures StartsWith(r, moduleName + ".py:")
    ensures EndsWith(r, " module_err " + ErrTail(err))
    ensures line != 0 <==> r == moduleName + ".py:" + " module_err " + ErrTail(err)
  {
    ErrLine(moduleName, line == 0, line, " module_err ", err)
  }

  /** print_function_err: the line tag is printed exactly when `line != 0`. */
  function FunctionErrText(moduleName: string, funcName: string, err: Option<string>, line: int): (r: string)
    ensures StartsWith(r, moduleName + ".py:")
    ensures EndsWith(r, " func_err: " + funcName + ErrTail(err))
    ensures line == 0 <==> r == moduleName + ".py:" + " func_err: " + funcName + ErrTail(err)
  {
    ErrLine(moduleName, line != 0, line, " func_err: " + funcName, err)
  }

  /** print_class_err: the line tag is printed exactly when `line != 0`. */
  function ClassErrText(moduleName: string, className: string, err: Option<string>, line: int): (r: string)
    ensures StartsWith(r, moduleName + ".py:")
    ensures EndsWith(r, " class_err: " + className + ErrTail(err))
    ensures line == 0 <==> r == moduleName + ".py:" + " class_err: " + className + ErrTail(err)
  {
    ErrLine(moduleName, line != 0, line, " class_err: " + className, err)
  }

  /** print_method_err: the line tag is printed exactly when `line != 0`. */
  function MethodErrText(moduleName: string, className: string, methodName: string, err: Option<string>, line: int): (r: string)
    ensures StartsWith(r, moduleName + ".py:")
    ensures EndsWith(r, " method_err: " + className + ": " + methodName + ErrTail(err))
    ensures line == 0 <==> r == moduleName + ".py:" + " method_err: " + className + ": " + methodName + ErrTail(err)
  {
    ErrLine(moduleName, line != 0, line, " method_err: " + className + ": " + methodName, err)
  }

  /**
   * The line a report event is printed as. The checkers never pass `err`, so
   * every report is one line that starts with its module's file name.
   */
  function ReportText(report: Report): (text: string)
    ensures StartsWith(text, report.moduleName + ".py:") && EndsWith(text, "\n")
  {
    match report
    case ModuleErr(moduleName, line) => ModuleErrText(moduleName, None, line)
    case FunctionErr(moduleName, funcName, line) => FunctionErrText(moduleName, funcName, None, line)
    case ClassErr(moduleName, className, line) => ClassErrText(moduleName, className, None, line)
    case MethodErr(moduleName, className, methodName, line) => MethodErrText(moduleName, className, methodName, None, line)
  }

  /**
   * The line tag: a line printed with it is the line printed without it with
   * " <line>:" inserted right after "<module>.py:"; without it, the line
   * number does not show at all.
   */
  lemma LineTagInsertion(moduleName: string, line: int, other: int, marker: string, err: Option<string>)
    ensures ErrLine(moduleName, false, line, marker, err) == ErrLine(moduleName, false, other, marker, err)
    ensures var plain := ErrLine(moduleName, false, line, marker, err);
      |plain| >= |moduleName| + 4
      && ErrLine(moduleName, true, line, marker, err)
         == plain[..|moduleName| + 4] + " " + IntStr(line) + ":" + plain[|moduleName| + 4..]
  {
    var head := moduleName + ".py:";
    var tail := marker + ErrTail(err);
    assert ErrLine(moduleName, false, line, marker, err) == head + tail;
    assert ErrLine(moduleName, false, other, marker, err) == head + tail;
    var tag := " " + IntStr(line) + ":";
    assert ErrLine(moduleName, true, line, marker, err) == head + tag + marker + ErrTail(err);
    assert head + tag + marker + ErrTail(err) == head + " " + IntStr(line) + ":" + tail;
    assert |head| == |moduleName| + 4;
    assert (head + tail)[..|head|] == head;
    assert (head + tail)[|head|..] == tail;
  }

  /**
   * The `err` suffix: a truthy `err` replaces the closing newline by
   * ": <err>" and a newline; a falsy one (None or "") changes nothing.
   */
  lemma ErrSuffix(moduleName: string, showLine: bool, line: int, marker: string, err: Option<string>)
    ensures var plain := ErrLine(moduleName, showLine, line, marker, None);
      plain != [] && plain[|plain| - 1] == '\n'
      && ErrLine(moduleName, showLine, line, marker, err)
         == if Truthy(err) then plain[..|plain| - 1] + ": " + err.value + "\n" else plain
  {
    var body := moduleName + ".py:" + (if showLine then " " + IntStr(line) + ":" else "") + marker;
    var plain := ErrLine(moduleName, showLine, line, marker, None);
    assert plain == body + ErrTail(None);
    assert plain[..|plain| - 1] == body;
    assert ErrLine(moduleName, showLine, line, marker, err) == body + ErrTail(err);
    if Truthy(err) {
      assert body + ErrTail(err) == body + ": " + err.value + "\n";
    }
  }

  /** print_function_err, print_class_err, print_method_err: the line shows iff it is not 0. */
  lemma SiblingLineShownIffNonZero(moduleName: string, name: string, className: string, err: Option<string>, line: int)
    ensures FunctionErrText(moduleName, name, err, line) == FunctionErrText(moduleName, name, err, 0) <==> line == 0
    ensures ClassErrText(moduleName, name, err, line) == ClassErrText(moduleName, name, err, 0) <==> line == 0
    ensures MethodErrText(moduleName, className, name, err, line) == MethodErrText(moduleName, className, name, err, 0) <==> line == 0
  {
    LineTagInsertion(moduleName, line, 0, " func_err: " + name, err);
    LineTagInsertion(moduleName, line, 0, " class_err: " + name, err);
    LineTagInsertion(moduleName, line, 0, " method_err: " + className + ": " + name, err);
  }

  /** print_module_err as written: the line shows only when it is 0, and then as " 0:". */
  lemma ModuleLineShownIffZero(moduleName: string, err: Option<string>, line: int)
    ensures ModuleErrText(moduleName, err, line) == ModuleErrText(moduleName, err, 1) <==> line != 0
    ensures var plain := ModuleErrText(moduleName, err, 1);
      ModuleErrText(moduleName, err, 0) == plain[..|moduleName| + 4] + " 0:" + plain[|moduleName| + 4..]
  {
    LineTagInsertion(moduleName, 0, 1, " module_err ", err);
    assert IntStr(0) == "0";
  }

  // ---------------------------------------------------------------------------
  // The per-declaration success lines (never called by the checkers)

  /** How a success line ends: "  : <msg>" and a newline when `msg` is truthy, a bare newline otherwise. */
  function SuccessTail(msg: Option<string>): string {
    if Truthy(msg) then "  : " + msg.value + "\n" else "\n"
  }

  /** print_module_success and print_function_success: "\t<marker>  -> <subject> " then the ending. */
  function SuccessLine(marker: string, subject: string, msg: Option<string>): (r: string)
    ensures StartsWith(r, "\t" + marker + "  -> " + subject + " ")
    ensures EndsWith(r, SuccessTail(msg))
  {
    var head := "\t" + marker + "  -> " + subject + " ";
    assert (head + SuccessTail(msg))[..|head|] == head;
    assert (head + SuccessTail(msg))[|head|..] == SuccessTail(msg);
    head + SuccessTail(msg)
  }

  /** print_module_success: the module's file name after the marker, then the message or a newline. */
  function ModuleSuccessText(moduleName: string, msg: Option<string>): (r: string)
    ensures StartsWith(r, "\t" + " module_suc" + "  -> " + moduleName + ".py" + " ")
    ensures EndsWith(r, SuccessTail(msg))
  {
    SuccessLine(" module_suc", moduleName + ".py", msg)
  }

  /** print_function_success: "<module>.py : <function>" after the marker, then the message or a newline. */
  function FunctionSuccessText(moduleName: string, funcName: string, msg: Option<string>): (r: string)
    ensures StartsWith(r, "\t" + " func_suc" + "  -> " + moduleName + ".py : " + funcName + " ")
    ensures EndsWith(r, SuccessTail(msg))
  {
    SuccessLine(" func_suc", moduleName + ".py : " + funcName, msg)
  }

  /** A truthy message replaces the closing newline by " : <msg>" and a newline. */
  lemma SuccessMsgSuffix(marker: string, subject: string, msg: Option<string>)
    ensures var plain := SuccessLine(marker, subject, None);
      plain != [] && plain[|plain| - 1] == '\n'
      && SuccessLine(marker, subject, msg)
         == if Truthy(msg) then plain[..|plain| - 1] + "  : " + msg.value + "\n" else plain
  {
    var body := "\t" + marker + "  -> " + subject + " ";
    var plain := SuccessLine(marker, subject, None);
    assert plain == body + "\n";
    assert plain[..|plain| - 1] == body;
    if Truthy(msg) {
      assert SuccessLine(marker, subject, msg) == body + ("  : " + msg.value + "\n");
    } else {
      assert SuccessLine(marker, subject, msg) == body + "\n";
    }
  }
}
