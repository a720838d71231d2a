/**
 * The part of a Python syntax tree (the `ast` module) the v2 checkers read:
 * a module's body, the definitions in it and their docstrings.
 */
module PyAst {
  import opened PyValues

  datatype Stmt =
    | FunctionDef(name: string, lineno: nat, body: seq<Stmt>)
    | AsyncFunctionDef(name: string, lineno: nat, body: seq<Stmt>)
    | ClassDef(name: string, lineno: nat, body: seq<Stmt>)
      /** An expression statement holding a string constant. */
    | StrExpr(value: string)
      /** A statement with a nested block (if, for, while, with, try). */
    | Compound(body: seq<Stmt>)
      /** Any other statement. */
    | Other

  /** `ast.Module`. */
  datatype Tree = Module(body: seq<Stmt>)

  /** `type(node)`: the checkers compare it against `ast.FunctionDef` and `ast.ClassDef`. */
  datatype NodeType = FunctionDefType | AsyncFunctionDefType | ClassDefType | ExprType | CompoundType | OtherType

  function TypeOf(s: Stmt): NodeType {
    match s
    case FunctionDef(_, _, _) => FunctionDefType
    case AsyncFunctionDef(_, _, _) => AsyncFunctionDefType
    case ClassDef(_, _, _) => ClassDefType
    case StrExpr(_) => ExprType
    case Compound(_) => CompoundType
    case Other => OtherType
  }

  /** The node kinds `ast.get_docstring` accepts besides a module. */
  predicate IsDef(s: Stmt) {
    s.FunctionDef? || s.AsyncFunctionDef? || s.ClassDef?
  }

  /** `ast.get_docstring` on a node with this body: the first statement, when it is a string constant. */
  function Docstring(body: seq<Stmt>): (r: Option<string>)
    ensures r.Some? ==> |body| > 0 && body[0] == StrExpr(r.value)
    ensures r.None? ==> body == [] || !body[0].StrExpr?
  {
    if |body| > 0 && body[0].StrExpr? then Some(body[0].value) else None
  }

  /** The checkers' test is `not ast.get_docstring(node)`: an absent or empty docstring counts as missing. */
  predicate Documented(body: seq<Stmt>) {
    Truthy(Docstring(body))
  }

  /** A definition whose docstring is absent or empty. */
  predicate MissingDoc(s: Stmt) {
    IsDef(s) && !Documented(s.body)
  }

  /**
   * `[node for node in body if type(node) is t]`: the direct children of
   * exactly that type, in source order.
   */
  function NodesOfType(body: seq<Stmt>, t: NodeType): (r: seq<Stmt>)
    ensures |r| <= |body|
    ensures forall s :: s in r <==> s in body && TypeOf(s) == t
  {
    if body == [] then []
    else (if TypeOf(body[0]) == t then [body[0]] else []) + NodesOfType(body[1..], t)
  }

  /** The filter keeps source order: it distributes over concatenation. */
  lemma {:induction false} NodesOfTypeAppend(a: seq<Stmt>, b: seq<Stmt>, t: NodeType)
    ensures NodesOfType(a + b, t) == NodesOfType(a, t) + NodesOfType(b, t)
  {
    if a == [] {
      assert a + b == b;
    } else {
      assert (a + b)[0] == a[0];
      assert (a + b)[1..] == a[1..] + b;
      NodesOfTypeAppend(a[1..], b, t);
    }
  }

  /** A statement of another type anywhere in a body leaves the selection unchanged. */
  lemma NodesOfTypeSkips(a: seq<Stmt>, s: Stmt, b: seq<Stmt>, t: NodeType)
    requires TypeOf(s) != t
    ensures NodesOfType(a + [s] + b, t) == NodesOfType(a + b, t)
  {
    NodesOfTypeAppend(a + [s], b, t);
    NodesOfTypeAppend(a, [s], t);
    NodesOfTypeAppend(a, b, t);
  }

  /** Number of definitions whose docstring is missing, counted from the front as the loops do. */
  function MissingCount(nodes: seq<Stmt>): (r: nat)
    ensures r <= |nodes|
  {
    if nodes == [] then 0
    else MissingCount(nodes[..|nodes| - 1]) + (if MissingDoc(nodes[|nodes| - 1]) then 1 else 0)
  }

  /** The count is zero exactly when every node is documented. */
  lemma {:induction false} MissingCountZero(nodes: seq<Stmt>)
    ensures MissingCount(nodes) == 0 <==> forall s :: s in nodes ==> !MissingDoc(s)
  {
    if nodes != [] {
      var init := nodes[..|nodes| - 1];
      MissingCountZero(init);
      assert nodes == init + [nodes[|nodes| - 1]];
    }
  }

  /** A leading non-empty string constant is a docstring; anything else in first place is not. */
  lemma DocumentedIff(body: seq<Stmt>)
    ensures Documented(body) <==> |body| > 0 && body[0].StrExpr? && body[0].value != ""
  {
  }
}
