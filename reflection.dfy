/**
 * What the reflection checker sees of an imported module: the members
 * `inspect.getmembers` lists, each with the module it was defined in, its
 * `__doc__` and the line `inspect.getsourcelines` gives for it.
 */
module Reflection {
  import opened PyValues

  /** A function or method object. */
  datatype FunctionObj = FunctionObj(name: string, definingModule: string, doc: Option<string>, line: int)

  /** A class object and the function members `getmembers(cls, isfunction)` lists for it, inherited ones included. */
  datatype ClassObj = ClassObj(name: string, definingModule: string, doc: Option<string>, line: int,
                               functions: seq<FunctionObj>)

  /**
   * An imported module: its name, `__doc__`, the line `getsourcelines` gives
   * for it (None when that raises OSError), and its function and class
   * members as `getmembers` lists them, imported ones included.
   */
  datatype ModuleObj = ModuleObj(name: string, doc: Option<string>, sourceLine: Option<int>,
                                 functions: seq<FunctionObj>, classes: seq<ClassObj>)

  /** The function members whose `__module__` is `moduleName`, in listing order. */
  function FunctionsDefinedIn(fs: seq<FunctionObj>, moduleName: string): (r: seq<FunctionObj>)
    ensures |r| <= |fs|
    ensures forall f :: f in r <==> f in fs && f.definingModule == moduleName
  {
    if fs == [] then []
    else
      var last := fs[|fs| - 1];
      FunctionsDefinedIn(fs[..|fs| - 1], moduleName) + (if last.definingModule == moduleName then [last] else [])
  }

  /** The class members whose `__module__` is `moduleName`, in listing order. */
  function ClassesDefinedIn(cs: seq<ClassObj>, moduleName: string): (r: seq<ClassObj>)
    ensures |r| <= |cs|
    ensures forall c :: c in r <==> c in cs && c.definingModule == moduleName
  {
    if cs == [] then []
    else
      var last := cs[|cs| - 1];
      ClassesDefinedIn(cs[..|cs| - 1], moduleName) + (if last.definingModule == moduleName then [last] else [])
  }

  /** The filter keeps listing order: it distributes over concatenation. */
  lemma {:induction false} FunctionsDefinedInAppend(a: seq<FunctionObj>, b: seq<FunctionObj>, moduleName: string)
    ensures FunctionsDefinedIn(a + b, moduleName) == FunctionsDefinedIn(a, moduleName) + FunctionsDefinedIn(b, moduleName)
  {
    if b == [] {
      assert a + b == a;
    } else {
      var init := b[..|b| - 1];
      assert (a + b)[..|a + b| - 1] == a + init;
      assert (a + b)[|a + b| - 1] == b[|b| - 1];
      FunctionsDefinedInAppend(a, init, moduleName);
    }
  }

  /** The class filter keeps listing order: it distributes over concatenation. */
  lemma {:induction false} ClassesDefinedInAppend(a: seq<ClassObj>, b: seq<ClassObj>, moduleName: string)
    ensures ClassesDefinedIn(a + b, moduleName) == ClassesDefinedIn(a, moduleName) + ClassesDefinedIn(b, moduleName)
  {
    if b == [] {
      assert a + b == a;
    } else {
      var init := b[..|b| - 1];
      assert (a + b)[..|a + b| - 1] == a + init;
      assert (a + b)[|a + b| - 1] == b[|b| - 1];
      ClassesDefinedInAppend(a, init, moduleName);
    }
  }

  /** A function member defined elsewhere drops out of the filter wherever it is listed. */
  lemma FunctionsDefinedInSkips(a: seq<FunctionObj>, f: FunctionObj, b: seq<FunctionObj>, moduleName: string)
    requires f.definingModule != moduleName
    ensures FunctionsDefinedIn(a + [f] + b, moduleName) == FunctionsDefinedIn(a + b, moduleName)
  {
    assert FunctionsDefinedIn([f], moduleName) == [] by {
      assert [f][..0] == [];
    }
    FunctionsDefinedInAppend(a, [f], moduleName);
    FunctionsDefinedInAppend(a + [f], b, moduleName);
    FunctionsDefinedInAppend(a, b, moduleName);
  }

  /** A class member defined elsewhere drops out of the filter wherever it is listed. */
  lemma ClassesDefinedInSkips(a: seq<ClassObj>, c: ClassObj, b: seq<ClassObj>, moduleName: string)
    requires c.definingModule != moduleName
    ensures ClassesDefinedIn(a + [c] + b, moduleName) == ClassesDefinedIn(a + b, moduleName)
  {
    assert ClassesDefinedIn([c], moduleName) == [] by {
      assert [c][..0] == [];
    }
    ClassesDefinedInAppend(a, [c], moduleName);
    ClassesDefinedInAppend(a + [c], b, moduleName);
    ClassesDefinedInAppend(a, b, moduleName);
  }

  /** Number of functions whose `__doc__` is None or empty. */
  function MissingFunctions(fs: seq<FunctionObj>): (r: nat)
    ensures r <= |fs|
  {
    if fs == [] then 0
    else MissingFunctions(fs[..|fs| - 1]) + (if Truthy(fs[|fs| - 1].doc) then 0 else 1)
  }

  /** Number of classes whose `__doc__` is None or empty. */
  function MissingClasses(cs: seq<ClassObj>): (r: nat)
    ensures r <= |cs|
  {
    if cs == [] then 0
    else MissingClasses(cs[..|cs| - 1]) + (if Truthy(cs[|cs| - 1].doc) then 0 else 1)
  }

  /** No function is missing its documentation exactly when every one has a truthy `__doc__`. */
  lemma {:induction false} MissingFunctionsZeroIff(fs: seq<FunctionObj>)
    ensures MissingFunctions(fs) == 0 <==> forall f :: f in fs ==> Truthy(f.doc)
  {
    if fs != [] {
      var init := fs[..|fs| - 1];
      MissingFunctionsZeroIff(init);
      assert fs == init + [fs[|fs| - 1]];
    }
  }

  /** No class is missing its documentation exactly when every one has a truthy `__doc__`. */
  lemma {:induction false} MissingClassesZeroIff(cs: seq<ClassObj>)
    ensures MissingClasses(cs) == 0 <==> forall c :: c in cs ==> Truthy(c.doc)
  {
    if cs != [] {
      var init := cs[..|cs| - 1];
      MissingClassesZeroIff(init);
      assert cs == init + [cs[|cs| - 1]];
    }
  }
}
