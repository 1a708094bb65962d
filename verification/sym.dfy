/**
 * The symbol table (sym.go): a stack of scope frames, innermost last, and an
 * optional binding of the current array element.
 *
 * Every lookup scans the frames from the innermost outwards and stops at the
 * first frame that has the key: an inner frame shadows the outer ones and is
 * never merged with them. `indirect` is the identity on `Value`s, which are
 * already unwrapped.
 */
module Sym {
  import opened Wrappers
  import opened Values

  /**
   * `scope` holds the frames, innermost last; `elem` is the bound array
   * element, `Nil` (Go's zero `reflect.Value`) when none is bound.
   */
  datatype SymTab = SymTab(scope: seq<map<string, Value>>, elem: Value)

  /** Frame `i` is the innermost frame that has `key`. */
  predicate Innermost(scope: seq<map<string, Value>>, key: string, i: int) {
    && 0 <= i < |scope|
    && key in scope[i]
    && forall j :: i < j < |scope| ==> key !in scope[j]
  }

  /** The value bound to `key` in the innermost frame that has it. */
  function Find(scope: seq<map<string, Value>>, key: string): (r: Option<Value>)
    decreases |scope|
  {
    if scope == [] then None
    else if key in scope[|scope| - 1] then Some(scope[|scope| - 1][key])
    else Find(scope[..|scope| - 1], key)
  }

  /** `Find` returns the binding of the innermost frame that has the key. */
  lemma {:induction false} FindInnermost(scope: seq<map<string, Value>>, key: string, i: int)
    requires Innermost(scope, key, i)
    ensures Find(scope, key) == Some(scope[i][key])
    decreases |scope|
  {
    if i < |scope| - 1 {
      var init := scope[..|scope| - 1];
      assert Innermost(init, key, i);
      FindInnermost(init, key, i);
    }
  }

  /** `Find` finds nothing exactly when no frame has the key. */
  lemma {:induction false} FindNone(scope: seq<map<string, Value>>, key: string)
    ensures Find(scope, key).None? <==> forall i :: 0 <= i < |scope| ==> key !in scope[i]
    decreases |scope|
  {
    if scope != [] {
      var init := scope[..|scope| - 1];
      FindNone(init, key);
      assert forall i :: 0 <= i < |init| ==> init[i] == scope[i];
    }
  }

  /** When some frame has the key, one of them is the innermost. */
  lemma {:induction false} InnermostExists(scope: seq<map<string, Value>>, key: string, k: int)
    requires 0 <= k < |scope| && key in scope[k]
    ensures exists i :: Innermost(scope, key, i)
    decreases |scope| - k
  {
    if !Innermost(scope, key, k) {
      var j :| k < j < |scope| && key in scope[j];
      InnermostExists(scope, key, j);
    }
  }

  /** `newsymtab`: a single frame holding the data, and no array element. */
  function NewSymTab(data: map<string, Value>): (s: SymTab)
    ensures |s.scope| == 1 && s.scope[0] == data && s.elem == Nil
    ensures forall key :: Find(s.scope, key) == (if key in data then Some(data[key]) else None)
  {
    SymTab([data], Nil)
  }

  /** `EnterObject`: `obj` becomes the innermost frame, and no array element is bound. */
  function EnterObject(s: SymTab, obj: map<string, Value>): (t: SymTab)
    ensures t.scope == s.scope + [obj] && t.elem == Nil
    ensures forall key :: Find(t.scope, key) == (if key in obj then Some(obj[key]) else Find(s.scope, key))
  {
    var t := SymTab(s.scope + [obj], Nil);
    assert t.scope[..|t.scope| - 1] == s.scope;
    t
  }

  /** `EnterArrayElem`: the frames stay as they are and `elem` is bound. */
  function EnterArrayElem(s: SymTab, elem: Value): (t: SymTab)
    ensures t.scope == s.scope && t.elem == elem
  {
    SymTab(s.scope, elem)
  }

  /** `Ifdef`: the bound element for the empty key, else whether any frame has the key. */
  function Ifdef(s: SymTab, key: string): (b: bool)
    ensures b <==> (key == "" && s.elem != Nil) || exists i :: 0 <= i < |s.scope| && key in s.scope[i]
  {
    FindNone(s.scope, key);
    (key == "" && s.elem != Nil) || Find(s.scope, key).Some?
  }

  /** `Ifndef`: the negation of `Ifdef`. */
  function Ifndef(s: SymTab, key: string): (b: bool)
    ensures b <==> !((key == "" && s.elem != Nil) || exists i :: 0 <= i < |s.scope| && key in s.scope[i])
  {
    !Ifdef(s, key)
  }

  /**
   * `Print`: the printed form of the bound element for the empty key, else of
   * the innermost binding, else the empty string. A key bound to `Nil` makes
   * Go's `Interface()` panic, modelled as `None`.
   */
  function Print(s: SymTab, key: string): (r: Option<string>)
  {
    if key == "" && s.elem != Nil then Some(Show(s.elem))
    else
      match Find(s.scope, key)
      case None => Some("")
      case Some(v) => if v == Nil then None else Some(Show(v))
  }

  /** `Array`: the innermost binding of the key when it is a non-nil slice. */
  function Array(s: SymTab, key: string): (r: Option<seq<Value>>)
    ensures r.Some? <==> Find(s.scope, key).Some? && Find(s.scope, key).value.Seq?
    ensures r.Some? ==> Find(s.scope, key) == Some(Seq(r.value))
  {
    match Find(s.scope, key)
    case Some(Seq(items)) => Some(items)
    case _ => None
  }

  /** `Object`: the innermost binding of the key when it is a non-nil map. */
  function Object(s: SymTab, key: string): (r: Option<map<string, Value>>)
    ensures r.Some? <==> Find(s.scope, key).Some? && Find(s.scope, key).value.Map?
    ensures r.Some? ==> Find(s.scope, key) == Some(Map(r.value))
  {
    match Find(s.scope, key)
    case Some(Map(m)) => Some(m)
    case _ => None
  }

  // ---------------------------------------------------------------------
  // Lookups against the frames
  // ---------------------------------------------------------------------

  /**
   * `Print` prints the bound element for the empty key, else the binding of
   * the innermost frame with the key (panicking on `Nil`), else writes
   * nothing.
   */
  lemma {:induction false} PrintSpec(s: SymTab, key: string)
    ensures key == "" && s.elem != Nil ==> Print(s, key) == Some(Show(s.elem))
    ensures !(key == "" && s.elem != Nil) && (forall i :: 0 <= i < |s.scope| ==> key !in s.scope[i])
            ==> Print(s, key) == Some("")
    ensures forall i :: !(key == "" && s.elem != Nil) && Innermost(s.scope, key, i) ==>
              Print(s, key) == if s.scope[i][key] == Nil then None else Some(Show(s.scope[i][key]))
  {
    FindNone(s.scope, key);
    forall i | Innermost(s.scope, key, i) {
      FindInnermost(s.scope, key, i);
    }
  }

  /**
   * Shadowing: `Array` yields a slice exactly when the innermost frame with
   * the key binds a non-nil slice there; a slice in an outer frame does not
   * count.
   */
  lemma {:induction false} ArrayShadow(s: SymTab, key: string, i: int)
    requires Innermost(s.scope, key, i)
    ensures Array(s, key).Some? <==> s.scope[i][key].Seq?
    ensures Array(s, key).Some? ==> Array(s, key).value == s.scope[i][key].items
  {
    FindInnermost(s.scope, key, i);
  }

  /** The same shadowing rule for `Object`, with a non-nil map. */
  lemma {:induction false} ObjectShadow(s: SymTab, key: string, i: int)
    requires Innermost(s.scope, key, i)
    ensures Object(s, key).Some? <==> s.scope[i][key].Map?
    ensures Object(s, key).Some? ==> Object(s, key).value == s.scope[i][key].entries
  {
    FindInnermost(s.scope, key, i);
  }

  /** With no frame holding the key, neither `Array` nor `Object` finds anything. */
  lemma {:induction false} LookupMissing(s: SymTab, key: string)
    requires forall i :: 0 <= i < |s.scope| ==> key !in s.scope[i]
    ensures Array(s, key).None? && Object(s, key).None?
  {
    FindNone(s.scope, key);
  }

  /**
   * An object frame shadows the outer frames: inside it `Ifdef` holds for its
   * own keys and otherwise as outside, except that the array element is
   * unbound.
   */
  lemma {:induction false} EnterObjectIfdef(s: SymTab, obj: map<string, Value>, key: string)
    ensures Ifdef(EnterObject(s, obj), key) <==> key in obj || Find(s.scope, key).Some?
  {
  }

  /** An array element answers for the empty key; every other key is looked up as before. */
  lemma {:induction false} EnterArrayElemLookups(s: SymTab, elem: Value, key: string)
    requires elem != Nil
    ensures Ifdef(EnterArrayElem(s, elem), "")
    ensures Print(EnterArrayElem(s, elem), "") == Some(Show(elem))
    ensures key != "" ==> Ifdef(EnterArrayElem(s, elem), key) == Ifdef(s, key)
    ensures key != "" ==> Print(EnterArrayElem(s, elem), key) == Print(s, key)
  {
  }
}
