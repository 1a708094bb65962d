/**
 * The hierarchical data a template is rendered against.
 *
 * The source works on arbitrary Go values through reflection and unwraps
 * interfaces and pointers (`indirect`, sym.go) before looking at their kind.
 * This module replaces that with a closed datatype of already-unwrapped
 * values, and `fmt.Sprint` with `Show`, which follows fmt's `%v` format.
 */
module Values {

  /**
   * An unwrapped data value.
   * - `Nil` is Go's invalid (zero) `reflect.Value`: what `indirect` yields for
   *   a nil interface or pointer, and what `MapIndex` yields for a missing key.
   * - `Scalar(text)` is any value that is neither a mapping nor a sequence;
   *   `text` is its default string form.
   * - `Seq`/`NilSeq` are a non-nil and a nil slice, `Map`/`NilMap` a non-nil
   *   and a nil `map[string]...`.
   */
  datatype Value =
    | Nil
    | Scalar(text: string)
    | Seq(items: seq<Value>)
    | NilSeq
    | Map(entries: map<string, Value>)
    | NilMap

  /** `MapIndex` followed by `indirect`: a missing key yields `Nil`. */
  function Get(m: map<string, Value>, key: string): (v: Value)
    ensures key !in m ==> v == Nil
    ensures key in m ==> v == m[key]
  {
    if key in m then m[key] else Nil
  }

  /** The byte-wise (here: character-wise) order Go uses on strings. */
  predicate StrLeq(a: string, b: string)
    decreases |a|
  {
    |a| == 0 || (|b| > 0 && (a[0] < b[0] || (a[0] == b[0] && StrLeq(a[1..], b[1..]))))
  }

  lemma {:induction false} StrLeqTotal(a: string, b: string)
    ensures StrLeq(a, b) || StrLeq(b, a)
    decreases |a|
  {
    if |a| > 0 && |b| > 0 && a[0] == b[0] {
      StrLeqTotal(a[1..], b[1..]);
    }
  }

  lemma {:induction false} StrLeqTrans(a: string, b: string, c: string)
    requires StrLeq(a, b) && StrLeq(b, c)
    ensures StrLeq(a, c)
    decreases |a|
  {
    if |a| > 0 && a[0] == b[0] && b[0] == c[0] {
      StrLeqTrans(a[1..], b[1..], c[1..]);
    }
  }

  lemma {:induction false} StrLeqAntisym(a: string, b: string)
    requires StrLeq(a, b) && StrLeq(b, a)
    ensures a == b
    decreases |a|
  {
    if |a| > 0 {
      StrLeqAntisym(a[1..], b[1..]);
    }
  }

  predicate IsLeast(k: string, keys: set<string>) {
    k in keys && forall j :: j in keys ==> StrLeq(k, j)
  }

  /** Every finite non-empty set of keys has a least element. */
  lemma {:induction false} LeastExists(keys: set<string>)
    requires keys != {}
    ensures exists k :: IsLeast(k, keys)
    decreases |keys|
  {
    var x :| x in keys;
    var rest := keys - {x};
    if rest == {} {
      StrLeqTotal(x, x);
      assert keys == {x};
      assert IsLeast(x, keys);
    } else {
      LeastExists(rest);
      var m :| IsLeast(m, rest);
      StrLeqTotal(x, m);
      if StrLeq(x, m) {
        forall j | j in keys ensures StrLeq(x, j) {
          if j != x { StrLeqTrans(x, m, j); } else { StrLeqTotal(x, x); }
        }
        assert IsLeast(x, keys);
      } else {
        assert IsLeast(m, keys);
      }
    }
  }

  lemma {:induction false} LeastUnique(keys: set<string>)
    ensures forall a, b :: IsLeast(a, keys) && IsLeast(b, keys) ==> a == b
  {
    forall a, b | IsLeast(a, keys) && IsLeast(b, keys) ensures a == b {
      StrLeqAntisym(a, b);
    }
  }

  function Least(keys: set<string>): (k: string)
    requires keys != {}
    ensures IsLeast(k, keys)
  {
    LeastExists(keys);
    LeastUnique(keys);
    var k :| IsLeast(k, keys); k
  }

  /** The keys of a map in the order fmt prints them: ascending. */
  function SortedKeys(keys: set<string>): (ks: seq<string>)
    ensures |ks| == |keys|
    ensures forall i :: 0 <= i < |ks| ==> ks[i] in keys
    ensures forall k :: k in keys ==> k in ks
    ensures forall i, j :: 0 <= i < j < |ks| ==> StrLeq(ks[i], ks[j]) && ks[i] != ks[j]
    decreases |keys|
  {
    if keys == {} then []
    else
      var k := Least(keys);
      var rest := SortedKeys(keys - {k});
      assert forall i :: 0 < i < |rest| + 1 ==> ([k] + rest)[i] == rest[i - 1];
      [k] + rest
  }

  /** fmt's `%v` form of a value (`fmt.Sprint`). */
  function Show(v: Value): string
    decreases v, 1
  {
    match v
    case Nil => "<nil>"
    case Scalar(t) => t
    case Seq(items) => "[" + ShowItems(v, 0) + "]"
    case NilSeq => "[]"
    case Map(m) => "map[" + ShowEntries(v, SortedKeys(m.Keys), 0) + "]"
    case NilMap => "map[]"
  }

  /** The items of a slice from index `i` on, separated by blanks. */
  function ShowItems(s: Value, i: nat): string
    requires s.Seq? && i <= |s.items|
    decreases s, 0, |s.items| - i
  {
    if i == |s.items| then ""
    else (if i > 0 then " " else "") + Show(s.items[i]) + ShowItems(s, i + 1)
  }

  /** The `key:value` pairs of a map for `keys[i..]`, separated by blanks. */
  function ShowEntries(m: Value, keys: seq<string>, i: nat): string
    requires m.Map? && i <= |keys|
    decreases m, 0, |keys| - i
  {
    if i == |keys| then ""
    else
      var k := keys[i];
      (if i > 0 then " " else "") + k + ":" + (if k in m.entries then Show(m.entries[k]) else "<nil>")
      + ShowEntries(m, keys, i + 1)
  }
}
