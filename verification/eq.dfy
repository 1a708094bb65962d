/**
 * String equality of data (eq.go): two values compare equal when mappings
 * and sequences match entry by entry and every other value prints the same.
 *
 * `StrEq` follows `stringEqual` as written, including its panics (`None`):
 * `Interface()` on an invalid value, which is what a nil value or a key
 * missing from the second mapping becomes. `Equal` is the comparison with
 * those panics, and the case where a scalar is compared with a printed
 * mapping or sequence, corrected.
 */
module Eq {
  import opened Wrappers
  import opened Values

  /** The keys of `a`'s map from `keys[i]` on are all keys of `a`. */
  predicate KeysOf(a: Value, keys: seq<string>, i: nat)
    requires a.Map?
  {
    i <= |keys| && forall j :: i <= j < |keys| ==> keys[j] in a.entries
  }

  /**
   * `stringEqual`. `None` is a panic. The keys of a mapping are visited in
   * ascending order.
   */
  function StrEq(a: Value, b: Value): Option<bool>
    decreases a, 1
  {
    match a
    case Map(m) =>
      if !(b.Map? || b.NilMap?) then Some(false)
      else if b.NilMap? then Some(false)
      else if |m| != |b.entries| then Some(false)
      else EntriesEq(a, b, SortedKeys(m.Keys), 0)
    case NilMap =>
      if !(b.Map? || b.NilMap?) then Some(false)
      else Some(b.NilMap?)
    case Seq(items) =>
      if !(b.Seq? || b.NilSeq?) then Some(false)
      else if b.NilSeq? then Some(false)
      else if |items| != |b.items| then Some(false)
      else ItemsEq(a, b, 0)
    case NilSeq =>
      if !(b.Seq? || b.NilSeq?) then Some(false)
      else Some(b.NilSeq?)
    case Nil => None
    case Scalar(t) => if b == Nil then None else Some(t == Show(b))
  }

  /** The loop over the keys of a mapping, from `keys[i]` on. */
  function EntriesEq(a: Value, b: Value, keys: seq<string>, i: nat): Option<bool>
    requires a.Map? && b.Map? && KeysOf(a, keys, i)
    decreases a, 0, |keys| - i
  {
    if i == |keys| then Some(true)
    else
      match StrEq(a.entries[keys[i]], Get(b.entries, keys[i]))
      case None => None
      case Some(false) => Some(false)
      case Some(true) => EntriesEq(a, b, keys, i + 1)
  }

  /** The loop over the items of a sequence, from item `i` on. */
  function ItemsEq(a: Value, b: Value, i: nat): Option<bool>
    requires a.Seq? && b.Seq? && |a.items| == |b.items| && i <= |a.items|
    decreases a, 0, |a.items| - i
  {
    if i == |a.items| then Some(true)
    else
      match StrEq(a.items[i], b.items[i])
      case None => None
      case Some(false) => Some(false)
      case Some(true) => ItemsEq(a, b, i + 1)
  }

  /** `StringEqual`: two (possibly nil) mappings. */
  function StringEqual(a: Value, b: Value): Option<bool>
    requires (a.Map? || a.NilMap?) && (b.Map? || b.NilMap?)
  {
    StrEq(a, b)
  }

  // ---------------------------------------------------------------------
  // Properties of stringEqual as written
  // ---------------------------------------------------------------------

  /** A mapping or a sequence never equals a value of another kind, of other nil-ness, or of another size. */
  lemma {:induction false} KindMismatch(a: Value, b: Value)
    ensures (a.Map? || a.NilMap?) && !(b.Map? || b.NilMap?) ==> StrEq(a, b) == Some(false)
    ensures (a.Seq? || a.NilSeq?) && !(b.Seq? || b.NilSeq?) ==> StrEq(a, b) == Some(false)
    ensures (a.Map? || a.NilMap?) && (b.Map? || b.NilMap?) && a.NilMap? != b.NilMap? ==> StrEq(a, b) == Some(false)
    ensures (a.Seq? || a.NilSeq?) && (b.Seq? || b.NilSeq?) && a.NilSeq? != b.NilSeq? ==> StrEq(a, b) == Some(false)
    ensures a.Map? && b.Map? && |a.entries| != |b.entries| ==> StrEq(a, b) == Some(false)
    ensures a.Seq? && b.Seq? && |a.items| != |b.items| ==> StrEq(a, b) == Some(false)
  {
  }

  /** A scalar equals anything valid that prints as its text. */
  lemma {:induction false} ScalarEq(t: string, b: Value)
    requires b != Nil
    ensures StrEq(Scalar(t), b) == Some(t == Show(b))
  {
  }

  /** Nothing compares equal to a missing (invalid) value. */
  lemma {:induction false} NotEqNil(a: Value)
    ensures StrEq(a, Nil) != Some(true)
  {
  }

  /**
   * Without panics the visiting order does not matter: the loop over the keys
   * yields true exactly when every key compares equal.
   */
  lemma {:induction false} EntriesEqAll(a: Value, b: Value, keys: seq<string>, i: nat)
    requires a.Map? && b.Map? && KeysOf(a, keys, i)
    ensures EntriesEq(a, b, keys, i) == Some(true)
            <==> forall j :: i <= j < |keys| ==> StrEq(a.entries[keys[j]], Get(b.entries, keys[j])) == Some(true)
    decreases |keys| - i
  {
    if i < |keys| {
      EntriesEqAll(a, b, keys, i + 1);
    }
  }

  /** Likewise the loop over the items compares them all. */
  lemma {:induction false} ItemsEqAll(a: Value, b: Value, i: nat)
    requires a.Seq? && b.Seq? && |a.items| == |b.items| && i <= |a.items|
    ensures ItemsEq(a, b, i) == Some(true)
            <==> forall j :: i <= j < |a.items| ==> StrEq(a.items[j], b.items[j]) == Some(true)
    decreases |a.items| - i
  {
    if i < |a.items| {
      ItemsEqAll(a, b, i + 1);
    }
  }

  /** Two non-nil mappings of equal size are equal exactly when every key of the first compares equal. */
  lemma {:induction false} MapsEq(a: Value, b: Value)
    requires a.Map? && b.Map? && |a.entries| == |b.entries|
    ensures StrEq(a, b) == Some(true)
            <==> forall k :: k in a.entries ==> StrEq(a.entries[k], Get(b.entries, k)) == Some(true)
  {
    var keys := SortedKeys(a.entries.Keys);
    EntriesEqAll(a, b, keys, 0);
  }

  /** Values without nil anywhere inside. */
  predicate NoNil(v: Value)
    decreases v
  {
    match v
    case Nil => false
    case Seq(items) => forall i :: 0 <= i < |items| ==> NoNil(items[i])
    case Map(m) => forall k :: k in m ==> NoNil(m[k])
    case _ => true
  }

  /** Every value without nil inside equals itself. */
  lemma {:induction false} StrEqRefl(a: Value)
    requires NoNil(a)
    ensures StrEq(a, a) == Some(true)
    decreases a, 1
  {
    match a
    case Map(m) =>
      forall k | k in m ensures StrEq(m[k], Get(m, k)) == Some(true) {
        StrEqRefl(m[k]);
      }
      MapsEq(a, a);
    case Seq(items) =>
      forall j | 0 <= j < |items| ensures StrEq(items[j], items[j]) == Some(true) {
        StrEqRefl(items[j]);
      }
      ItemsEqAll(a, a, 0);
    case _ =>
  }

  /** A value never compares unequal to itself; at worst the comparison panics. */
  lemma {:induction false} StrEqSelf(a: Value)
    ensures StrEq(a, a) != Some(false)
    decreases a, 1
  {
    match a
    case Map(m) => EntriesSelf(a, SortedKeys(m.Keys), 0);
    case Seq(items) => ItemsSelf(a, 0);
    case _ =>
  }

  lemma {:induction false} EntriesSelf(a: Value, keys: seq<string>, i: nat)
    requires a.Map? && KeysOf(a, keys, i)
    ensures EntriesEq(a, a, keys, i) != Some(false)
    decreases a, 0, |keys| - i
  {
    if i < |keys| {
      StrEqSelf(a.entries[keys[i]]);
      EntriesSelf(a, keys, i + 1);
    }
  }

  lemma {:induction false} ItemsSelf(a: Value, i: nat)
    requires a.Seq? && i <= |a.items|
    ensures ItemsEq(a, a, i) != Some(false)
    decreases a, 0, |a.items| - i
  {
    if i < |a.items| {
      StrEqSelf(a.items[i]);
      ItemsSelf(a, i + 1);
    }
  }

  /** Sets: a subset of the same size is the whole set. */
  lemma {:induction false} SubsetSameSize(x: set<string>, y: set<string>)
    requires x <= y && |x| == |y|
    ensures x == y
  {
    var rest := y - x;
    assert y == x + rest;
    assert x * rest == {};
    assert |y| == |x| + |rest|;
  }

  /** Equal values print the same: `true` is never returned for values that would print differently. */
  lemma {:induction false} StrEqShow(a: Value, b: Value)
    requires StrEq(a, b) == Some(true)
    ensures Show(a) == Show(b)
    decreases a, 1
  {
    match a
    case Map(m) =>
      var keys := SortedKeys(m.Keys);
      EntriesShow(a, b, keys, 0);
      SubsetSameSize(m.Keys, b.entries.Keys);
    case Seq(items) =>
      ItemsShow(a, b, 0);
    case _ =>
  }

  lemma {:induction false} EntriesShow(a: Value, b: Value, keys: seq<string>, i: nat)
    requires a.Map? && b.Map? && KeysOf(a, keys, i)
    requires EntriesEq(a, b, keys, i) == Some(true)
    ensures forall j :: i <= j < |keys| ==> keys[j] in b.entries
    ensures ShowEntries(a, keys, i) == ShowEntries(b, keys, i)
    decreases a, 0, |keys| - i
  {
    if i < |keys| {
      var k := keys[i];
      NotEqNil(a.entries[k]);
      StrEqShow(a.entries[k], b.entries[k]);
      EntriesShow(a, b, keys, i + 1);
    }
  }

  lemma {:induction false} ItemsShow(a: Value, b: Value, i: nat)
    requires a.Seq? && b.Seq? && |a.items| == |b.items| && i <= |a.items|
    requires ItemsEq(a, b, i) == Some(true)
    ensures ShowItems(a, i) == ShowItems(b, i)
    decreases a, 0, |a.items| - i
  {
    if i < |a.items| {
      StrEqShow(a.items[i], b.items[i]);
      ItemsShow(a, b, i + 1);
    }
  }

  /** eq_test.go: 123 equals "123", and byte slices and nested maps compare by their printed items. */
  lemma {:induction false} StringEqualExample()
    ensures var a := Map(map["num" := Scalar("123"), "slice" := Seq([Scalar("0"), Scalar("1"), Scalar("2")]),
                             "map" := Map(map["abc" := Scalar("123")]), "float" := Scalar("123")]);
            var b := Map(map["num" := Scalar("123"), "slice" := Seq([Scalar("0"), Scalar("1"), Scalar("2")]),
                             "map" := Map(map["abc" := Scalar("123")]), "float" := Scalar("123")]);
            StringEqual(a, b) == Some(true)
  {
    var a := Map(map["num" := Scalar("123"), "slice" := Seq([Scalar("0"), Scalar("1"), Scalar("2")]),
                     "map" := Map(map["abc" := Scalar("123")]), "float" := Scalar("123")]);
    assert NoNil(a.entries["slice"]);
    assert NoNil(a);
    StrEqRefl(a);
  }

  // ---------------------------------------------------------------------
  // Where stringEqual goes wrong
  // ---------------------------------------------------------------------

  /**
   * Two mappings of one key each, under different keys: the lookup of the
   * missing key panics. So does a key bound to nil on both sides.
   */
  lemma {:induction false} MissingKeyPanics()
    ensures StringEqual(Map(map["k" := Scalar("1")]), Map(map["j" := Scalar("1")])) == None
    ensures StringEqual(Map(map["k" := Nil]), Map(map["k" := Nil])) == None
  {
    var a := Map(map["k" := Scalar("1")]);
    var keys := SortedKeys(a.entries.Keys);
    assert keys == ["k"];
    var n := Map(map["k" := Nil]);
    assert SortedKeys(n.entries.Keys) == ["k"];
  }

  /**
   * A printed sequence on the left equals the sequence on the right, but not
   * the other way round.
   */
  lemma {:induction false} NotSymmetric()
    ensures StringEqual(Map(map["x" := Scalar("[1]")]), Map(map["x" := Seq([Scalar("1")])])) == Some(true)
    ensures StringEqual(Map(map["x" := Seq([Scalar("1")])]), Map(map["x" := Scalar("[1]")])) == Some(false)
  {
    var a := Map(map["x" := Scalar("[1]")]);
    var b := Map(map["x" := Seq([Scalar("1")])]);
    assert SortedKeys(a.entries.Keys) == ["x"];
    assert SortedKeys(b.entries.Keys) == ["x"];
    assert Show(Seq([Scalar("1")])) == "[1]" by {
      assert ShowItems(Seq([Scalar("1")]), 0) == "1";
    }
  }

  // ---------------------------------------------------------------------
  // The corrected comparison
  // ---------------------------------------------------------------------

  /**
   * `stringEqual` with the panics and the asymmetry removed: a key missing
   * from `b` makes the mappings differ, nil equals only nil, and a scalar
   * equals only a scalar with the same printed form.
   */
  function Equal(a: Value, b: Value): bool
    decreases a, 1
  {
    match a
    case Map(m) =>
      && b.Map?
      && |m| == |b.entries|
      && EntriesEqual(a, b, SortedKeys(m.Keys), 0)
    case NilMap => b.NilMap?
    case Seq(items) =>
      && b.Seq?
      && |items| == |b.items|
      && ItemsEqual(a, b, 0)
    case NilSeq => b.NilSeq?
    case Nil => b.Nil?
    case Scalar(t) => b.Scalar? && t == b.text
  }

  function EntriesEqual(a: Value, b: Value, keys: seq<string>, i: nat): bool
    requires a.Map? && b.Map? && KeysOf(a, keys, i)
    decreases a, 0, |keys| - i
  {
    if i == |keys| then true
    else
      && keys[i] in b.entries
      && Equal(a.entries[keys[i]], b.entries[keys[i]])
      && EntriesEqual(a, b, keys, i + 1)
  }

  function ItemsEqual(a: Value, b: Value, i: nat): bool
    requires a.Seq? && b.Seq? && |a.items| == |b.items| && i <= |a.items|
    decreases a, 0, |a.items| - i
  {
    if i == |a.items| then true
    else Equal(a.items[i], b.items[i]) && ItemsEqual(a, b, i + 1)
  }

  /**
   * The corrected comparison is equality of values (scalars being their
   * printed form): it is total, reflexive and symmetric.
   */
  lemma {:induction false} EqualIsEquality(a: Value, b: Value)
    ensures Equal(a, b) <==> a == b
    decreases a, 2
  {
    if a.Map? && b.Map? {
      MapEqualIsEquality(a, b);
    } else if a.Seq? && b.Seq? {
      SeqEqualIsEquality(a, b);
    }
  }

  lemma {:induction false} MapEqualIsEquality(a: Value, b: Value)
    requires a.Map? && b.Map?
    ensures Equal(a, b) <==> a == b
    decreases a, 1
  {
    var keys := SortedKeys(a.entries.Keys);
    EntriesEqualSpec(a, b, keys, 0);
    if Equal(a, b) {
      SameEntries(a.entries, b.entries, keys);
    }
  }

  /** Two maps of one size that agree on every key of the first are the same map. */
  lemma {:induction false} SameEntries(x: map<string, Value>, y: map<string, Value>, keys: seq<string>)
    requires |x| == |y| && forall k :: k in x ==> k in keys
    requires forall j :: 0 <= j < |keys| ==> keys[j] in y && keys[j] in x && x[keys[j]] == y[keys[j]]
    ensures x == y
  {
    forall k | k in x ensures k in y && x[k] == y[k] {
      var j :| 0 <= j < |keys| && keys[j] == k;
    }
    SubsetSameSize(x.Keys, y.Keys);
    assert x.Keys == y.Keys;
  }

  lemma {:induction false} SeqEqualIsEquality(a: Value, b: Value)
    requires a.Seq? && b.Seq?
    ensures Equal(a, b) <==> a == b
    decreases a, 1
  {
    if |a.items| == |b.items| {
      ItemsEqualSpec(a, b, 0);
      if Equal(a, b) {
        assert a.items == b.items;
      }
    }
  }

  lemma {:induction false} EntriesEqualSpec(a: Value, b: Value, keys: seq<string>, i: nat)
    requires a.Map? && b.Map? && KeysOf(a, keys, i)
    ensures EntriesEqual(a, b, keys, i)
            <==> forall j :: i <= j < |keys| ==> keys[j] in b.entries && a.entries[keys[j]] == b.entries[keys[j]]
    decreases a, 0, |keys| - i
  {
    if i < |keys| {
      if keys[i] in b.entries {
        EqualIsEquality(a.entries[keys[i]], b.entries[keys[i]]);
      }
      EntriesEqualSpec(a, b, keys, i + 1);
    }
  }

  lemma {:induction false} ItemsEqualSpec(a: Value, b: Value, i: nat)
    requires a.Seq? && b.Seq? && |a.items| == |b.items| && i <= |a.items|
    ensures ItemsEqual(a, b, i) <==> forall j :: i <= j < |a.items| ==> a.items[j] == b.items[j]
    decreases a, 0, |a.items| - i
  {
    if i < |a.items| {
      EqualIsEquality(a.items[i], b.items[i]);
      ItemsEqualSpec(a, b, i + 1);
    }
  }

  /**
   * The corrected comparison agrees with `stringEqual` wherever that one
   * says `false`, and on values without nil it accepts only what
   * `stringEqual` accepts.
   */
  lemma {:induction false} EqualRefines(a: Value, b: Value)
    ensures StrEq(a, b) == Some(false) ==> !Equal(a, b)
    ensures NoNil(a) && Equal(a, b) ==> StrEq(a, b) == Some(true)
  {
    EqualIsEquality(a, b);
    StrEqSelf(a);
    if NoNil(a) {
      StrEqRefl(a);
    }
  }

  /** The two inputs that trip `stringEqual` compare unequal, in both directions. */
  lemma {:induction false} EqualExamples()
    ensures !Equal(Map(map["k" := Scalar("1")]), Map(map["j" := Scalar("1")]))
    ensures !Equal(Map(map["x" := Scalar("[1]")]), Map(map["x" := Seq([Scalar("1")])]))
    ensures !Equal(Map(map["x" := Seq([Scalar("1")])]), Map(map["x" := Scalar("[1]")]))
  {
    EqualIsEquality(Map(map["k" := Scalar("1")]), Map(map["j" := Scalar("1")]));
    EqualIsEquality(Map(map["x" := Scalar("[1]")]), Map(map["x" := Seq([Scalar("1")])]));
    EqualIsEquality(Map(map["x" := Seq([Scalar("1")])]), Map(map["x" := Scalar("[1]")]));
  }
}
