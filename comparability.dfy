/** The comparability policies of any_facade and the tag-first comparisons
    (`compare2::equals` / `compare2::less`) they give the placeholder. */
module Comparability {
  import opened TypeInfo

  /** The four policy structs.  The policy decides which of `equals` and `less`
      the placeholder declares; using a missing one does not compile, which the
      model states as a precondition on the operators. */
  datatype Policy =
    | NotComparable             // not_comparable
    | EqualityComparable        // equality_comparable
    | LessThanComparable        // less_than_comparable
    | LessThanEqualsComparable  // less_than_equals_comparable
  {
    predicate HasEquals() { this == EqualityComparable || this == LessThanEqualsComparable }
    predicate HasLess() { this == LessThanComparable || this == LessThanEqualsComparable }
  }

  /** Which policy provides a given pair of operations: the four structs are
      exactly the four combinations. */
  function PolicyFor(equals: bool, less: bool): (p: Policy)
    ensures p.HasEquals() == equals && p.HasLess() == less
  {
    if equals && less then LessThanEqualsComparable
    else if equals then EqualityComparable
    else if less then LessThanComparable
    else NotComparable
  }

  /** Default `equality_comparable::equals<T>`: `lhs == rhs`. */
  predicate DefaultEquals<T(==)>(lhs: T, rhs: T) { lhs == rhs }

  /** Default `less_than_comparable::less<T>`, `lhs < rhs`, for the types whose
      `operator<` compares one `int` member: it is given those two members. */
  predicate DefaultLess(lhs: int, rhs: int) { lhs < rhs }

  /** An erased value as a comparison sees it: its type's tag and its value. */
  datatype Tagged<V> = Tagged(tag: TypeTag, value: V)

  /** `compare2::equals`: value equality for equal tags, false otherwise. */
  predicate TagEquals<V>(valueEquals: (V, V) -> bool, x: Tagged<V>, y: Tagged<V>) {
    if x.tag.Equals(y.tag) then valueEquals(x.value, y.value) else false
  }

  /** `compare2::less`: value order for equal tags, tag order otherwise. */
  predicate TagLess<V>(valueLess: (V, V) -> bool, x: Tagged<V>, y: Tagged<V>) {
    if x.tag.Equals(y.tag) then valueLess(x.value, y.value) else x.tag.Less(y.tag)
  }

  ghost predicate Incomparable<T>(lt: (T, T) -> bool, x: T, y: T) {
    !lt(x, y) && !lt(y, x)
  }

  /** A strict weak order: irreflexive, transitive, and incomparability is transitive. */
  ghost predicate StrictWeakOrder<T(!new)>(lt: (T, T) -> bool) {
    && (forall x :: !lt(x, x))
    && (forall x, y, z :: lt(x, y) && lt(y, z) ==> lt(x, z))
    && (forall x, y, z :: Incomparable(lt, x, y) && Incomparable(lt, y, z) ==> Incomparable(lt, x, z))
  }

  /** An equivalence relation. */
  ghost predicate Equivalence<T(!new)>(eq: (T, T) -> bool) {
    && (forall x :: eq(x, x))
    && (forall x, y :: eq(x, y) ==> eq(y, x))
    && (forall x, y, z :: eq(x, y) && eq(y, z) ==> eq(x, z))
  }

  /** Tag order as a relation on erased values. */
  function TagOrder<V>(valueLess: (V, V) -> bool): (Tagged<V>, Tagged<V>) -> bool {
    (x: Tagged<V>, y: Tagged<V>) => TagLess(valueLess, x, y)
  }

  /** Tag equality as a relation on erased values. */
  function TagEquality<V>(valueEquals: (V, V) -> bool): (Tagged<V>, Tagged<V>) -> bool {
    (x: Tagged<V>, y: Tagged<V>) => TagEquals(valueEquals, x, y)
  }

  /** Values of different types are never `equals`. */
  lemma TagEqualsNeedsSameTag<V>(valueEquals: (V, V) -> bool, x: Tagged<V>, y: Tagged<V>)
    ensures TagEquals(valueEquals, x, y) ==> x.tag == y.tag
    ensures x.tag == y.tag ==> (TagEquals(valueEquals, x, y) <==> valueEquals(x.value, y.value))
  {
  }

  /** Values of different types are never equivalent under `less`: one is
      always before the other. */
  lemma DistinctTagsAreOrdered<V>(valueLess: (V, V) -> bool, x: Tagged<V>, y: Tagged<V>)
    requires x.tag != y.tag
    ensures TagLess(valueLess, x, y) != TagLess(valueLess, y, x)
  {
  }

  /** If value `<` is a strict weak order, the tag-then-value order is one too. */
  lemma TagOrderIsStrictWeakOrder<V(!new)>(valueLess: (V, V) -> bool)
    requires StrictWeakOrder(valueLess)
    ensures StrictWeakOrder(TagOrder(valueLess))
  {
    var lt := TagOrder(valueLess);
    forall x: Tagged<V>, y: Tagged<V>, z: Tagged<V> | lt(x, y) && lt(y, z)
      ensures lt(x, z)
    {
      if x.tag == y.tag && y.tag == z.tag {
        assert valueLess(x.value, y.value) && valueLess(y.value, z.value);
      }
    }
    forall x: Tagged<V>, y: Tagged<V>, z: Tagged<V> | Incomparable(lt, x, y) && Incomparable(lt, y, z)
      ensures Incomparable(lt, x, z)
    {
      assert x.tag == y.tag by {
        if x.tag != y.tag { DistinctTagsAreOrdered(valueLess, x, y); }
      }
      assert y.tag == z.tag by {
        if y.tag != z.tag { DistinctTagsAreOrdered(valueLess, y, z); }
      }
      assert Incomparable(valueLess, x.value, y.value) && Incomparable(valueLess, y.value, z.value);
    }
  }

  /** If value equality is an equivalence, so is the tag-first equality. */
  lemma TagEqualityIsEquivalence<V(!new)>(valueEquals: (V, V) -> bool)
    requires Equivalence(valueEquals)
    ensures Equivalence(TagEquality(valueEquals))
  {
    var eq := TagEquality(valueEquals);
    forall x: Tagged<V>, y: Tagged<V>, z: Tagged<V> | eq(x, y) && eq(y, z)
      ensures eq(x, z)
    {
      assert valueEquals(x.value, y.value) && valueEquals(y.value, z.value);
    }
  }
}
