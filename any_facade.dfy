/** The erased container `any<Interface, Comparable>`.

    An `any` is empty or owns one holder; the holder owns one value of some
    concrete type `T`.  Comparisons dispatch to the left operand's holder,
    which first gives its per-type hook (`value_type_operations`) a chance to
    special-case named other types and otherwise compares tags first
    (`compare2`).  Every tag lookup goes through the family's registry, so the
    registry is threaded through every comparison. */
module AnyFacade {
  import opened Wrappers
  import opened TypeInfo
  import opened Comparability

  /** One special case of a `value_type_operations<.., T>` hook: when the other
      operand's type is `other`, the result is `compare(this value, other value)`. */
  datatype Override<!V> = Override(other: CppType, compare: (V, V) -> bool)

  /** What a family supplies for one relation (equality or ordering):
      `sameType` is `equality_comparable::equals<T>` / `less_than_comparable::less<T>`
      (the native operator or a specialisation), and `overrides(T)` lists, in
      source order, the types the hook of holder `T` special-cases. */
  datatype Hooks<!V> = Hooks(sameType: (V, V) -> bool, overrides: CppType -> seq<Override<V>>)

  datatype Relation = Equality | Ordering

  /** One `any` family: the values it may hold, the concrete type of each (the
      `T` of its `holder<T>`), and the hooks of the relations its policy provides. */
  datatype Family<!V> = Family(typeOf: V -> CppType, equality: Option<Hooks<V>>, ordering: Option<Hooks<V>>)
  {
    /** The policy struct the family was instantiated with. */
    function Comparable(): Policy {
      PolicyFor(equality.Some?, ordering.Some?)
    }

    function HooksOf(rel: Relation): Option<Hooks<V>> {
      if rel == Equality then equality else ordering
    }

    predicate Provides(rel: Relation) {
      HooksOf(rel).Some?
    }
  }

  /** The result of a comparison and the registry after it. */
  datatype Outcome = Outcome(result: bool, after: RegistryState)

  function Negated(o: Outcome): Outcome {
    Outcome(!o.result, o.after)
  }

  /** `Base::equals` / `Base::less`, that is `compare2`: look up this type, then
      the other type, then compare tags first. */
  function BaseCompare<V>(fam: Family<V>, rel: Relation, h: Hooks<V>, s: RegistryState, a: V, b: V): Outcome {
    var mine := LookupType(s, fam.typeOf(a));
    var theirs := LookupType(mine.after, fam.typeOf(b));
    var x, y := Tagged(mine.tag, a), Tagged(theirs.tag, b);
    Outcome(if rel == Equality then TagEquals(h.sameType, x, y) else TagLess(h.sameType, x, y), theirs.after)
  }

  /** The hook's chain `if (other.type() == type_id<U>()) ... else if ... else Base`. */
  function TryOverrides<V>(fam: Family<V>, rel: Relation, h: Hooks<V>, s: RegistryState, a: V, b: V,
                           overrides: seq<Override<V>>): Outcome
    decreases |overrides|
  {
    if overrides == [] then BaseCompare(fam, rel, h, s, a, b)
    else
      var theirs := LookupType(s, fam.typeOf(b));
      var named := LookupType(theirs.after, overrides[0].other);
      if theirs.tag.Equals(named.tag) then Outcome(overrides[0].compare(a, b), named.after)
      else TryOverrides(fam, rel, h, named.after, a, b, overrides[1..])
  }

  /** `holder<T>::equals` / `holder<T>::less` on the values of two holders. */
  function HolderCompare<V>(fam: Family<V>, rel: Relation, s: RegistryState, a: V, b: V): Outcome
    requires fam.Provides(rel)
  {
    var h := fam.HooksOf(rel).value;
    TryOverrides(fam, rel, h, s, a, b, h.overrides(fam.typeOf(a)))
  }

  function HolderEquals<V>(fam: Family<V>, s: RegistryState, a: V, b: V): Outcome
    requires fam.Comparable().HasEquals()
  {
    HolderCompare(fam, Equality, s, a, b)
  }

  function HolderLess<V>(fam: Family<V>, s: RegistryState, a: V, b: V): Outcome
    requires fam.Comparable().HasLess()
  {
    HolderCompare(fam, Ordering, s, a, b)
  }

  /** The first special case of a hook that names the (normalised) type `k`. */
  function FirstOverride<V>(overrides: seq<Override<V>>, k: CppType): Option<Override<V>>
  {
    if overrides == [] then None
    else if Normalise(overrides[0].other) == k then Some(overrides[0])
    else FirstOverride(overrides[1..], k)
  }

  /** The reference definition of a holder comparison, stated on types rather
      than on registry lookups: the first override naming the other type
      decides; otherwise values of one type compare by value, and values of
      different types are unequal and ordered by the tags in `tags`. */
  function Expected<V>(fam: Family<V>, rel: Relation, tags: map<CppType, nat>, a: V, b: V): bool
    requires fam.Provides(rel)
  {
    var h := fam.HooksOf(rel).value;
    var ka, kb := Normalise(fam.typeOf(a)), Normalise(fam.typeOf(b));
    match FirstOverride(h.overrides(fam.typeOf(a)), kb)
    case Some(o) => o.compare(a, b)
    case None =>
      if ka == kb then h.sameType(a, b)
      else rel == Ordering && ka in tags && kb in tags && tags[ka] < tags[kb]
  }

  lemma BaseCompareMeaning<V>(fam: Family<V>, rel: Relation, h: Hooks<V>, s: RegistryState, a: V, b: V)
    requires ValidState(s)
    ensures var o := BaseCompare(fam, rel, h, s, a, b);
            var ka, kb := Normalise(fam.typeOf(a)), Normalise(fam.typeOf(b));
            && ValidState(o.after) && Extends(s, o.after)
            && ka in o.after.tags && kb in o.after.tags
            && o.result == (if ka == kb then h.sameType(a, b)
                            else rel == Ordering && o.after.tags[ka] < o.after.tags[kb])
  {
    SuccessiveRequests(s, fam.typeOf(a), fam.typeOf(b));
  }

  /** The override chain computes the reference definition, keeps the registry
      valid, and always leaves the other operand's type tagged (and this
      operand's type too whenever no override applied). */
  lemma {:induction false} TryOverridesMeaning<V>(fam: Family<V>, rel: Relation, h: Hooks<V>, s: RegistryState,
                                                  a: V, b: V, overrides: seq<Override<V>>)
    requires ValidState(s)
    ensures var o := TryOverrides(fam, rel, h, s, a, b, overrides);
            var ka, kb := Normalise(fam.typeOf(a)), Normalise(fam.typeOf(b));
            && ValidState(o.after) && Extends(s, o.after)
            && kb in o.after.tags
            && match FirstOverride(overrides, kb)
               case Some(ov) => o.result == ov.compare(a, b)
               case None =>
                 && ka in o.after.tags
                 && o.result == (if ka == kb then h.sameType(a, b)
                                 else rel == Ordering && o.after.tags[ka] < o.after.tags[kb])
    decreases |overrides|
  {
    if overrides == [] {
      BaseCompareMeaning(fam, rel, h, s, a, b);
    } else {
      var theirs := LookupType(s, fam.typeOf(b));
      var named := LookupType(theirs.after, overrides[0].other);
      SuccessiveRequests(s, fam.typeOf(b), overrides[0].other);
      if !theirs.tag.Equals(named.tag) {
        TryOverridesMeaning(fam, rel, h, named.after, a, b, overrides[1..]);
        ExtendsTransitive(s, named.after, TryOverrides(fam, rel, h, named.after, a, b, overrides[1..]).after);
      }
    }
  }

  /** A holder comparison, however the registry stood before, computes the
      reference definition over the registry it leaves behind, keeps that
      registry valid and only ever adds tags to it. */
  lemma HolderCompareMeaning<V>(fam: Family<V>, rel: Relation, s: RegistryState, a: V, b: V)
    requires fam.Provides(rel)
    requires ValidState(s)
    ensures var o := HolderCompare(fam, rel, s, a, b);
            && ValidState(o.after) && Extends(s, o.after)
            && Normalise(fam.typeOf(b)) in o.after.tags
            && (FirstOverride(fam.HooksOf(rel).value.overrides(fam.typeOf(a)), Normalise(fam.typeOf(b))).None? ==>
                  Normalise(fam.typeOf(a)) in o.after.tags)
            && o.result == Expected(fam, rel, o.after.tags, a, b)
  {
    var h := fam.HooksOf(rel).value;
    TryOverridesMeaning(fam, rel, h, s, a, b, h.overrides(fam.typeOf(a)));
  }

  /** Equality needs no tags: its outcome is the same for every valid registry,
      and values of different types are equal only where an override says so. */
  lemma EqualsIgnoresRegistry<V>(fam: Family<V>, s: RegistryState, s': RegistryState, a: V, b: V)
    requires fam.Comparable().HasEquals()
    requires ValidState(s) && ValidState(s')
    ensures HolderEquals(fam, s, a, b).result == HolderEquals(fam, s', a, b).result
    ensures HolderEquals(fam, s, a, b).result && Normalise(fam.typeOf(a)) != Normalise(fam.typeOf(b)) ==>
              FirstOverride(fam.equality.value.overrides(fam.typeOf(a)), Normalise(fam.typeOf(b))).Some?
  {
    HolderCompareMeaning(fam, Equality, s, a, b);
    HolderCompareMeaning(fam, Equality, s', a, b);
  }

  /** Copy law: a value compares equal to itself (so a copy to its original)
      when its type's `equals` is reflexive on it and no override of its type
      names the type itself. */
  lemma CopyEqualsOriginal<V>(fam: Family<V>, s: RegistryState, a: V)
    requires fam.Comparable().HasEquals()
    requires ValidState(s)
    requires fam.equality.value.sameType(a, a)
    requires FirstOverride(fam.equality.value.overrides(fam.typeOf(a)), Normalise(fam.typeOf(a))).None?
    ensures HolderEquals(fam, s, a, a).result
  {
    HolderCompareMeaning(fam, Equality, s, a, a);
  }

  /** Without overrides, `less` is exactly `compare2::less` on the tags the
      registry holds after the comparison. */
  lemma UnoverriddenLessIsTagOrder<V>(fam: Family<V>, s: RegistryState, a: V, b: V)
    requires fam.Comparable().HasLess()
    requires ValidState(s)
    requires fam.ordering.value.overrides(fam.typeOf(a)) == []
    ensures var o := HolderLess(fam, s, a, b);
            var ka, kb := Normalise(fam.typeOf(a)), Normalise(fam.typeOf(b));
            && ka in o.after.tags && kb in o.after.tags
            && o.result == TagLess(fam.ordering.value.sameType,
                                   Tagged(TypeTag(o.after.tags[ka]), a), Tagged(TypeTag(o.after.tags[kb]), b))
  {
    var h := fam.ordering.value;
    TryOverridesMeaning(fam, Ordering, h, s, a, b, []);
    var o := HolderLess(fam, s, a, b);
    var ka, kb := Normalise(fam.typeOf(a)), Normalise(fam.typeOf(b));
    assert o.after.tags[ka] == o.after.tags[kb] <==> ka == kb;
  }

  /** Two values of different types whose hooks do not special-case each other
      are never equivalent: comparing them both ways gives exactly one `true`. */
  lemma MismatchedTypesAreNotEquivalent<V>(fam: Family<V>, s: RegistryState, a: V, b: V, ab: Outcome, ba: Outcome)
    requires fam.Comparable().HasLess()
    requires ValidState(s)
    requires Normalise(fam.typeOf(a)) != Normalise(fam.typeOf(b))
    requires FirstOverride(fam.ordering.value.overrides(fam.typeOf(a)), Normalise(fam.typeOf(b))).None?
    requires FirstOverride(fam.ordering.value.overrides(fam.typeOf(b)), Normalise(fam.typeOf(a))).None?
    requires ab == HolderLess(fam, s, a, b)
    requires ba == HolderLess(fam, ab.after, b, a)
    ensures ab.result != ba.result
  {
    HolderCompareMeaning(fam, Ordering, s, a, b);
    HolderCompareMeaning(fam, Ordering, ab.after, b, a);
    UnoverriddenAcrossTypes(fam, ab.after.tags, a, b);
    UnoverriddenAcrossTypes(fam, ba.after.tags, b, a);
    CrossTypeOrderFlips(ab.after, ba.after, Normalise(fam.typeOf(a)), Normalise(fam.typeOf(b)));
  }

  /** Two distinct types tagged in a valid registry are ordered one way, and a
      later registry orders them the same way. */
  lemma CrossTypeOrderFlips(s1: RegistryState, s2: RegistryState, ka: CppType, kb: CppType)
    requires ValidState(s1) && Extends(s1, s2)
    requires ka != kb && ka in s1.tags && kb in s1.tags
    ensures ka in s2.tags && kb in s2.tags
    ensures (s1.tags[ka] < s1.tags[kb]) != (s2.tags[kb] < s2.tags[ka])
  {
  }

  /** `Expected` for two types that no override connects. */
  lemma UnoverriddenAcrossTypes<V>(fam: Family<V>, tags: map<CppType, nat>, a: V, b: V)
    requires fam.Provides(Ordering)
    requires Normalise(fam.typeOf(a)) != Normalise(fam.typeOf(b))
    requires FirstOverride(fam.ordering.value.overrides(fam.typeOf(a)), Normalise(fam.typeOf(b))).None?
    ensures Expected(fam, Ordering, tags, a, b) ==
            (Normalise(fam.typeOf(a)) in tags && Normalise(fam.typeOf(b)) in tags &&
             tags[Normalise(fam.typeOf(a))] < tags[Normalise(fam.typeOf(b))])
  {
  }

  /** The cross-type `<` of `compare2` depends on the order of first requests:
      from one registry in which neither type is tagged yet, and with no
      override between them, `a < b` holds and so does `b < a`, since the left
      operand's type is requested first and receives the smaller tag. */
  lemma FirstRequestOrdersFirst<V>(fam: Family<V>, s: RegistryState, a: V, b: V)
    requires ValidState(s) && fam.Provides(Ordering)
    requires fam.ordering.value.overrides(fam.typeOf(a)) == [] && fam.ordering.value.overrides(fam.typeOf(b)) == []
    requires Normalise(fam.typeOf(a)) != Normalise(fam.typeOf(b))
    requires Normalise(fam.typeOf(a)) !in s.tags && Normalise(fam.typeOf(b)) !in s.tags
    ensures HolderCompare(fam, Ordering, s, a, b).result
    ensures HolderCompare(fam, Ordering, s, b, a).result
  {
  }

  /** `holder<T>`: owns one value of its concrete type. */
  class Holder<V> {
    var held: V

    constructor (value: V)
      ensures held == value
    {
      held := value;
    }

    /** `clone()`: a fresh holder with a copy of the value. */
    method Clone() returns (h: Holder<V>)
      ensures fresh(h) && h.held == held
    {
      h := new Holder(held);
    }
  }

  /** `any`: either empty (`content == 0`) or owning one holder. */
  class Any<V> {
    var content: Holder?<V>

    /** The value held, if any. */
    function Contents(): Option<V>
      reads this, content
    {
      if content == null then None else Some(content.held)
    }

    /** `any()`: empty. */
    constructor ()
      ensures content == null && Contents() == None
    {
      content := null;
    }

    /** `any(const ValueType&)`: a fresh holder with a copy of the value. */
    constructor FromValue(value: V)
      ensures content != null && fresh(content) && Contents() == Some(value)
    {
      content := new Holder(value);
    }

    /** `any(const any&)`: clones the other's holder, or is empty if it is. */
    constructor Copy(other: Any<V>)
      ensures Contents() == other.Contents()
      ensures (content == null) == (other.content == null)
      ensures content != null ==> fresh(content)
    {
      var cloned: Holder?<V> := null;
      if other.content != null {
        cloned := other.content.Clone();
      }
      content := cloned;
    }

    /** `empty()`. */
    method Empty() returns (isEmpty: bool)
      ensures isEmpty <==> content == null
      ensures isEmpty <==> Contents() == None
    {
      isEmpty := content == null;
    }

    /** `swap(rhs)`: exchanges the two holders and changes nothing else. */
    method Swap(rhs: Any<V>)
      modifies this, rhs
      ensures content == old(rhs.content) && rhs.content == old(content)
    {
      content, rhs.content := rhs.content, content;
    }

    /** `operator=(any rhs)`: copy-and-swap.  The by-value parameter is a copy of
        the source, a second copy is swapped into this, and the old holder goes
        with the temporary.  This ends up holding a fresh copy of the source's
        value; the source is unchanged, also on self-assignment. */
    method Assign(source: Any<V>)
      modifies this
      ensures Contents() == old(source.Contents())
      ensures (content == null) == (old(source.content) == null)
      ensures content != null ==> fresh(content)
      ensures source != this ==> source.content == old(source.content)
    {
      var rhs := new Any.Copy(source);
      var temp := new Any.Copy(rhs);
      temp.Swap(this);
    }

    /** `call(fn, args...)`: applies an operation (with its arguments bound) to
        the held value.  Only defined on a non-empty `any`. */
    method Call<R>(fn: V -> R) returns (r: R)
      requires content != null
      ensures r == fn(content.held)
    {
      r := fn(content.held);
    }

    /** A non-const operation forwarded through `content`: it updates the held
        value in place and leaves the holder itself in place. */
    method CallUpdating(fn: V -> V)
      requires content != null
      modifies content
      ensures content == old(content) && Contents() == Some(fn(old(content.held)))
    {
      content.held := fn(content.held);
    }
  }

  /** `compare2` made imperative: two registry lookups, then tags first.  For
      `less` on different tags the source looks both tags up once more. */
  method BaseCompareHolders<V>(fam: Family<V>, rel: Relation, h: Hooks<V>, a: Holder<V>, b: Holder<V>, reg: Registry)
    returns (r: bool)
    requires reg.Valid()
    modifies reg
    ensures reg.Valid()
    ensures Outcome(r, reg.State()) == BaseCompare(fam, rel, h, old(reg.State()), a.held, b.held)
  {
    var mine := reg.TypeId(fam.typeOf(a.held));
    var theirs := reg.TypeId(fam.typeOf(b.held));
    if mine.Equals(theirs) {
      r := h.sameType(a.held, b.held);
    } else if rel == Equality {
      r := false;
    } else {
      var mineAgain := reg.TypeId(fam.typeOf(a.held));
      var theirsAgain := reg.TypeId(fam.typeOf(b.held));
      r := mineAgain.Less(theirsAgain);
    }
  }

  /** The hook's chain of special cases, then `Base`. */
  method TryOverridesOnHolders<V>(fam: Family<V>, rel: Relation, h: Hooks<V>, a: Holder<V>, b: Holder<V>,
                                  overrides: seq<Override<V>>, reg: Registry)
    returns (r: bool)
    requires reg.Valid()
    modifies reg
    ensures reg.Valid()
    ensures Outcome(r, reg.State()) == TryOverrides(fam, rel, h, old(reg.State()), a.held, b.held, overrides)
    decreases |overrides|
  {
    if overrides == [] {
      r := BaseCompareHolders(fam, rel, h, a, b, reg);
    } else {
      var theirs := reg.TypeId(fam.typeOf(b.held));
      var named := reg.TypeId(overrides[0].other);
      if theirs.Equals(named) {
        r := overrides[0].compare(a.held, b.held);
      } else {
        r := TryOverridesOnHolders(fam, rel, h, a, b, overrides[1..], reg);
      }
    }
  }

  /** `lhs == rhs`: `lhs.content->equals(*rhs.content)`. */
  method Equals<V>(fam: Family<V>, lhs: Any<V>, rhs: Any<V>, reg: Registry) returns (r: bool)
    requires fam.Comparable().HasEquals()
    requires lhs.content != null && rhs.content != null
    requires reg.Valid()
    modifies reg
    ensures reg.Valid()
    ensures Outcome(r, reg.State()) == HolderEquals(fam, old(reg.State()), lhs.content.held, rhs.content.held)
    ensures r == Expected(fam, Equality, reg.State().tags, lhs.content.held, rhs.content.held)
  {
    HolderCompareMeaning(fam, Equality, reg.State(), lhs.content.held, rhs.content.held);
    var h := fam.equality.value;
    r := TryOverridesOnHolders(fam, Equality, h, lhs.content, rhs.content, h.overrides(fam.typeOf(lhs.content.held)), reg);
  }

  /** `lhs != rhs`: `!(lhs == rhs)`. */
  method NotEquals<V>(fam: Family<V>, lhs: Any<V>, rhs: Any<V>, reg: Registry) returns (r: bool)
    requires fam.Comparable().HasEquals()
    requires lhs.content != null && rhs.content != null
    requires reg.Valid()
    modifies reg
    ensures reg.Valid()
    ensures Outcome(r, reg.State()) == Negated(HolderEquals(fam, old(reg.State()), lhs.content.held, rhs.content.held))
    ensures r == !Expected(fam, Equality, reg.State().tags, lhs.content.held, rhs.content.held)
  {
    var eq := Equals(fam, lhs, rhs, reg);
    r := !eq;
  }

  /** `lhs < rhs`: `lhs.content->less(*rhs.content)`. */
  method Less<V>(fam: Family<V>, lhs: Any<V>, rhs: Any<V>, reg: Registry) returns (r: bool)
    requires fam.Comparable().HasLess()
    requires lhs.content != null && rhs.content != null
    requires reg.Valid()
    modifies reg
    ensures reg.Valid()
    ensures Outcome(r, reg.State()) == HolderLess(fam, old(reg.State()), lhs.content.held, rhs.content.held)
    ensures r == Expected(fam, Ordering, reg.State().tags, lhs.content.held, rhs.content.held)
  {
    HolderCompareMeaning(fam, Ordering, reg.State(), lhs.content.held, rhs.content.held);
    var h := fam.ordering.value;
    r := TryOverridesOnHolders(fam, Ordering, h, lhs.content, rhs.content, h.overrides(fam.typeOf(lhs.content.held)), reg);
  }

  /** `lhs > rhs`: `rhs < lhs`. */
  method Greater<V>(fam: Family<V>, lhs: Any<V>, rhs: Any<V>, reg: Registry) returns (r: bool)
    requires fam.Comparable().HasLess()
    requires lhs.content != null && rhs.content != null
    requires reg.Valid()
    modifies reg
    ensures reg.Valid()
    ensures Outcome(r, reg.State()) == HolderLess(fam, old(reg.State()), rhs.content.held, lhs.content.held)
    ensures r == Expected(fam, Ordering, reg.State().tags, rhs.content.held, lhs.content.held)
  {
    r := Less(fam, rhs, lhs, reg);
  }

  /** `lhs <= rhs`: `!(rhs < lhs)`. */
  method LessOrEqual<V>(fam: Family<V>, lhs: Any<V>, rhs: Any<V>, reg: Registry) returns (r: bool)
    requires fam.Comparable().HasLess()
    requires lhs.content != null && rhs.content != null
    requires reg.Valid()
    modifies reg
    ensures reg.Valid()
    ensures Outcome(r, reg.State()) == Negated(HolderLess(fam, old(reg.State()), rhs.content.held, lhs.content.held))
    ensures r == !Expected(fam, Ordering, reg.State().tags, rhs.content.held, lhs.content.held)
  {
    var greater := Less(fam, rhs, lhs, reg);
    r := !greater;
  }

  /** `lhs >= rhs`: `!(lhs < rhs)`. */
  method GreaterOrEqual<V>(fam: Family<V>, lhs: Any<V>, rhs: Any<V>, reg: Registry) returns (r: bool)
    requires fam.Comparable().HasLess()
    requires lhs.content != null && rhs.content != null
    requires reg.Valid()
    modifies reg
    ensures reg.Valid()
    ensures Outcome(r, reg.State()) == Negated(HolderLess(fam, old(reg.State()), lhs.content.held, rhs.content.held))
    ensures r == !Expected(fam, Ordering, reg.State().tags, lhs.content.held, rhs.content.held)
  {
    var less := Less(fam, lhs, rhs, reg);
    r := !less;
  }
}
