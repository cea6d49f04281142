/** The type-tag registry of any_facade (the non-RTTI `type_info`).

    Every `any` family owns one counter (`s_type`).  The first request for a
    normalised type hands out `++s_type`; later requests for the same type
    return the cached tag.  Tags compare as integers. */
module TypeInfo {

  /** A C++ type expression, as far as tag lookup needs to see it.  Only types
      C++ can spell are ever built: no `Const` directly inside a `Const` and no
      `Reference` inside a `Reference` (on those `Normalise` is not idempotent). */
  datatype CppType =
    | Named(name: string)           // a class or fundamental type: int, double, A
    | Const(base: CppType)          // T const
    | Pointer(pointee: CppType)     // T*
    | Reference(referent: CppType)  // T&

  /** `remove_reference<T>`: strips one top-level `&`. */
  function RemoveReference(t: CppType): CppType {
    match t
    case Reference(r) => r
    case _ => t
  }

  /** `remove_const<T>` of the fallback branch: strips one top-level `const`, and
      additionally maps a pointer to const `const T*` to `T*`. */
  function RemoveConst(t: CppType): CppType {
    match t
    case Const(b) => b
    case Pointer(Const(b)) => Pointer(b)
    case _ => t
  }

  /** The key `type_id<T>` looks up: reference removed first, then const. */
  function Normalise(t: CppType): CppType {
    RemoveConst(RemoveReference(t))
  }

  /** A type that carries no qualifier the normalisation would strip. */
  predicate Unqualified(t: CppType) {
    !t.Const? && !t.Reference? && !(t.Pointer? && t.pointee.Const?)
  }

  /** `int`, `const int`, `int&` and `const int&` (and likewise for `A`) all
      normalise to the same key, which is the plain type itself. */
  lemma QualifiersAreStripped(t: CppType)
    requires Unqualified(t)
    ensures Normalise(t) == t
    ensures Normalise(Const(t)) == t
    ensures Normalise(Reference(t)) == t
    ensures Normalise(Reference(Const(t))) == t
  {
  }

  /** `A*` and `const A*` share a key. */
  lemma PointerToConstSharesKey(t: CppType)
    requires !t.Const? && !t.Reference?
    ensures Normalise(Pointer(Const(t))) == Normalise(Pointer(t)) == Pointer(t)
  {
  }

  /** Only one level is stripped: `const A* const` keeps the inner const and so
      does not share a key with `A*`. */
  lemma OnlyOneConstIsStripped(a: CppType)
    requires a.Named?
    ensures Normalise(Const(Pointer(Const(a)))) == Pointer(Const(a))
    ensures Normalise(Const(Pointer(Const(a)))) != Normalise(Pointer(a))
  {
  }

  /** A tag: the `m_value` of a `type_info`.  Its operators are integer comparisons. */
  datatype TypeTag = TypeTag(value: nat) {
    predicate Equals(rhs: TypeTag) { value == rhs.value }
    predicate NotEquals(rhs: TypeTag) { !Equals(rhs) }
    predicate Less(rhs: TypeTag) { value < rhs.value }
    function HashCode(): nat { value }
  }

  /** Two tags are equivalent under `<` exactly when they are equal, and `<`
      orders any two distinct tags one way or the other. */
  lemma TagEquivalenceIsEquality(a: TypeTag, b: TypeTag)
    ensures (!a.Less(b) && !b.Less(a)) <==> a.Equals(b)
    ensures a.Equals(b) <==> a == b
    ensures a.NotEquals(b) ==> (a.Less(b) <==> !b.Less(a))
  {
  }

  /** The registry of one family: the counter `s_type`, and for each type `T`
      that has been requested the per-type cells of `base_type_id<T>`
      (`T in tags` plays `init`, `tags[T]` plays `result`). */
  datatype RegistryState = RegistryState(counter: nat, tags: map<CppType, nat>)

  /** `s_type` starts at 0 with no type tagged. */
  const Initial := RegistryState(0, map[])

  /** The registry invariant: tags lie in 1..counter, no two types share one, and
      the counter equals the number of tagged types. */
  ghost predicate ValidState(s: RegistryState) {
    && (forall k | k in s.tags :: 1 <= s.tags[k] <= s.counter)
    && (forall k1, k2 | k1 in s.tags && k2 in s.tags && s.tags[k1] == s.tags[k2] :: k1 == k2)
    && |s.tags| == s.counter
  }

  /** `s'` is a later state of the registry than `s`: tags once given never change. */
  ghost predicate Extends(s: RegistryState, s': RegistryState) {
    && s.counter <= s'.counter
    && (forall k | k in s.tags :: k in s'.tags && s'.tags[k] == s.tags[k])
  }

  /** A tag handed out, together with the registry after the request. */
  datatype Lookup = Lookup(tag: TypeTag, after: RegistryState)

  /** `base_type_id<T>()`: the cached tag if `T` was tagged before, otherwise
      the incremented counter, which is then cached. */
  function LookupBase(s: RegistryState, k: CppType): (r: Lookup)
    ensures k in r.after.tags && r.tag.value == r.after.tags[k]
    ensures Extends(s, r.after)
  {
    if k in s.tags then Lookup(TypeTag(s.tags[k]), s)
    else
      var n := s.counter + 1;
      Lookup(TypeTag(n), RegistryState(n, s.tags[k := n]))
  }

  /** `type_id<T>()`: `base_type_id` of the normalised type. */
  function LookupType(s: RegistryState, t: CppType): (r: Lookup)
    ensures Normalise(t) in r.after.tags && r.tag.value == r.after.tags[Normalise(t)]
    ensures Extends(s, r.after)
  {
    LookupBase(s, Normalise(t))
  }

  /** A first request returns `old counter + 1` and increments the counter; a
      repeated one returns the cached tag and changes nothing.  Either way the
      registry invariant is kept. */
  lemma BaseTypeIdKeepsValid(s: RegistryState, k: CppType)
    requires ValidState(s)
    ensures ValidState(LookupBase(s, k).after)
    ensures k in s.tags ==> LookupBase(s, k) == Lookup(TypeTag(s.tags[k]), s)
    ensures k !in s.tags ==>
      && LookupBase(s, k).tag.value == s.counter + 1
      && LookupBase(s, k).after == RegistryState(s.counter + 1, s.tags[k := s.counter + 1])
  {
    if k !in s.tags {
      var s' := LookupBase(s, k).after;
      assert s'.tags.Keys == s.tags.Keys + {k};
      assert |s'.tags.Keys| == |s.tags.Keys| + 1;
    }
  }

  lemma TypeIdKeepsValid(s: RegistryState, t: CppType)
    requires ValidState(s)
    ensures ValidState(LookupType(s, t).after)
  {
    BaseTypeIdKeepsValid(s, Normalise(t));
  }

  lemma ExtendsTransitive(s1: RegistryState, s2: RegistryState, s3: RegistryState)
    requires Extends(s1, s2) && Extends(s2, s3)
    ensures Extends(s1, s3)
  {
  }

  /** Asking for the same type twice gives the same tag, and the second request
      leaves the registry as the first one left it. */
  lemma RepeatedRequestIsStable(s: RegistryState, t: CppType, u: CppType)
    requires Normalise(t) == Normalise(u)
    ensures LookupType(LookupType(s, t).after, u) == Lookup(LookupType(s, t).tag, LookupType(s, t).after)
  {
  }

  /** Two successive requests, as a comparison makes them: the tags are equal
      exactly when the normalised types are, and they are ordered as the final
      registry orders the two types. */
  lemma SuccessiveRequests(s: RegistryState, t: CppType, u: CppType)
    requires ValidState(s)
    ensures var first := LookupType(s, t);
            var second := LookupType(first.after, u);
            && ValidState(second.after)
            && Extends(s, second.after)
            && Normalise(t) in second.after.tags && Normalise(u) in second.after.tags
            && first.tag.value == second.after.tags[Normalise(t)]
            && second.tag.value == second.after.tags[Normalise(u)]
            && (first.tag == second.tag <==> Normalise(t) == Normalise(u))
  {
    var first := LookupType(s, t);
    TypeIdKeepsValid(s, t);
    TypeIdKeepsValid(first.after, u);
    ExtendsTransitive(s, first.after, LookupType(first.after, u).after);
  }

  /** The registry of one family, updated in place as `base_type_id` does. */
  class Registry {
    var counter: nat               // s_type
    var tags: map<CppType, nat>    // the (init, result) cells of each base_type_id<T>

    function State(): RegistryState
      reads this
    {
      RegistryState(counter, tags)
    }

    ghost predicate Valid()
      reads this
    {
      ValidState(State())
    }

    /** Static initialisation: `s_type = 0`, no type tagged yet. */
    constructor ()
      ensures Valid() && State() == Initial
    {
      counter := 0;
      tags := map[];
    }

    /** `base_type_id<T>()`. */
    method BaseTypeId(k: CppType) returns (tag: TypeTag)
      requires Valid()
      modifies this
      ensures Valid()
      ensures Lookup(tag, State()) == LookupBase(old(State()), k)
      ensures k in old(tags) ==> tag.value == old(tags[k]) && counter == old(counter) && tags == old(tags)
      ensures k !in old(tags) ==> tag.value == counter == old(counter) + 1 && tags == old(tags)[k := counter]
    {
      BaseTypeIdKeepsValid(State(), k);
      if k !in tags {
        counter := counter + 1;
        tags := tags[k := counter];
      }
      tag := TypeTag(tags[k]);
    }

    /** `type_id<T>()`. */
    method TypeId(t: CppType) returns (tag: TypeTag)
      requires Valid()
      modifies this
      ensures Valid()
      ensures Lookup(tag, State()) == LookupType(old(State()), t)
    {
      tag := BaseTypeId(Normalise(t));
    }
  }
}
