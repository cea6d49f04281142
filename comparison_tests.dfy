/** The comparison-policy cases: value types with specialised `equals` /
    `less` on their `.value` member, and one with native `==` and `<`. */
module ComparisonTests {
  import opened Wrappers
  import opened TypeInfo
  import opened Comparability
  import opened AnyFacade

  datatype TestValue =
    | NotComparableType(value: int)
    | LessThanComparableType(value: int)
    | EqualsComparableType(value: int)
    | FullyComparableType(value: int)
    | DefaultComparableType(value: int)

  function TestType(v: TestValue): CppType {
    match v
    case NotComparableType(_) => Named("NotComparableType")
    case LessThanComparableType(_) => Named("LessThanComparableType")
    case EqualsComparableType(_) => Named("EqualsComparableType")
    case FullyComparableType(_) => Named("FullyComparableType")
    case DefaultComparableType(_) => Named("DefaultComparableType")
  }

  /** The default `value_type_operations` of these cases special-cases nothing. */
  function NoOverrides(t: CppType): seq<Override<TestValue>> { [] }

  /** `equals<T>`: the specialisations compare `.value`; for
      `DefaultComparableType` the default `lhs == rhs` uses its `operator==`,
      which compares `.value` too.  No other type instantiates it. */
  predicate TestEquals(a: TestValue, b: TestValue) {
    match a
    case EqualsComparableType(_) => a.value == b.value
    case FullyComparableType(_) => a.value == b.value
    case DefaultComparableType(_) => DefaultEquals(a, b)
    case _ => false
  }

  /** `less<T>`: the specialisations compare `.value`; for
      `DefaultComparableType` the default `lhs < rhs` uses its `operator<`. */
  predicate TestLess(a: TestValue, b: TestValue) {
    match a
    case LessThanComparableType(_) => a.value < b.value
    case FullyComparableType(_) => a.value < b.value
    case DefaultComparableType(_) => DefaultLess(a.value, b.value)
    case _ => false
  }

  /** `any<TestInterface1, not_comparable>` and the three comparable families. */
  const NotComparableFamily: Family<TestValue> := Family(TestType, None, None)
  const LessThanFamily: Family<TestValue> := Family(TestType, None, Some(Hooks(TestLess, NoOverrides)))
  const EqualityFamily: Family<TestValue> := Family(TestType, Some(Hooks(TestEquals, NoOverrides)), None)
  /** `any<TestInterface1, less_than_equals_comparable>`, shared by the last two cases. */
  const FullFamily: Family<TestValue> :=
    Family(TestType, Some(Hooks(TestEquals, NoOverrides)), Some(Hooks(TestLess, NoOverrides)))

  /** Each family provides exactly the operators of its policy. */
  lemma PoliciesProvideTheirOperators()
    ensures NotComparableFamily.Comparable() == NotComparable
    ensures !NotComparableFamily.Comparable().HasEquals() && !NotComparableFamily.Comparable().HasLess()
    ensures LessThanFamily.Comparable() == LessThanComparable
    ensures LessThanFamily.Comparable().HasLess() && !LessThanFamily.Comparable().HasEquals()
    ensures EqualityFamily.Comparable() == EqualityComparable
    ensures EqualityFamily.Comparable().HasEquals() && !EqualityFamily.Comparable().HasLess()
    ensures FullFamily.Comparable() == LessThanEqualsComparable
    ensures FullFamily.Comparable().HasEquals() && FullFamily.Comparable().HasLess()
  {
    assert NotComparableFamily.Comparable() == PolicyFor(false, false);
    assert FullFamily.Comparable() == PolicyFor(true, true);
  }

  /** In these families two values of one type compare by their `.value`. */
  lemma SameTypeComparesValues(s: RegistryState, a: TestValue, b: TestValue)
    requires ValidState(s)
    requires TestType(a) == TestType(b)
    ensures a.LessThanComparableType? ==> HolderLess(LessThanFamily, s, a, b).result == (a.value < b.value)
    ensures a.EqualsComparableType? ==> HolderEquals(EqualityFamily, s, a, b).result == (a.value == b.value)
    ensures (a.FullyComparableType? || a.DefaultComparableType?) ==>
              && HolderLess(FullFamily, s, a, b).result == (a.value < b.value)
              && HolderEquals(FullFamily, s, a, b).result == (a.value == b.value)
  {
    if a.LessThanComparableType? {
      HolderCompareMeaning(LessThanFamily, Ordering, s, a, b);
    }
    if a.EqualsComparableType? {
      HolderCompareMeaning(EqualityFamily, Equality, s, a, b);
    }
    if a.FullyComparableType? || a.DefaultComparableType? {
      HolderCompareMeaning(FullFamily, Ordering, s, a, b);
      HolderCompareMeaning(FullFamily, Equality, s, a, b);
    }
  }

  /** In every comparable family, the reference comparison of two values of
      one type is `less<T>` / `equals<T>` on them, whatever the registry. */
  lemma SameTypeExpected(tags: map<CppType, nat>, a: TestValue, b: TestValue)
    requires TestType(a) == TestType(b)
    ensures Expected(LessThanFamily, Ordering, tags, a, b) == TestLess(a, b)
    ensures Expected(EqualityFamily, Equality, tags, a, b) == TestEquals(a, b)
    ensures Expected(FullFamily, Ordering, tags, a, b) == TestLess(a, b)
    ensures Expected(FullFamily, Equality, tags, a, b) == TestEquals(a, b)
  {
  }

  /** `any a(NotComparableType(4)), b(NotComparableType(7))`: both hold a
      value, and neither `==` nor `<` is available on them. */
  method NotComparableCase() returns (aEmpty: bool, bEmpty: bool)
    ensures !aEmpty && !bEmpty
    ensures !NotComparableFamily.Comparable().HasEquals() && !NotComparableFamily.Comparable().HasLess()
  {
    var a := new Any.FromValue(NotComparableType(4));
    var b := new Any.FromValue(NotComparableType(7));
    aEmpty := a.Empty();
    bEmpty := b.Empty();
    PoliciesProvideTheirOperators();
  }

  /** `a(4) < b(7)` under `less_than_comparable`. */
  method LessThanComparableCase(reg: Registry) returns (aLessB: bool)
    requires reg.Valid()
    modifies reg
    ensures reg.Valid()
    ensures aLessB
  {
    var a := new Any.FromValue(LessThanComparableType(4));
    var b := new Any.FromValue(LessThanComparableType(7));
    PoliciesProvideTheirOperators();
    aLessB := Less(LessThanFamily, a, b, reg);
    SameTypeExpected(reg.State().tags, a.content.held, b.content.held);
  }

  /** `a(4) != b(7)` and `c(7) == b(7)` under `equality_comparable`. */
  method EqualityComparableCase(reg: Registry) returns (aNotB: bool, cEqualsB: bool)
    requires reg.Valid()
    modifies reg
    ensures reg.Valid()
    ensures aNotB && cEqualsB
  {
    var a := new Any.FromValue(EqualsComparableType(4));
    var b := new Any.FromValue(EqualsComparableType(7));
    var c := new Any.FromValue(EqualsComparableType(7));
    PoliciesProvideTheirOperators();
    aNotB := NotEquals(EqualityFamily, a, b, reg);
    SameTypeExpected(reg.State().tags, a.content.held, b.content.held);
    cEqualsB := Equals(EqualityFamily, c, b, reg);
    SameTypeExpected(reg.State().tags, c.content.held, b.content.held);
  }

  /** Under `less_than_equals_comparable`, with values built by `make`
      (`FullyComparableType` or `DefaultComparableType`): `4 < 7`, `7 < 11`,
      `4 != 7` and `7 == 7`. */
  method FullyComparableCase(make: int -> TestValue, reg: Registry)
    returns (aLessB: bool, cLessD: bool, aNotB: bool, cEqualsB: bool)
    requires forall i :: make(i) == FullyComparableType(i) || make(i) == DefaultComparableType(i)
    requires TestType(make(4)) == TestType(make(7)) == TestType(make(11))
    requires reg.Valid()
    modifies reg
    ensures reg.Valid()
    ensures aLessB && cLessD && aNotB && cEqualsB
  {
    var a := new Any.FromValue(make(4));
    var b := new Any.FromValue(make(7));
    var c := new Any.FromValue(make(7));
    var d := new Any.FromValue(make(11));
    PoliciesProvideTheirOperators();
    aLessB := Less(FullFamily, a, b, reg);
    SameTypeExpected(reg.State().tags, make(4), make(7));
    assert aLessB;
    cLessD := Less(FullFamily, c, d, reg);
    SameTypeExpected(reg.State().tags, make(7), make(11));
    assert cLessD;
    aNotB := NotEquals(FullFamily, a, b, reg);
    SameTypeExpected(reg.State().tags, make(4), make(7));
    assert aNotB;
    cEqualsB := Equals(FullFamily, c, b, reg);
    SameTypeExpected(reg.State().tags, make(7), make(7));
    assert cEqualsB;
  }

  /** The two full-policy cases run one after the other on the family's one registry. */
  method FullPolicyCases(reg: Registry) returns (specialised: bool, native: bool)
    requires reg.Valid()
    modifies reg
    ensures reg.Valid()
    ensures specialised && native
  {
    var l1, l2, n, e := FullyComparableCase(i => FullyComparableType(i), reg);
    specialised := l1 && l2 && n && e;
    l1, l2, n, e := FullyComparableCase(i => DefaultComparableType(i), reg);
    native := l1 && l2 && n && e;
  }
}
