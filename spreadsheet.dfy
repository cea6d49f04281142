/** The spreadsheet cell types built on the override hook: two key types that
    order against each other by integer index, and three content types that
    compare equal across types through the decimal rendering of their value. */
module Spreadsheet {
  import opened Wrappers
  import opened TypeInfo
  import opened Comparability
  import opened AnyFacade
  import opened DecimalText

  const CellsPerRow := 16

  /** A C++ `int` value. */
  predicate InInt32(i: int) { -0x8000_0000 <= i < 0x8000_0000 }

  // ---------------------------------------------------------------- keys

  datatype CellId =
    | CoordinateCellId(index: int)  // m_index
    | LegacyCellId(key: int)        // m_key

  /** `CoordinateCellId(x, y)`. */
  function MakeCoordinate(x: int, y: int): CellId {
    CoordinateCellId(y * CellsPerRow + x)
  }

  /** The integer both key types are ordered by: `m_index` or `key()`. */
  function Index(id: CellId): int {
    match id
    case CoordinateCellId(i) => i
    case LegacyCellId(k) => k
  }

  /** `displayCellLocation`: a coordinate prints column and row (`%` and `/`
      truncate as in C++), a legacy key prints in brackets. */
  function DisplayCellLocation(id: CellId): string {
    match id
    case CoordinateCellId(i) =>
      IntToString(TruncMod(i, CellsPerRow)) + "," + IntToString(TruncDiv(i, CellsPerRow))
    case LegacyCellId(k) => "[" + IntToString(k) + "]"
  }

  /** A coordinate on the sheet displays as the column and row it was made from. */
  lemma CoordinateDisplayRoundTrip(x: int, y: int)
    requires 0 <= x < CellsPerRow && y >= 0
    ensures DisplayCellLocation(MakeCoordinate(x, y)) == IntToString(x) + "," + IntToString(y)
  {
    var i := y * CellsPerRow + x;
    assert i / CellsPerRow == y;
    assert TruncDiv(i, CellsPerRow) == y;
    assert TruncMod(i, CellsPerRow) == x;
  }

  const CoordinateType := Named("CoordinateCellId")
  const LegacyType := Named("LegacyCellId")

  function KeyType(id: CellId): CppType {
    if id.CoordinateCellId? then CoordinateType else LegacyType
  }

  /** Same-type `less`: the default `less<T>`, through `operator<` on
      `m_index`, for coordinates; the `less<LegacyCellId>` specialisation on
      `key()` for legacy keys. */
  predicate SameKindLess(a: CellId, b: CellId) {
    match (a, b)
    case (CoordinateCellId(i), CoordinateCellId(j)) => DefaultLess(i, j)
    case (LegacyCellId(k), LegacyCellId(l)) => k < l
    case _ => false
  }

  /** The `less` hooks of the two key holders: each special-cases the other
      key type and compares index with key. */
  function KeyOverrides(t: CppType): seq<Override<CellId>> {
    if t == CoordinateType then [Override(LegacyType, (a: CellId, b: CellId) => a.CoordinateCellId? && b.LegacyCellId? && a.index < b.key)]
    else if t == LegacyType then [Override(CoordinateType, (a: CellId, b: CellId) => a.LegacyCellId? && b.CoordinateCellId? && a.key < b.index)]
    else []
  }

  /** `any<interfaces<Cell>, less_than_comparable>`. */
  const KeyFamily: Family<CellId> := Family(KeyType, None, Some(Hooks(SameKindLess, KeyOverrides)))

  /** Whatever the registry holds, the erased key order is the order of the
      indices, within one key type and across the two. */
  lemma KeyLessIsIndexOrder(s: RegistryState, a: CellId, b: CellId)
    requires ValidState(s)
    ensures HolderLess(KeyFamily, s, a, b).result == (Index(a) < Index(b))
  {
    HolderCompareMeaning(KeyFamily, Ordering, s, a, b);
    var overrides := KeyOverrides(KeyType(a));
    if KeyType(a) == KeyType(b) {
      assert FirstOverride(overrides, KeyType(b)) == None by {
        assert FirstOverride(overrides[1..], KeyType(b)) == None;
      }
    } else {
      assert FirstOverride(overrides, KeyType(b)) == Some(overrides[0]);
    }
  }

  /** `A < B` implies `!(B < A)`, also when the registry has moved on. */
  lemma KeyLessIsAsymmetric(s: RegistryState, s': RegistryState, a: CellId, b: CellId)
    requires ValidState(s) && ValidState(s')
    ensures HolderLess(KeyFamily, s, a, b).result ==> !HolderLess(KeyFamily, s', b, a).result
  {
    KeyLessIsIndexOrder(s, a, b);
    KeyLessIsIndexOrder(s', b, a);
  }

  lemma KeyLessIsTransitive(s1: RegistryState, s2: RegistryState, s3: RegistryState, a: CellId, b: CellId, c: CellId)
    requires ValidState(s1) && ValidState(s2) && ValidState(s3)
    requires HolderLess(KeyFamily, s1, a, b).result && HolderLess(KeyFamily, s2, b, c).result
    ensures HolderLess(KeyFamily, s3, a, c).result
  {
    KeyLessIsIndexOrder(s1, a, b);
    KeyLessIsIndexOrder(s2, b, c);
    KeyLessIsIndexOrder(s3, a, c);
  }

  /** Two keys are equivalent (neither is before the other) exactly when
      their indices are equal, whatever their types: `CoordinateCellId(2,0)`
      finds `LegacyCellId(2)`. */
  lemma KeysEquivalentIffSameIndex(s: RegistryState, s': RegistryState, a: CellId, b: CellId)
    requires ValidState(s) && ValidState(s')
    ensures (!HolderLess(KeyFamily, s, a, b).result && !HolderLess(KeyFamily, s', b, a).result)
            <==> Index(a) == Index(b)
  {
    KeyLessIsIndexOrder(s, a, b);
    KeyLessIsIndexOrder(s', b, a);
  }

  /** The index order, which the erased order equals, is a strict weak order. */
  lemma IndexOrderIsStrictWeakOrder()
    ensures StrictWeakOrder((a: CellId, b: CellId) => Index(a) < Index(b))
  {
    var lt := (a: CellId, b: CellId) => Index(a) < Index(b);
    forall x: CellId, y: CellId, z: CellId | Incomparable(lt, x, y) && Incomparable(lt, y, z)
      ensures Incomparable(lt, x, z)
    {
      assert Index(x) == Index(y) == Index(z);
    }
  }

  // ---------------------------------------------------------------- contents

  datatype CellContent =
    | StringCell(content: string)   // m_content
    | ValueCell(value: int)         // m_value
    | FormulaCell(formula: string)  // m_formula

  /** `calculate()`: 0 for text, the value, or the formula's result. */
  function Calculate(c: CellContent): int {
    match c
    case StringCell(_) => 0
    case ValueCell(v) => v
    case FormulaCell(f) => if f == "50-8" then 42 else if f == "3*9" then 27 else 0
  }

  /** `show(os)`: the text, the value, or `f():` and the formula's result. */
  function Show(c: CellContent): string {
    match c
    case StringCell(s) => s
    case ValueCell(v) => IntToString(v)
    case FormulaCell(_) => "f():" + IntToString(Calculate(c))
  }

  /** What `update(s)` accepts: any text, except that a value cell is given
      a well-formed decimal that fits an `int`. */
  predicate Accepts(c: CellContent, s: string) {
    c.ValueCell? ==> IsDecimal(s) && InInt32(ParseDecimal(s))
  }

  /** `update(s)`: replaces the text or the formula, or re-reads the value. */
  function Updated(c: CellContent, s: string): (r: CellContent)
    requires Accepts(c, s)
    ensures r.StringCell? == c.StringCell? && r.ValueCell? == c.ValueCell? && r.FormulaCell? == c.FormulaCell?
    ensures r.StringCell? ==> r.content == s
    ensures r.FormulaCell? ==> r.formula == s
    ensures r.ValueCell? ==> r.value == ParseDecimal(s)
  {
    match c
    case StringCell(_) => StringCell(s)
    case ValueCell(_) => ValueCell(ParseDecimal(s))
    case FormulaCell(_) => FormulaCell(s)
  }

  /** `ValueCell(s)`: starts at 0, then `update(s)`. */
  function MakeValueCell(s: string): CellContent
    requires IsDecimal(s) && InInt32(ParseDecimal(s))
  {
    Updated(ValueCell(0), s)
  }

  /** Updating a text or value cell with what it shows gives the cell back. */
  lemma UpdateWithShownText(c: CellContent)
    requires !c.FormulaCell?
    requires c.ValueCell? ==> InInt32(c.value)
    ensures Accepts(c, Show(c)) && Updated(c, Show(c)) == c
  {
    if c.ValueCell? {
      IntRoundTrip(c.value);
    }
  }

  const StringType := Named("StringCell")
  const ValueType := Named("ValueCell")
  const FormulaType := Named("FormulaCell")

  function ContentType(c: CellContent): CppType {
    match c
    case StringCell(_) => StringType
    case ValueCell(_) => ValueType
    case FormulaCell(_) => FormulaType
  }

  /** Same-type `equals`: `operator==` on the text or the value, and the
      `equals<FormulaCell>` specialisation on the calculated result. */
  predicate SameKindEquals(a: CellContent, b: CellContent) {
    match (a, b)
    case (StringCell(x), StringCell(y)) => x == y
    case (ValueCell(x), ValueCell(y)) => x == y
    case (FormulaCell(_), FormulaCell(_)) => Calculate(a) == Calculate(b)
    case _ => false
  }

  /** The `equals` hooks of the three content holders, in source order: text
      against the decimal rendering of the other's result, and value against
      formula as integers. */
  function ContentOverrides(t: CppType): seq<Override<CellContent>> {
    if t == StringType then
      [ Override(FormulaType, (a: CellContent, b: CellContent) => a.StringCell? && a.content == IntToString(Calculate(b))),
        Override(ValueType, (a: CellContent, b: CellContent) => a.StringCell? && a.content == IntToString(Calculate(b))) ]
    else if t == ValueType then
      [ Override(FormulaType, (a: CellContent, b: CellContent) => a.ValueCell? && a.value == Calculate(b)),
        Override(StringType, (a: CellContent, b: CellContent) => b.StringCell? && IntToString(Calculate(a)) == b.content) ]
    else if t == FormulaType then
      [ Override(StringType, (a: CellContent, b: CellContent) => b.StringCell? && IntToString(Calculate(a)) == b.content),
        Override(ValueType, (a: CellContent, b: CellContent) => b.ValueCell? && Calculate(a) == b.value) ]
    else []
  }

  /** `any<interfaces<Calculation, Content>, equality_comparable>`. */
  const ContentFamily: Family<CellContent> := Family(ContentType, Some(Hooks(SameKindEquals, ContentOverrides)), None)

  /** Which special case of the hook of `a`'s holder applies to `b`. */
  lemma ContentOverridesChoice(a: CellContent, b: CellContent)
    ensures var first := FirstOverride(ContentOverrides(ContentType(a)), ContentType(b));
            && (ContentType(a) == ContentType(b) <==> first.None?)
            && (first.Some? ==> first.value.other == ContentType(b))
  {
    var overrides := ContentOverrides(ContentType(a));
    assert FirstOverride(overrides[2..], ContentType(b)) == None;
    if ContentType(b) != overrides[0].other {
      assert FirstOverride(overrides, ContentType(b)) == FirstOverride(overrides[1..], ContentType(b));
    }
  }

  /** The text a content cell is compared by: its own text, or the decimal
      rendering of its result. */
  function Canon(c: CellContent): string {
    if c.StringCell? then c.content else IntToString(Calculate(c))
  }

  /** A text or value cell shows exactly the text it is compared by; a
      formula cell shows it after `f():`. */
  lemma ShowIsCanon(c: CellContent)
    ensures c.FormulaCell? ==> Show(c) == "f():" + Canon(c)
    ensures !c.FormulaCell? ==> Show(c) == Canon(c)
  {
  }

  /** Whatever the registry holds, two contents are equal exactly when they
      render alike, whatever their types. */
  lemma ContentEqualsIsCanonical(s: RegistryState, a: CellContent, b: CellContent)
    requires ValidState(s)
    ensures HolderEquals(ContentFamily, s, a, b).result == (Canon(a) == Canon(b))
  {
    HolderCompareMeaning(ContentFamily, Equality, s, a, b);
    IntToStringInjective(Calculate(a), Calculate(b));
    ContentOverridesChoice(a, b);
  }

  /** Two formula cells are equal iff their results are. */
  lemma FormulaEqualIffSameResult(s: RegistryState, a: CellContent, b: CellContent)
    requires ValidState(s)
    requires a.FormulaCell? && b.FormulaCell?
    ensures HolderEquals(ContentFamily, s, a, b).result <==> Calculate(a) == Calculate(b)
  {
    HolderCompareMeaning(ContentFamily, Equality, s, a, b);
    ContentOverridesChoice(a, b);
  }

  /** Every cross-type pair is defined consistently both ways. */
  lemma ContentEqualsIsSymmetric(s: RegistryState, s': RegistryState, a: CellContent, b: CellContent)
    requires ValidState(s) && ValidState(s')
    ensures HolderEquals(ContentFamily, s, a, b).result == HolderEquals(ContentFamily, s', b, a).result
  {
    ContentEqualsIsCanonical(s, a, b);
    ContentEqualsIsCanonical(s', b, a);
  }

  lemma ContentEqualsIsTransitive(s1: RegistryState, s2: RegistryState, s3: RegistryState,
                                  a: CellContent, b: CellContent, c: CellContent)
    requires ValidState(s1) && ValidState(s2) && ValidState(s3)
    requires HolderEquals(ContentFamily, s1, a, b).result && HolderEquals(ContentFamily, s2, b, c).result
    ensures HolderEquals(ContentFamily, s3, a, c).result
  {
    ContentEqualsIsCanonical(s1, a, b);
    ContentEqualsIsCanonical(s2, b, c);
    ContentEqualsIsCanonical(s3, a, c);
  }

  /** Every content equals itself, so a copy equals its original. */
  lemma ContentEqualsIsReflexive(s: RegistryState, a: CellContent)
    requires ValidState(s)
    ensures HolderEquals(ContentFamily, s, a, a).result
  {
    ContentEqualsIsCanonical(s, a, a);
  }
}
