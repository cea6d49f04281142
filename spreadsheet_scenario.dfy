/** The "spreadsheet operations" scenario, step by step on one map. */
module SpreadsheetScenario {
  import opened Wrappers
  import opened DecimalText
  import opened Spreadsheet
  import opened Sheet

  /** The map after the four inserts. */
  const Inserted4: seq<Entry> := [ Entry(LegacyCellId(1), StringCell("first cell")),
                                   Entry(LegacyCellId(2), FormulaCell("50-8")),
                                   Entry(LegacyCellId(3), ValueCell(80)),
                                   Entry(CoordinateCellId(42), FormulaCell("")) ]

  /** The map after the two updates. */
  const Updated4: seq<Entry> := [ Entry(LegacyCellId(1), StringCell("3412")),
                                  Entry(LegacyCellId(2), FormulaCell("50-8")),
                                  Entry(LegacyCellId(3), ValueCell(80)),
                                  Entry(CoordinateCellId(42), FormulaCell("3*9")) ]

  /** The numbers the scenario writes. */
  lemma Rendered()
    ensures IntToString(10) == "10" && IntToString(27) == "27" && IntToString(42) == "42"
    ensures IntToString(80) == "80" && IntToString(3412) == "3412"
  {
    assert NatToString(10) == NatToString(1) + [DigitChar(0)];
    assert NatToString(27) == NatToString(2) + [DigitChar(7)];
    assert NatToString(42) == NatToString(4) + [DigitChar(2)];
    assert NatToString(80) == NatToString(8) + [DigitChar(0)];
    assert NatToString(3412) == NatToString(341) + [DigitChar(2)] by {
      assert NatToString(341) == NatToString(34) + [DigitChar(1)];
      assert NatToString(34) == NatToString(3) + [DigitChar(4)];
    }
  }

  /** The numbers the scenario reads back from text. */
  lemma Parsed()
    ensures ParseDecimal("80") == 80 && ParseDecimal("42") == 42 && ParseDecimal("3412") == 3412
    ensures MakeValueCell("80") == ValueCell(80)
    ensures MakeValueCell("42") == ValueCell(42) && MakeValueCell("3412") == ValueCell(3412)
  {
    Rendered();
    IntRoundTrip(80);
    IntRoundTrip(42);
    IntRoundTrip(3412);
  }

  /** Each insert puts its key after the ones before it; `CoordinateCellId(10,2)`
      has index 42 and goes after the three legacy keys. */
  lemma FirstInserts()
    ensures Inserted([], LegacyCellId(1), StringCell("first cell")) == Inserted4[..1]
    ensures Sorted(Inserted4[..1]) && Inserted(Inserted4[..1], LegacyCellId(2), FormulaCell("50-8")) == Inserted4[..2]
  {
  }

  lemma ThirdInsert()
    ensures Sorted(Inserted4[..2]) && Inserted(Inserted4[..2], LegacyCellId(3), ValueCell(80)) == Inserted4[..3]
  {
    var e3 := Entry(LegacyCellId(3), ValueCell(80));
    assert Inserted([], LegacyCellId(3), ValueCell(80)) == [e3];
    assert Inserted(Inserted4[1..2], LegacyCellId(3), ValueCell(80)) == [Inserted4[1], e3];
    assert Inserted4[..2][1..] == Inserted4[1..2];
  }

  lemma FourthInsert()
    ensures Sorted(Inserted4[..3]) && Inserted(Inserted4[..3], MakeCoordinate(10, 2), FormulaCell("")) == Inserted4
  {
    var k := MakeCoordinate(10, 2);
    var e4 := Entry(k, FormulaCell(""));
    assert Index(k) == 42;
    assert Inserted([], k, FormulaCell("")) == [e4];
    assert Inserted(Inserted4[2..3], k, FormulaCell("")) == [Inserted4[2], e4];
    assert Inserted4[1..3][1..] == Inserted4[2..3];
    assert Inserted(Inserted4[1..3], k, FormulaCell("")) == [Inserted4[1], Inserted4[2], e4];
    assert Inserted4[..3][1..] == Inserted4[1..3];
  }

  /** What each inserted key displays as. */
  lemma InsertedKeysDisplay()
    ensures DisplayCellLocation(Inserted4[0].key) == "[1]" && DisplayCellLocation(Inserted4[1].key) == "[2]"
    ensures DisplayCellLocation(Inserted4[2].key) == "[3]" && DisplayCellLocation(Inserted4[3].key) == "10,2"
  {
    Rendered();
  }

  lemma InsertedLocationsStart()
    ensures Locations(Inserted4[..2]) == "[1]#[2]#"
  {
    InsertedKeysDisplay();
    assert Inserted4[..0] == [];
    LocationsStep(Inserted4, 0);
    LocationsStep(Inserted4, 1);
  }

  lemma InsertedLocationsThree()
    ensures Locations(Inserted4[..3]) == "[1]#[2]#[3]#"
  {
    InsertedKeysDisplay();
    InsertedLocationsStart();
    LocationsStep(Inserted4, 2);
  }

  lemma InsertedLocations()
    ensures Locations(Inserted4) == "[1]#[2]#[3]#10,2#"
  {
    InsertedKeysDisplay();
    InsertedLocationsThree();
    assert Inserted4[..4] == Inserted4;
    LocationsStep(Inserted4, 3);
  }

  /** What each updated content shows. */
  lemma UpdatedContentsShow()
    ensures Show(Updated4[0].content) == "3412" && Show(Updated4[1].content) == "f():42"
    ensures Show(Updated4[2].content) == "80" && Show(Updated4[3].content) == "f():27"
  {
    Rendered();
  }

  lemma UpdatedListingStart()
    ensures Shows(Updated4[..2]) == "3412#f():42#"
  {
    UpdatedContentsShow();
    assert Updated4[..0] == [];
    ShowsStep(Updated4, 0);
    ShowsStep(Updated4, 1);
  }

  lemma UpdatedListingThree()
    ensures Shows(Updated4[..3]) == "3412#f():42#80#"
  {
    UpdatedContentsShow();
    UpdatedListingStart();
    ShowsStep(Updated4, 2);
  }

  lemma UpdatedListing()
    ensures Shows(Updated4) == "3412#f():42#80#f():27#"
  {
    UpdatedContentsShow();
    UpdatedListingThree();
    assert Updated4[..4] == Updated4;
    ShowsStep(Updated4, 3);
  }

  lemma UpdatedSum()
    ensures Sum(Updated4) == 149
  {
    assert Updated4[..0] == [] && Updated4[..4] == Updated4;
    SumStep(Updated4, 0);
    SumStep(Updated4, 1);
    SumStep(Updated4, 2);
    SumStep(Updated4, 3);
  }

  /** The three look-ups: `CoordinateCellId(2,0)` and `CoordinateCellId(1,0)`
      find legacy keys, `LegacyCellId(42)` finds `CoordinateCellId(10,2)`. */
  lemma LookupsAcrossKeyTypes()
    ensures FindKey(Inserted4, MakeCoordinate(2, 0)) == Some(1)
    ensures FindKey(Inserted4, MakeCoordinate(1, 0)) == Some(0)
    ensures FindKey(Inserted4[0 := Entry(LegacyCellId(1), StringCell("3412"))], LegacyCellId(42)) == Some(3)
    ensures Inserted4[0 := Entry(LegacyCellId(1), StringCell("3412"))][3 := Entry(CoordinateCellId(42), FormulaCell("3*9"))]
            == Updated4
  {
  }

  /** The three `find_if`s over the updated map that find an entry. */
  lemma UpdatedMatches()
    ensures FirstMatch(Updated4, StringCell("27")) == Some(3)
    ensures FirstMatch(Updated4, ValueCell(42)) == Some(1)
    ensures FirstMatch(Updated4, ValueCell(3412)) == Some(0)
    ensures Show(Updated4[3].content) == "f():27" && Show(Updated4[1].content) == "f():42"
    ensures Show(Updated4[0].content) == "3412"
  {
    Rendered();
    assert Canon(Updated4[0].content) == "3412";
    assert Canon(Updated4[1].content) == "42";
    assert Canon(Updated4[2].content) == "80";
    assert Canon(Updated4[3].content) == "27";
    assert Updated4[1..][1..][1..] == [Updated4[3]];
  }

  /** The `find_if` for the text "0" finds nothing: no entry renders as "0". */
  lemma NoMatchForZero()
    ensures FirstMatch(Updated4, StringCell("0")) == None
  {
    Rendered();
    IntToStringInjective(0, 27);
    IntToStringInjective(0, 42);
    IntToStringInjective(0, 80);
    IntToStringInjective(0, 3412);
    var probe := StringCell("0");
    assert Canon(probe) == IntToString(0);
    assert forall i :: 0 <= i < |Updated4| ==> Canon(Updated4[i].content) != Canon(probe);
    FirstMatchMeaning(Updated4, probe);
  }

  /** What the iterator `f` shows, or nothing when `f == data.end()`. */
  function ShownAt(es: seq<Entry>, f: Option<nat>): Option<string> {
    if f.Some? && f.value < |es| then Some(Show(es[f.value].content)) else None
  }

  /** Four inserts, the location listing, two look-ups across key types with
      an update each, the content listing, the sum, and four `find_if`s. */
  method Run() returns (locations: string, found42: int, afterText: int, afterFormula: int,
                        shown: string, total: int,
                        match27: Option<string>, match42: Option<string>,
                        match3412: Option<string>, match0: Option<string>)
    ensures locations == "[1]#[2]#[3]#10,2#"
    ensures found42 == 42 && afterText == 0 && afterFormula == 27
    ensures shown == "3412#f():42#80#f():27#"
    ensures total == 149
    ensures match27 == Some("f():27") && match42 == Some("f():42") && match3412 == Some("3412")
    ensures match0 == None
  {
    Rendered();
    Parsed();
    FirstInserts();
    ThirdInsert();
    FourthInsert();
    var data := new CellMap();
    data.Insert(LegacyCellId(1), StringCell("first cell"));
    data.Insert(LegacyCellId(2), FormulaCell("50-8"));
    data.Insert(LegacyCellId(3), MakeValueCell("80"));
    data.Insert(MakeCoordinate(10, 2), FormulaCell(""));
    InsertedLocations();
    locations := data.DisplayLocations();

    var f := data.Find(MakeCoordinate(2, 0));
    found42 := Calculate(data.entries[f.value].content);

    LookupsAcrossKeyTypes();
    f := data.Find(MakeCoordinate(1, 0));
    data.Update(f.value, "3412");
    afterText := Calculate(data.entries[f.value].content);

    f := data.Find(LegacyCellId(42));
    data.Update(f.value, "3*9");
    afterFormula := Calculate(data.entries[f.value].content);

    UpdatedListing();
    UpdatedSum();
    shown := data.ShowContents();
    total := data.SumValues();

    UpdatedMatches();
    NoMatchForZero();
    assert data.entries == Updated4;
    var m := data.FindIf(StringCell("27"));
    match27 := ShownAt(data.entries, m);
    m := data.FindIf(MakeValueCell("42"));
    match42 := ShownAt(data.entries, m);
    m := data.FindIf(MakeValueCell("3412"));
    match3412 := ShownAt(data.entries, m);
    m := data.FindIf(StringCell("0"));
    match0 := ShownAt(data.entries, m);
  }
}
