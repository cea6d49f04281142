/** The `std::map<CellId, Any>` of the spreadsheet scenario: entries kept in
    key order, where the key order is the index order that the erased `<`
    on keys was proved to be (`Spreadsheet.KeyLessIsIndexOrder`). */
module Sheet {
  import opened Wrappers
  import opened DecimalText
  import opened Spreadsheet

  datatype Entry = Entry(key: CellId, content: CellContent)

  /** Map order: ascending index, so no two keys are equivalent. */
  ghost predicate Sorted(es: seq<Entry>) {
    forall i, j :: 0 <= i < j < |es| ==> Index(es[i].key) < Index(es[j].key)
  }

  /** `find(k)`: the position of the entry whose key is equivalent to `k`. */
  function FindKey(es: seq<Entry>, k: CellId): (r: Option<nat>)
    ensures r.Some? ==> r.value < |es| && Index(es[r.value].key) == Index(k)
    ensures r.None? ==> forall i :: 0 <= i < |es| ==> Index(es[i].key) != Index(k)
  {
    if es == [] then None
    else if Index(es[0].key) == Index(k) then Some(0)
    else
      var t := FindKey(es[1..], k);
      assert forall j :: 1 <= j < |es| ==> es[j] == es[1..][j - 1];
      if t.None? then None else Some(t.value + 1)
  }

  /** Dropping the first entry keeps the order. */
  lemma SortedTail(es: seq<Entry>)
    requires Sorted(es) && es != []
    ensures Sorted(es[1..])
  {
    var tail := es[1..];
    forall i, j | 0 <= i < j < |tail| ensures Index(tail[i].key) < Index(tail[j].key) {
      assert tail[i] == es[i + 1] && tail[j] == es[j + 1];
    }
  }

  /** An entry below every entry of an ordered map can go in front. */
  lemma SortedCons(e: Entry, es: seq<Entry>)
    requires Sorted(es)
    requires forall x :: x in es ==> Index(e.key) < Index(x.key)
    ensures Sorted([e] + es)
  {
    var r := [e] + es;
    forall i, j | 0 <= i < j < |r| ensures Index(r[i].key) < Index(r[j].key) {
      assert r[j] == es[j - 1] && es[j - 1] in es;
      if i > 0 {
        assert r[i] == es[i - 1];
      }
    }
  }

  /** `insert(make_pair(k, c))`: nothing happens if an equivalent key is
      present; otherwise the entry goes in at its place in key order, and
      the map holds exactly one entry more. */
  function Inserted(es: seq<Entry>, k: CellId, c: CellContent): (r: seq<Entry>)
    requires Sorted(es)
    ensures FindKey(es, k).Some? ==> r == es
    ensures FindKey(es, k).None? ==> multiset(r) == multiset(es) + multiset{Entry(k, c)}
  {
    if es == [] then [Entry(k, c)]
    else if Index(k) < Index(es[0].key) then [Entry(k, c)] + es
    else if Index(k) == Index(es[0].key) then es
    else
      SortedTail(es);
      assert es == [es[0]] + es[1..];
      [es[0]] + Inserted(es[1..], k, c)
  }

  /** Inserting keeps the map in key order. */
  lemma {:induction false} InsertedKeepsOrder(es: seq<Entry>, k: CellId, c: CellContent)
    requires Sorted(es)
    ensures Sorted(Inserted(es, k, c))
    decreases |es|
  {
    if es == [] {
    } else if Index(k) < Index(es[0].key) {
      SortedCons(Entry(k, c), es);
    } else if Index(k) == Index(es[0].key) {
    } else {
      var tail := es[1..];
      SortedTail(es);
      InsertedKeepsOrder(tail, k, c);
      var rest := Inserted(tail, k, c);
      forall e | e in rest ensures Index(es[0].key) < Index(e.key) {
        assert e in multiset(rest);
        if e != Entry(k, c) {
          assert e in multiset(tail);
          var j :| 0 <= j < |tail| && tail[j] == e;
          assert es[j + 1] == e;
        }
      }
      SortedCons(es[0], rest);
    }
  }

  /** The keys' locations in key order, each followed by `#`. */
  function Locations(es: seq<Entry>): string {
    if es == [] then "" else Locations(es[..|es| - 1]) + DisplayCellLocation(es[|es| - 1].key) + "#"
  }

  /** The contents shown in key order, each followed by `#`. */
  function Shows(es: seq<Entry>): string {
    if es == [] then "" else Shows(es[..|es| - 1]) + Show(es[|es| - 1].content) + "#"
  }

  /** `accumulate` of `calculate()` over the entries. */
  function Sum(es: seq<Entry>): int {
    if es == [] then 0 else Sum(es[..|es| - 1]) + Calculate(es[|es| - 1].content)
  }

  /** One entry more of the map adds its location, its shown content, its
      result. */
  lemma LocationsStep(es: seq<Entry>, i: nat)
    requires i < |es|
    ensures Locations(es[..i + 1]) == Locations(es[..i]) + DisplayCellLocation(es[i].key) + "#"
  {
    assert es[..i + 1][..i] == es[..i];
  }

  lemma ShowsStep(es: seq<Entry>, i: nat)
    requires i < |es|
    ensures Shows(es[..i + 1]) == Shows(es[..i]) + Show(es[i].content) + "#"
  {
    assert es[..i + 1][..i] == es[..i];
  }

  lemma SumStep(es: seq<Entry>, i: nat)
    requires i < |es|
    ensures Sum(es[..i + 1]) == Sum(es[..i]) + Calculate(es[i].content)
  {
    assert es[..i + 1][..i] == es[..i];
  }

  /** `find_if` with `probe == entry.second`: the first entry whose content
      equals the probe, equality being the rendered comparison proved equal
      to the erased `==` (`Spreadsheet.ContentEqualsIsCanonical`). */
  function FirstMatch(es: seq<Entry>, probe: CellContent): (r: Option<nat>)
    ensures r.Some? ==> r.value < |es|
  {
    if es == [] then None
    else if Canon(probe) == Canon(es[0].content) then Some(0)
    else
      var t := FirstMatch(es[1..], probe);
      if t.None? then None else Some(t.value + 1)
  }

  /** `find_if` finds the first matching entry, and finds none exactly when
      no entry matches. */
  lemma {:induction false} FirstMatchMeaning(es: seq<Entry>, probe: CellContent)
    ensures var r := FirstMatch(es, probe);
            && (r.Some? ==> && Canon(es[r.value].content) == Canon(probe)
                            && forall i :: 0 <= i < r.value ==> Canon(es[i].content) != Canon(probe))
            && (r.None? ==> forall i :: 0 <= i < |es| ==> Canon(es[i].content) != Canon(probe))
  {
    if es != [] && Canon(probe) != Canon(es[0].content) {
      FirstMatchMeaning(es[1..], probe);
      assert forall j :: 1 <= j < |es| ==> es[j] == es[1..][j - 1];
    }
  }

  /** The scenario's map, updated in place. */
  class CellMap {
    var entries: seq<Entry>

    ghost predicate Valid()
      reads this
    {
      Sorted(entries)
    }

    constructor ()
      ensures Valid() && entries == []
    {
      entries := [];
    }

    method Insert(k: CellId, c: CellContent)
      requires Valid()
      modifies this
      ensures Valid() && entries == Inserted(old(entries), k, c)
    {
      InsertedKeepsOrder(entries, k, c);
      entries := Inserted(entries, k, c);
    }

    method Find(k: CellId) returns (r: Option<nat>)
      ensures r == FindKey(entries, k)
    {
      r := FindKey(entries, k);
    }

    /** `f->second.update(s)` through the iterator `f`: only that entry's
        content changes, and its key stays. */
    method Update(i: nat, s: string)
      requires Valid()
      requires i < |entries| && Accepts(entries[i].content, s)
      modifies this
      ensures Valid()
      ensures entries == old(entries)[i := Entry(old(entries[i].key), Updated(old(entries[i].content), s))]
    {
      entries := entries[i := Entry(entries[i].key, Updated(entries[i].content, s))];
    }

    /** The iteration that streams each key's location and `#`. */
    method DisplayLocations() returns (out: string)
      ensures out == Locations(entries)
    {
      out := "";
      var i := 0;
      while i < |entries|
        invariant 0 <= i <= |entries|
        invariant out == Locations(entries[..i])
      {
        assert entries[..i + 1][..i] == entries[..i];
        out := out + DisplayCellLocation(entries[i].key) + "#";
        i := i + 1;
      }
      assert entries[..i] == entries;
    }

    /** The iteration that streams each content's `show` and `#`. */
    method ShowContents() returns (out: string)
      ensures out == Shows(entries)
    {
      out := "";
      var i := 0;
      while i < |entries|
        invariant 0 <= i <= |entries|
        invariant out == Shows(entries[..i])
      {
        assert entries[..i + 1][..i] == entries[..i];
        out := out + Show(entries[i].content) + "#";
        i := i + 1;
      }
      assert entries[..i] == entries;
    }

    /** `accumulate(begin, end, 0, SumValues())`. */
    method SumValues() returns (total: int)
      ensures total == Sum(entries)
    {
      total := 0;
      var i := 0;
      while i < |entries|
        invariant 0 <= i <= |entries|
        invariant total == Sum(entries[..i])
      {
        assert entries[..i + 1][..i] == entries[..i];
        total := total + Calculate(entries[i].content);
        i := i + 1;
      }
      assert entries[..i] == entries;
    }

    /** `find_if(begin, end, CompareContent(probe))`. */
    method FindIf(probe: CellContent) returns (r: Option<nat>)
      ensures r == FirstMatch(entries, probe)
    {
      var target := Canon(probe);
      var i := 0;
      while i < |entries| && Canon(entries[i].content) != target
        invariant 0 <= i <= |entries|
        invariant forall j :: 0 <= j < i ==> Canon(entries[j].content) != target
      {
        i := i + 1;
      }
      FirstMatchMeaning(entries, probe);
      ghost var first := FirstMatch(entries, probe);
      if i < |entries| {
        assert first.Some? && first.value == i;
        r := Some(i);
      } else {
        r := None;
      }
    }
  }
}
