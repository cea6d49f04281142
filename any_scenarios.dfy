/** The basic and `call` cases of `any`: emptiness, the held value, copies
    and forwarding an operation to the held value. */
module AnyScenarios {
  import opened Wrappers
  import opened AnyFacade

  /** A default `any` is empty; one built from 42 is not, and hands back 42
      through the forwarded `value()`. */
  method EmptinessCases() returns (defaultEmpty: bool, valueEmpty: bool, held: int)
    ensures defaultEmpty && !valueEmpty && held == 42
  {
    var a := new Any<int>();
    defaultEmpty := a.Empty();
    var b := new Any.FromValue(42);
    valueEmpty := b.Empty();
    held := b.Call(v => v);
  }

  /** `a.call(&f0)` with `f0` returning the held value, and `a.call(&f1, 2)`
      with `f1(t1)` returning held + t1, on an `any` holding 1. */
  method CallCases() returns (r0: int, r1: int)
    ensures r0 == 1 && r1 == 3
  {
    var a := new Any.FromValue(1);
    r0 := a.Call(held => held);
    var t1 := 2;
    r1 := a.Call(held => held + t1);
  }

  /** A copy of an empty `any` is empty; a copy of a full one owns another
      holder with the same value; assignment and swap move contents as
      described, leaving the source intact. */
  method CopyCases() returns (emptyCopyEmpty: bool, distinct: bool, copied: Option<int>,
                              afterAssign: Option<int>, sourceAfter: Option<int>,
                              swappedLeft: Option<int>, swappedRight: Option<int>)
    ensures emptyCopyEmpty && distinct
    ensures copied == Some(7) && afterAssign == Some(7) && sourceAfter == Some(7)
    ensures swappedLeft == Some(7) && swappedRight == None
  {
    var e := new Any<int>();
    var eCopy := new Any.Copy(e);
    emptyCopyEmpty := eCopy.Empty();

    var a := new Any.FromValue(7);
    var aCopy := new Any.Copy(a);
    distinct := aCopy.content != a.content;
    copied := aCopy.Contents();

    var target := new Any.FromValue(3);
    target.Assign(a);
    afterAssign := target.Contents();
    sourceAfter := a.Contents();

    var left := new Any<int>();
    left.Swap(target);
    swappedLeft := left.Contents();
    swappedRight := target.Contents();
  }
}
