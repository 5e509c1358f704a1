/**
 * Decoding a sequence item by item, stopping at the first item that fails:
 * the shape of every conversion loop of the two bindings (`?` inside a
 * `for` loop that pushes into a `Vec`).
 */
module Decoding {
  import opened Wrappers

  /** Decode `items` in order with `f` (given each item's index); the first error wins. */
  function DecodeAll<A, B, E>(items: seq<A>, f: (nat, A) -> Result<B, E>): Result<seq<B>, E> {
    if |items| == 0 then Ok([])
    else
      match DecodeAll(items[..|items| - 1], f)
      case Err(e) => Err(e)
      case Ok(prefix) =>
        match f(|items| - 1, items[|items| - 1])
        case Err(e) => Err(e)
        case Ok(entry) => Ok(prefix + [entry])
  }

  /** Once a prefix fails, the whole sequence fails with the same error. */
  lemma {:induction false} DecodeAllKeepsError<A, B, E>(items: seq<A>, n: nat, f: (nat, A) -> Result<B, E>)
    requires n <= |items| && DecodeAll(items[..n], f).Err?
    ensures DecodeAll(items, f) == DecodeAll(items[..n], f)
    decreases |items| - n
  {
    if n < |items| {
      assert items[..n + 1][..n] == items[..n];
      DecodeAllKeepsError(items, n + 1, f);
    } else {
      assert items[..n] == items;
    }
  }

  /**
   * Decoding succeeds iff every item decodes, and then keeps length and
   * order; otherwise the error is that of the first item that fails.
   */
  lemma {:induction false} DecodeAllExact<A, B, E>(items: seq<A>, f: (nat, A) -> Result<B, E>)
    ensures DecodeAll(items, f).Ok? <==> forall i :: 0 <= i < |items| ==> f(i, items[i]).Ok?
    ensures DecodeAll(items, f).Ok? ==>
      |DecodeAll(items, f).value| == |items|
      && forall i :: 0 <= i < |items| ==> DecodeAll(items, f).value[i] == f(i, items[i]).value
    ensures DecodeAll(items, f).Err? ==>
      exists i :: 0 <= i < |items| && f(i, items[i]) == Err(DecodeAll(items, f).error)
        && forall j :: 0 <= j < i ==> f(j, items[j]).Ok?
  {
    if |items| > 0 {
      var p := items[..|items| - 1];
      DecodeAllExact(p, f);
      assert forall j :: 0 <= j < |p| ==> p[j] == items[j];
      if DecodeAll(p, f).Err? {
        var i :| 0 <= i < |p| && f(i, p[i]) == Err(DecodeAll(p, f).error)
          && forall j :: 0 <= j < i ==> f(j, p[j]).Ok?;
        assert f(i, items[i]) == Err(DecodeAll(items, f).error);
      } else if f(|items| - 1, items[|items| - 1]).Err? {
        assert f(|p|, items[|p|]) == Err(DecodeAll(items, f).error);
      }
    }
  }
}
