/** Decoding a query result row by row: the first row that does not decode raises. */
module Decoding {
  import opened Results

  function DecodeAll<R, V>(decode: R -> Result<V, Error>, rows: seq<R>): Result<seq<V>, Error> {
    if rows == [] then Ok([])
    else
      var n := |rows| - 1;
      var front := DecodeAll(decode, rows[..n]);
      if front.Err? then front
      else
        var last := decode(rows[n]);
        if last.Err? then Err(last.error) else Ok(front.value + [last.value])
  }

  /** Decoding succeeds exactly when every row decodes, and yields the decoded rows in order. */
  lemma {:induction false} DecodesRowwise<R, V>(decode: R -> Result<V, Error>, rows: seq<R>)
    ensures DecodeAll(decode, rows).Ok? <==> forall i :: 0 <= i < |rows| ==> decode(rows[i]).Ok?
    ensures DecodeAll(decode, rows).Ok? ==>
              |DecodeAll(decode, rows).value| == |rows| &&
              forall i :: 0 <= i < |rows| ==> decode(rows[i]) == Ok(DecodeAll(decode, rows).value[i])
  {
    if rows != [] {
      var n := |rows| - 1;
      DecodesRowwise(decode, rows[..n]);
      assert forall i :: 0 <= i < n ==> rows[..n][i] == rows[i];
    }
  }

  /** The loop that decodes the rows in order, stopping at the first failure. */
  method DecodeRows<R, V>(decode: R -> Result<V, Error>, rows: seq<R>) returns (r: Result<seq<V>, Error>)
    ensures r == DecodeAll(decode, rows)
  {
    var values: seq<V> := [];
    for i := 0 to |rows|
      invariant DecodeAll(decode, rows[..i]) == Ok(values)
    {
      assert rows[..i + 1][..i] == rows[..i];
      var decoded := decode(rows[i]);
      if decoded.Err? {
        FailureSpreads(decode, rows, i + 1);
        return Err(decoded.error);
      }
      values := values + [decoded.value];
    }
    assert rows[..|rows|] == rows;
    r := Ok(values);
  }

  /** A failure among the first rows is the failure of the whole result. */
  lemma {:induction false} FailureSpreads<R, V>(decode: R -> Result<V, Error>, rows: seq<R>, k: nat)
    requires k <= |rows| && DecodeAll(decode, rows[..k]).Err?
    ensures DecodeAll(decode, rows) == DecodeAll(decode, rows[..k])
    decreases |rows|
  {
    if k == |rows| {
      assert rows[..k] == rows;
    } else {
      var n := |rows| - 1;
      assert rows[..n][..k] == rows[..k];
      FailureSpreads(decode, rows[..n], k);
    }
  }
}
