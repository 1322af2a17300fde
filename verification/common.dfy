/** Shared vocabulary of the MCQ pipeline: the record shape the generation
    service returns, an error-carrying result, and sequence flattening. */
module Common {

  /** One MCQ as the service returns it: field name to field text. */
  type Record = map<string, string>

  /** A value or the error message the pipeline reports instead. */
  datatype Result<T> = Ok(value: T) | Err(message: string)

  function Min(a: int, b: int): int {
    if a <= b then a else b
  }

  /** Concatenation of a sequence of sequences, in order. */
  function Flatten<T>(xss: seq<seq<T>>): seq<T>
  {
    if |xss| == 0 then [] else xss[0] + Flatten(xss[1..])
  }

  /** The flattening is empty exactly when every part is. */
  lemma {:induction false} FlattenEmpty<T>(xss: seq<seq<T>>)
    ensures |Flatten(xss)| == 0 <==> forall k :: 0 <= k < |xss| ==> |xss[k]| == 0
    decreases |xss|
  {
    if |xss| > 0 {
      FlattenEmpty(xss[1..]);
      assert forall k :: 1 <= k < |xss| ==> xss[k] == xss[1..][k - 1];
    }
  }

  /** Flattening `[x] + xss` puts the elements of `x` first. */
  lemma FlattenCons<T>(x: seq<T>, xss: seq<seq<T>>)
    ensures Flatten([x] + xss) == x + Flatten(xss)
  {
    assert ([x] + xss)[1..] == xss;
  }

  /** An empty part can be dropped without changing the flattening. */
  lemma SkipEmptyPart<T>(xss: seq<seq<T>>, k: nat)
    requires k < |xss| && xss[k] == []
    ensures Flatten(xss) == Flatten(xss[..k]) + Flatten(xss[k + 1..])
  {
    var front := xss[..k];
    var back := xss[k + 1..];
    assert xss == front + ([xss[k]] + back);
    FlattenConcat(front, [xss[k]] + back);
    FlattenCons(xss[k], back);
  }

  /** Flattening distributes over concatenation. */
  lemma {:induction false} FlattenConcat<T>(a: seq<seq<T>>, b: seq<seq<T>>)
    ensures Flatten(a + b) == Flatten(a) + Flatten(b)
    decreases |a|
  {
    if |a| == 0 {
      assert a + b == b;
    } else {
      assert (a + b)[1..] == a[1..] + b;
      FlattenConcat(a[1..], b);
    }
  }

  /** Appending one more sequence at the end appends its elements. */
  lemma FlattenSnoc<T>(a: seq<seq<T>>, x: seq<T>)
    ensures Flatten(a + [x]) == Flatten(a) + x
  {
    FlattenConcat(a, [x]);
    assert Flatten([x]) == x + Flatten([x][1..]);
    assert [x][1..] == [];
  }

  /** Element j of part k sits in the flattening right after everything that
      precedes part k. */
  lemma FlattenIndex<T>(xss: seq<seq<T>>, k: nat, j: nat)
    requires k < |xss| && j < |xss[k]|
    ensures |Flatten(xss[..k])| + j < |Flatten(xss)|
    ensures Flatten(xss)[|Flatten(xss[..k])| + j] == xss[k][j]
  {
    assert xss == xss[..k] + ([xss[k]] + xss[k + 1..]);
    FlattenConcat(xss[..k], [xss[k]] + xss[k + 1..]);
    FlattenConcat([xss[k]], xss[k + 1..]);
    FlattenSnoc([], xss[k]);
    assert [] + [xss[k]] == [xss[k]];
  }
}
