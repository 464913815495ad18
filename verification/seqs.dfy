/** Sequence helpers: concatenating a sequence of sequences. */
module Seqs {

  /** Concatenates the rows in order. */
  function Flatten<T>(rows: seq<seq<T>>): seq<T>
  {
    if |rows| == 0 then [] else rows[0] + Flatten(rows[1..])
  }

  /** Flattening distributes over concatenation of the rows. */
  lemma {:induction false} FlattenAppend<T>(a: seq<seq<T>>, b: seq<seq<T>>)
    ensures Flatten(a + b) == Flatten(a) + Flatten(b)
  {
    if |a| > 0 {
      assert (a + b)[1..] == a[1..] + b;
      FlattenAppend(a[1..], b);
    } else {
      assert a + b == b;
    }
  }

  /** An element is in the flattening exactly when it is in some row. */
  lemma {:induction false} InFlatten<T>(rows: seq<seq<T>>, x: T)
    ensures x in Flatten(rows) <==> exists i, j :: 0 <= i < |rows| && 0 <= j < |rows[i]| && rows[i][j] == x
  {
    if |rows| > 0 {
      InFlatten(rows[1..], x);
      if x in Flatten(rows[1..]) {
        var i, j :| 0 <= i < |rows[1..]| && 0 <= j < |rows[1..][i]| && rows[1..][i][j] == x;
        assert rows[i + 1][j] == x;
      }
      if x in rows[0] {
        var j :| 0 <= j < |rows[0]| && rows[0][j] == x;
        assert rows[0][j] == x;
      }
      if i, j :| 0 <= i < |rows| && 0 <= j < |rows[i]| && rows[i][j] == x {
        if i > 0 {
          assert rows[1..][i - 1][j] == x;
        } else {
          assert x in rows[0];
        }
      }
    }
  }
}
