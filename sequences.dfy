/** Sequence functions the commands' loops are specified by. */
module Sequences {

  /** The concatenation of a sequence of sequences, in order. */
  function Flatten<T>(ss: seq<seq<T>>): (r: seq<T>)
  {
    if ss == [] then [] else ss[0] + Flatten(ss[1..])
  }

  lemma {:induction false} FlattenAppend<T>(ss: seq<seq<T>>, s: seq<T>)
    ensures Flatten(ss + [s]) == Flatten(ss) + s
  {
    if ss == [] {
      assert [s][1..] == [];
    } else {
      assert (ss + [s])[1..] == ss[1..] + [s];
      FlattenAppend(ss[1..], s);
    }
  }

  /** The projections of the rows that `keep` selects, in row order. */
  function Select<R, U>(rows: seq<R>, keep: R -> bool, proj: R -> U): (r: seq<U>)
    ensures |r| <= |rows|
  {
    if rows == [] then [] else (if keep(rows[0]) then [proj(rows[0])] else []) + Select(rows[1..], keep, proj)
  }

  /** Selecting distributes over concatenation: the order of the rows is kept. */
  lemma {:induction false} SelectAppend<R, U>(a: seq<R>, b: seq<R>, keep: R -> bool, proj: R -> U)
    ensures Select(a + b, keep, proj) == Select(a, keep, proj) + Select(b, keep, proj)
  {
    if a == [] {
      assert a + b == b;
    } else {
      var head := if keep(a[0]) then [proj(a[0])] else [];
      assert (a + b)[0] == a[0] && (a + b)[1..] == a[1..] + b;
      SelectAppend(a[1..], b, keep, proj);
      calc {
        Select(a + b, keep, proj);
        head + Select(a[1..] + b, keep, proj);
        head + (Select(a[1..], keep, proj) + Select(b, keep, proj));
        (head + Select(a[1..], keep, proj)) + Select(b, keep, proj);
        Select(a, keep, proj) + Select(b, keep, proj);
      }
    }
  }

  /** A value is selected exactly when some kept row projects to it. */
  lemma {:induction false} SelectMembers<R, U>(rows: seq<R>, keep: R -> bool, proj: R -> U, x: U)
    ensures x in Select(rows, keep, proj) <==> exists i :: 0 <= i < |rows| && keep(rows[i]) && proj(rows[i]) == x
  {
    if rows != [] {
      SelectMembers(rows[1..], keep, proj, x);
      if x in Select(rows[1..], keep, proj) {
        var i :| 0 <= i < |rows[1..]| && keep(rows[1..][i]) && proj(rows[1..][i]) == x;
        assert keep(rows[i + 1]) && proj(rows[i + 1]) == x;
      }
      if exists i :: 0 <= i < |rows| && keep(rows[i]) && proj(rows[i]) == x {
        var i :| 0 <= i < |rows| && keep(rows[i]) && proj(rows[i]) == x;
        if i > 0 {
          assert keep(rows[1..][i - 1]) && proj(rows[1..][i - 1]) == x;
        }
      }
    }
  }
}
