/** How an import commits: rows one statement at a time, in transactions of a fixed number of rows. */
module Chunks {
  import opened Common

  const CHUNK: nat := 500

  /** Replacing tombstones everything the firm has before it writes. */
  datatype Mode = Replace | Merge

  /** All the rows, one after another; None once a statement is refused. */
  function All<T, R>(t: T, rows: seq<R>, step: (T, R) -> Option<T>): Option<T> {
    if rows == [] then Some(t)
    else
      var before := All(t, rows[..|rows| - 1], step);
      if before.None? then None else step(before.value, rows[|rows| - 1])
  }

  /** What is left when the loop over the chunks ends, and whether it got to the end. */
  function Committed<T, R>(t: T, rows: seq<R>, step: (T, R) -> Option<T>): (T, bool)
    decreases |rows|
  {
    if rows == [] then (t, true)
    else
      var n := Min(CHUNK, |rows|);
      var chunk := All(t, rows[..n], step);
      if chunk.None? then (t, false) else Committed(chunk.value, rows[n..], step)
  }

  lemma {:induction false} AllJoined<T, R>(t: T, a: seq<R>, b: seq<R>, step: (T, R) -> Option<T>)
    ensures var first := All(t, a, step);
            All(t, a + b, step) == if first.None? then None else All(first.value, b, step)
  {
    if b == [] {
      assert a + b == a;
    } else {
      AllJoined(t, a, b[..|b| - 1], step);
      assert (a + b)[..|a + b| - 1] == a + b[..|b| - 1];
    }
  }

  /** Chunks change nothing about what gets through: every row, or it stops. */
  lemma {:induction false} CommittedIsAll<T, R>(t: T, rows: seq<R>, step: (T, R) -> Option<T>)
    ensures Committed(t, rows, step).1 <==> All(t, rows, step).Some?
    ensures Committed(t, rows, step).1 ==> All(t, rows, step) == Some(Committed(t, rows, step).0)
    decreases |rows|
  {
    if rows != [] {
      var n := Min(CHUNK, |rows|);
      assert rows == rows[..n] + rows[n..];
      AllJoined(t, rows[..n], rows[n..], step);
      var chunk := All(t, rows[..n], step);
      if chunk.Some? { CommittedIsAll(chunk.value, rows[n..], step); }
    }
  }

  /** A refused row takes its own chunk with it; the chunks before stay, and nothing after is tried. */
  lemma {:induction false} RefusalKeepsWholeChunks<T, R>(t: T, rows: seq<R>, step: (T, R) -> Option<T>) returns (k: nat)
    requires !Committed(t, rows, step).1
    ensures k * CHUNK < |rows| && All(t, rows[..k * CHUNK], step) == Some(Committed(t, rows, step).0)
    ensures All(t, rows[..Min(k * CHUNK + CHUNK, |rows|)], step).None?
    decreases |rows|
  {
    var n := Min(CHUNK, |rows|);
    var chunk := All(t, rows[..n], step);
    if chunk.None? {
      k := 0;
    } else {
      var k' := RefusalKeepsWholeChunks(chunk.value, rows[n..], step);
      k := k' + 1;
      var upto := Min(k' * CHUNK + CHUNK, |rows| - n);
      assert rows[..k * CHUNK] == rows[..n] + rows[n..][..k' * CHUNK];
      assert rows[..n + upto] == rows[..n] + rows[n..][..upto];
      AllJoined(t, rows[..n], rows[n..][..k' * CHUNK], step);
      AllJoined(t, rows[..n], rows[n..][..upto], step);
    }
  }

  /** Refused or not, what is left is a first part of the rows written one after another. */
  lemma CommittedIsAPrefix<T, R>(t: T, rows: seq<R>, step: (T, R) -> Option<T>) returns (m: nat)
    ensures m <= |rows| && All(t, rows[..m], step) == Some(Committed(t, rows, step).0)
    ensures Committed(t, rows, step).1 ==> m == |rows|
  {
    if Committed(t, rows, step).1 {
      CommittedIsAll(t, rows, step);
      m := |rows|;
      assert rows[..m] == rows;
    } else {
      var k := RefusalKeepsWholeChunks(t, rows, step);
      m := k * CHUNK;
    }
  }

  /** The two nested loops: chunks, and the rows of a chunk inside its transaction. */
  method Write<T, R>(t: T, rows: seq<R>, step: (T, R) -> Option<T>) returns (out: T, ok: bool)
    ensures (out, ok) == Committed(t, rows, step)
  {
    out := t;
    var i := 0;
    while i < |rows|
      invariant i <= |rows| && Committed(t, rows, step) == Committed(out, rows[i..], step)
    {
      var slice := rows[i..][..Min(CHUNK, |rows| - i)];
      var inside := out;
      for j := 0 to |slice|
        invariant All(out, slice[..j], step) == Some(inside)
      {
        assert slice[..j + 1][..j] == slice[..j];
        var next := step(inside, slice[j]);
        if next.None? {
          AllJoined(out, slice[..j + 1], slice[j + 1..], step);
          assert slice == slice[..j + 1] + slice[j + 1..];
          return out, false;
        }
        inside := next.value;
      }
      assert slice[..|slice|] == slice;
      assert rows[i..][|slice|..] == rows[i + |slice|..];
      out := inside;
      i := i + |slice|;
    }
    assert rows[i..] == [];
    ok := true;
  }
}
