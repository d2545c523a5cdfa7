/** The update recorder of the migration framework, reduced to what the rename
    rule relies on: for every file path an append-only log of typed edits.
    How the recorder later merges these edits into the file text is not part of
    this model. */
module Recorder {

  /** One call on a file's update recorder. */
  datatype Edit =
    | Remove(offset: nat, width: nat)          // recorder.remove(offset, width)
    | InsertRight(offset: nat, text: string)   // recorder.insertRight(offset, text)

  /** The edits recorded so far for `path`; a file that has no recorder yet has none. */
  function Log(recorders: map<string, seq<Edit>>, path: string): seq<Edit>
  {
    if path in recorders then recorders[path] else []
  }

  /** The recorder state after `es` has been recorded, in order, for `path`.
      A recorder is only created for a file once an edit is recorded for it. */
  function Appended(recorders: map<string, seq<Edit>>, path: string, es: seq<Edit>): map<string, seq<Edit>>
  {
    if es == [] then recorders else recorders[path := Log(recorders, path) + es]
  }

  /** Recording edits for one file extends that file's log by exactly those
      edits and leaves every other file's log, and the set of files that have
      a recorder, as they were apart from that file. */
  lemma AppendedLog(recorders: map<string, seq<Edit>>, path: string, es: seq<Edit>, q: string)
    ensures Log(Appended(recorders, path, es), q) == if q == path then Log(recorders, path) + es else Log(recorders, q)
    ensures q in Appended(recorders, path, es) <==> q in recorders || (q == path && es != [])
  {
  }

  /** Recording `a` and then `b` for one file is recording `a + b`. */
  lemma AppendedTwice(recorders: map<string, seq<Edit>>, path: string, a: seq<Edit>, b: seq<Edit>)
    ensures Appended(Appended(recorders, path, a), path, b) == Appended(recorders, path, a + b)
  {
    if a == [] {
      assert a + b == b;
    } else if b == [] {
      assert a + b == a;
    } else {
      assert Log(recorders, path) + a + b == Log(recorders, path) + (a + b);
    }
  }

  /** A log made of `remove(o, w)` calls each immediately followed by an
      `insertRight(o, t)` at the same offset. */
  predicate WellPaired(log: seq<Edit>)
    decreases |log|
  {
    log == [] ||
    (|log| >= 2 && log[0].Remove? && log[1].InsertRight? &&
     log[0].offset == log[1].offset && WellPaired(log[2..]))
  }

  lemma {:induction false} WellPairedConcat(a: seq<Edit>, b: seq<Edit>)
    requires WellPaired(a) && WellPaired(b)
    ensures WellPaired(a + b)
    decreases |a|
  {
    if a != [] {
      WellPairedConcat(a[2..], b);
      assert (a + b)[0] == a[0] && (a + b)[1] == a[1];
      assert (a + b)[2..] == a[2..] + b;
    } else {
      assert a + b == b;
    }
  }

  /** Every well-paired log has even length, and position 2k holds a removal
      whose paired insertion sits at 2k + 1. */
  lemma {:induction false} WellPairedAt(log: seq<Edit>, k: nat)
    requires WellPaired(log)
    requires 2 * k < |log|
    ensures 2 * k + 1 < |log|
    ensures log[2 * k].Remove? && log[2 * k + 1].InsertRight?
    ensures log[2 * k].offset == log[2 * k + 1].offset
    decreases k
  {
    if k > 0 {
      WellPairedAt(log[2..], k - 1);
    }
  }
}
