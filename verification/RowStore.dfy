/** The durable cookie snapshot as consecutive table rows (cookie_store.rs, `snapshot_slices`,
    `read_durable_snapshot` and `apply_durable_snapshot`). */
module RowStore {
  import opened Utf8Syntax

  const SNAPSHOT_SLICE: nat := 8 * 1024

  type Rows = map<nat, seq<Byte>>

  datatype Outcome = Done | Failed(message: string)

  function Joined(slices: seq<seq<Byte>>): seq<Byte> {
    if slices == [] then [] else slices[0] + Joined(slices[1..])
  }

  lemma {:induction false} JoinedAppend(slices: seq<seq<Byte>>, last: seq<Byte>)
    ensures Joined(slices + [last]) == Joined(slices) + last
  {
    if slices == [] {
    } else {
      JoinedAppend(slices[1..], last);
      assert (slices + [last])[1..] == slices[1..] + [last];
    }
  }

  /** What a row of a stored snapshot has to be: whole characters, small enough for one data page. */
  predicate IsRow(slice: seq<Byte>) {
    WellFormed(slice) && |slice| <= SNAPSHOT_SLICE
  }

  /** A cut of `text` into rows with no more rows than the size limit forces: only the last may be short,
      and a full row falls at most three bytes (one character tail) short of the limit. */
  predicate IsSlicing(text: seq<Byte>, slices: seq<seq<Byte>>) {
    && slices != []
    && Joined(slices) == text
    && (forall i :: 0 <= i < |slices| ==> IsRow(slices[i]))
    && (forall i :: 0 <= i < |slices| - 1 ==> SNAPSHOT_SLICE - 3 <= |slices[i]|)
  }

  predicate IsFullRow(slice: seq<Byte>) {
    IsRow(slice) && SNAPSHOT_SLICE - 3 <= |slice|
  }

  /** Full rows cut off so far, and the rest of the text. */
  predicate IsCut(text: seq<Byte>, slices: seq<seq<Byte>>, rest: seq<Byte>) {
    Joined(slices) + rest == text && forall i :: 0 <= i < |slices| ==> IsFullRow(slices[i])
  }

  lemma MoveCut(text: seq<Byte>, slices: seq<seq<Byte>>, rest: seq<Byte>, end: nat)
    requires IsCut(text, slices, rest) && end <= |rest| && IsFullRow(rest[..end])
    ensures IsCut(text, slices + [rest[..end]], rest[end..])
  {
    JoinedAppend(slices, rest[..end]);
    assert rest == rest[..end] + rest[end..];
  }

  lemma LastCut(text: seq<Byte>, slices: seq<seq<Byte>>, rest: seq<Byte>)
    requires IsCut(text, slices, rest) && IsRow(rest)
    ensures IsSlicing(text, slices + [rest])
  {
    JoinedAppend(slices, rest);
    var all := slices + [rest];
    forall i | 0 <= i < |slices| ensures IsFullRow(all[i]) {
      assert all[i] == slices[i];
    }
  }

  /** The inner loop of `snapshot_slices`: back from the limit to the nearest character boundary. */
  method CutPoint(rest: RustString) returns (end: nat)
    requires |rest| > SNAPSHOT_SLICE
    ensures SNAPSHOT_SLICE - 3 <= end <= SNAPSHOT_SLICE
    ensures WellFormed(rest[..end]) && WellFormed(rest[end..])
  {
    end := SNAPSHOT_SLICE;
    BoundaryIsNear(rest, end);
    ghost var near :| SNAPSHOT_SLICE - 3 <= near <= SNAPSHOT_SLICE && IsCharBoundary(rest, near);
    while !IsCharBoundary(rest, end)
      invariant near <= end <= SNAPSHOT_SLICE
      decreases end
    {
      end := end - 1;
    }
    BoundarySplits(rest, end);
  }

  method SnapshotSlices(snapshot: RustString) returns (slices: seq<seq<Byte>>)
    ensures IsSlicing(snapshot, slices)
    ensures forall i :: 0 <= i < |slices| ==> |slices[i]| <= 8192 && (i < |slices| - 1 ==> 8189 <= |slices[i]|)
  {
    slices := [];
    var rest: RustString := snapshot;
    while |rest| > SNAPSHOT_SLICE
      invariant IsCut(snapshot, slices, rest)
      decreases |rest|
    {
      var end := CutPoint(rest);
      MoveCut(snapshot, slices, rest, end);
      slices := slices + [rest[..end]];
      rest := rest[end..];
    }
    LastCut(snapshot, slices, rest);
    slices := slices + [rest];
  }

  /** Rows `id`, `id + 1`, ... joined up to the first missing one. */
  function ReadFrom(rows: Rows, id: nat): (text: seq<Byte>)
    decreases |rows|
  {
    if id in rows then
      assert rows.Keys == (rows - {id}).Keys + {id};
      rows[id] + ReadFrom(rows - {id}, id + 1)
    else []
  }

  function Read(rows: Rows): seq<Byte> {
    ReadFrom(rows, 0)
  }

  lemma {:induction false} ReadIgnoresEarlierRows(rows: Rows, gone: nat, id: nat)
    requires gone < id
    ensures ReadFrom(rows - {gone}, id) == ReadFrom(rows, id)
    decreases |rows|
  {
    if id !in rows {
    } else {
      assert rows.Keys == (rows - {id}).Keys + {id};
      ReadIgnoresEarlierRows(rows - {id}, gone, id + 1);
      assert rows - {gone} - {id} == rows - {id} - {gone};
    }
  }

  lemma ReadUnfold(rows: Rows, id: nat)
    ensures ReadFrom(rows, id) == if id in rows then rows[id] + ReadFrom(rows, id + 1) else []
  {
    ReadIgnoresEarlierRows(rows, id, id + 1);
  }

  predicate Holds(rows: Rows, slices: seq<seq<Byte>>) {
    forall i :: 0 <= i < |slices| ==> i in rows && rows[i] == slices[i]
  }

  /** Reading returns exactly the stored slices when the row after the last one is missing. */
  lemma {:induction false} ReadSlices(rows: Rows, slices: seq<seq<Byte>>, from: nat)
    requires Holds(rows, slices) && |slices| !in rows && from <= |slices|
    ensures ReadFrom(rows, from) == Joined(slices[from..])
    decreases |slices| - from
  {
    ReadUnfold(rows, from);
    if from == |slices| {
    } else {
      ReadSlices(rows, slices, from + 1);
      assert slices[from..][1..] == slices[from + 1..];
    }
  }

  /** Row ids run 0, 1, ... without a hole. */
  predicate Contiguous(rows: Rows) {
    forall id :: id in rows ==> forall below: nat :: below < id ==> below in rows
  }

  /** The stale tail that `apply_durable_snapshot` deletes: from `stale` up to the first missing row. */
  predicate InTail(rows: Rows, stale: nat, id: nat) {
    stale <= id && forall k: nat :: stale <= k <= id ==> k in rows
  }

  /** The table an error-free apply leaves: the new slices, no old tail directly behind them, and the other
      rows as they were. */
  ghost predicate Applied(before: Rows, slices: seq<seq<Byte>>, after: Rows) {
    && Holds(after, slices)
    && (forall id: nat :: |slices| <= id ==> (id in after <==> id in before && !InTail(before, |slices|, id)))
    && (forall id: nat :: |slices| <= id && id in after ==> id in before && after[id] == before[id])
  }

  /** For every prior table, whatever holes it has, an applied snapshot reads back as itself, and a table
      without holes stays without holes. */
  lemma AppliedReadsBack(before: Rows, text: seq<Byte>, slices: seq<seq<Byte>>, after: Rows)
    requires IsSlicing(text, slices) && Applied(before, slices, after)
    ensures Read(after) == text
    ensures Contiguous(before) ==> Contiguous(after) && |slices| !in after
  {
    assert |slices| !in after by {
      if |slices| in after {
        assert InTail(before, |slices|, |slices|);
      }
    }
    ReadSlices(after, slices, 0);
    assert slices[0..] == slices;
    if Contiguous(before) {
      forall id | id in after && |slices| <= id ensures false {
        assert InTail(before, |slices|, id);
      }
    }
  }

  /** The part of the prior table a failed apply can have changed: a prefix of the slices written, then a
      prefix of the stale tail deleted. */
  ghost predicate PartlyApplied(before: Rows, slices: seq<seq<Byte>>, written: nat, deleted: nat, after: Rows) {
    && written <= |slices|
    && (0 < deleted ==> written == |slices|)
    && (forall id: nat ::
          if id < written then id in after && after[id] == slices[id]
          else if |slices| <= id < |slices| + deleted then id !in after && id in before
          else (id in after <==> id in before) && (id in before ==> after[id] == before[id]))
  }

  /** WorkTable as this module uses it: `upsert` and `delete` may fail and then leave the rows alone. `failures` counts
      the operations that did, `unsettled` the times the table could not settle its queued work. */
  class Table {
    var rows: Rows
    ghost var failures: nat
    ghost var unsettled: nat

    constructor (rows: Rows)
      ensures this.rows == rows && failures == unsettled == 0
    {
      this.rows := rows;
      failures, unsettled := 0, 0;
    }

    /** `wait_for_ops`, or `close`. */
    method Settle() returns (ok: bool)
      modifies this`unsettled
      ensures unsettled == old(unsettled) + if ok then 0 else 1
    {
      ok := *;
      if !ok {
        unsettled := unsettled + 1;
      }
    }

    method Upsert(id: nat, row: seq<Byte>) returns (outcome: Outcome)
      modifies this`rows, this`failures
      ensures rows == if outcome.Done? then old(rows)[id := row] else old(rows)
      ensures failures == old(failures) + if outcome.Failed? then 1 else 0
    {
      if * {
        failures := failures + 1;
        outcome := Failed("upsert");
      } else {
        rows := rows[id := row];
        outcome := Done;
      }
    }

    method Delete(id: nat) returns (outcome: Outcome)
      modifies this`rows, this`failures
      ensures rows == if outcome.Done? then old(rows) - {id} else old(rows)
      ensures failures == old(failures) + if outcome.Failed? then 1 else 0
    {
      if * {
        failures := failures + 1;
        outcome := Failed("delete");
      } else {
        rows := rows - {id};
        outcome := Done;
      }
    }

    method ReadDurableSnapshot() returns (joined: seq<Byte>)
      ensures joined == Read(rows)
    {
      joined := [];
      var id := 0;
      ghost var unread: Rows := rows;
      while id in rows
        invariant joined + ReadFrom(unread, id) == Read(rows)
        invariant forall k: nat :: k in unread <==> k in rows && id <= k
        invariant forall k: nat :: k in unread ==> unread[k] == rows[k]
        decreases |unread|
      {
        joined := joined + rows[id];
        SmallerSet((unread - {id}).Keys, unread.Keys);
        unread := unread - {id};
        id := id + 1;
      }
    }

    /** On success the table reads back as `snapshot`; on failure it is the prior table with a prefix of the
        work done. It fails exactly when one of its operations on the table does, and then stops. */
    method ApplyDurableSnapshot(snapshot: RustString) returns (outcome: Outcome, ghost slices: seq<seq<Byte>>)
      modifies this`rows, this`failures
      ensures failures == old(failures) + if outcome.Failed? then 1 else 0
      ensures IsSlicing(snapshot, slices)
      ensures outcome.Done? ==> Applied(old(rows), slices, rows) && Read(rows) == snapshot
      ensures outcome.Done? && Contiguous(old(rows)) ==> Contiguous(rows)
      ensures outcome.Failed? ==>
        exists written: nat, deleted: nat :: PartlyApplied(old(rows), slices, written, deleted, rows)
    {
      var cut := SnapshotSlices(snapshot);
      slices := cut;
      var id := 0;
      while id < |cut|
        invariant 0 <= id <= |cut|
        invariant PartlyApplied(old(rows), cut, id, 0, rows) && failures == old(failures)
      {
        outcome := Upsert(id, cut[id]);
        if outcome.Failed? {
          return;
        }
        id := id + 1;
      }
      var stale := |cut|;
      while stale in rows
        invariant |cut| <= stale
        invariant PartlyApplied(old(rows), cut, |cut|, stale - |cut|, rows) && failures == old(failures)
        decreases |rows|
      {
        outcome := Delete(stale);
        if outcome.Failed? {
          return;
        }
        assert rows.Keys < rows.Keys + {stale};
        SmallerSet(rows.Keys, rows.Keys + {stale});
        stale := stale + 1;
      }
      outcome := Done;
      TrimmedIsApplied(old(rows), cut, stale, rows);
      AppliedReadsBack(old(rows), snapshot, cut, rows);
    }
  }

  lemma SmallerSet<T>(a: set<T>, b: set<T>)
    requires a < b
    ensures |a| < |b|
  {
    assert |b - a| > 0 by { var x :| x in b - a; }
    assert b == a + (b - a);
  }

  lemma TrimmedIsApplied(before: Rows, slices: seq<seq<Byte>>, stale: nat, after: Rows)
    requires |slices| <= stale && stale !in after
    requires PartlyApplied(before, slices, |slices|, stale - |slices|, after)
    ensures Applied(before, slices, after)
  {
    assert stale !in before;
    forall id: nat | |slices| <= id
      ensures id in after <==> id in before && !InTail(before, |slices|, id)
    {
      assert stale <= id && InTail(before, |slices|, id) ==> stale in before;
      assert id < stale ==> InTail(before, |slices|, id);
    }
  }
}
