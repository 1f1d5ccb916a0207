// Deleting expired messages early or late: what a reader can and cannot tell.
module BufferGc {
  import opened Text
  import opened Tables

  /** No read at t or later tells the two buffers apart. */
  ghost predicate SameReads(a: Buffer, b: Buffer, t: int) {
    forall cell, now :: now >= t ==> Buffered(a, cell, now) == Buffered(b, cell, now)
  }

  datatype BufferOp =
    | Insert(id: string, toCell: string, toNode: string, payload: Bytes, now: int)
    | Delete(id: string, now: int)
    | Cleanup(now: int)

  function Apply(b: Buffer, op: BufferOp): Buffer {
    match op
    case Insert(id, toCell, toNode, payload, now) => BufferMessage(b, id, toCell, toNode, payload, now)
    case Delete(id, _) => DeleteBuffered(b, id)
    case Cleanup(now) => CleanupMessages(b, now)
  }

  function ApplyAll(b: Buffer, ops: seq<BufferOp>): Buffer
    decreases |ops|
  {
    if ops == [] then b else ApplyAll(Apply(b, ops[0]), ops[1..])
  }

  // Same reads from t on: the rows that are still waiting at t are the same.
  lemma SameReadsRows(a: Buffer, b: Buffer, t: int)
    ensures SameReads(a, b, t) <==> CleanupMessages(a, t) == CleanupMessages(b, t)
  {
    var ca, cb := CleanupMessages(a, t), CleanupMessages(b, t);
    if SameReads(a, b, t) {
      forall id | id in ca || id in cb
        ensures id in ca && id in cb && ca[id] == cb[id]
      {
        var cell := if id in ca then a[id].toCell else b[id].toCell;
        assert Buffered(a, cell, t) == Buffered(b, cell, t);
        assert id in Buffered(a, cell, t) && id in Buffered(b, cell, t);
        assert a[id] == Buffered(a, cell, t)[id] == Buffered(b, cell, t)[id] == b[id];
      }
      assert ca == cb;
    }
    if ca == cb {
      forall cell, now | now >= t
        ensures Buffered(a, cell, now) == Buffered(b, cell, now)
      {
        forall id
          ensures id in Buffered(a, cell, now) <==> id in Buffered(b, cell, now)
          ensures id in Buffered(a, cell, now) ==> a[id] == b[id]
        {
          assert id in a && a[id].expiresAt > now ==> id in ca && ca[id] == a[id];
          assert id in b && b[id].expiresAt > now ==> id in cb && cb[id] == b[id];
        }
      }
    }
  }

  // Cleaning at t is invisible to every read at t or later.
  lemma CleanupInvisible(b: Buffer, t: int)
    ensures SameReads(CleanupMessages(b, t), b, t)
  {
    SameReadsRows(CleanupMessages(b, t), b, t);
    assert CleanupMessages(CleanupMessages(b, t), t) == CleanupMessages(b, t);
  }

  /** The id is taken in one buffer and free in the other. */
  predicate Ghosted(a: Buffer, b: Buffer, id: string) {
    (id in a) != (id in b)
  }

  // One more message keeps two such buffers indistinguishable exactly when its id is
  // taken in both or in neither: an expired row that is still there swallows the insert.
  lemma InsertVisible(a: Buffer, b: Buffer, t: int, id: string, toCell: string, toNode: string,
                      payload: Bytes, now: int)
    requires SameReads(a, b, t) && now >= t
    ensures SameReads(BufferMessage(a, id, toCell, toNode, payload, now),
                      BufferMessage(b, id, toCell, toNode, payload, now), now)
            <==> !Ghosted(a, b, id)
  {
    var a', b' := BufferMessage(a, id, toCell, toNode, payload, now),
                  BufferMessage(b, id, toCell, toNode, payload, now);
    SameReadsRows(a, b, t);
    SameReadsRows(a', b', now);
    var ca, cb := CleanupMessages(a', now), CleanupMessages(b', now);
    StillWaiting(a, b, t, now);
    if !Ghosted(a, b, id) {
      assert ca == cb;
    } else {
      assert (id in ca) != (id in cb) by {
        assert id in a ==> id !in CleanupMessages(a, t) || id in CleanupMessages(b, t);
      }
    }
  }

  lemma StillWaiting(a: Buffer, b: Buffer, t: int, now: int)
    requires CleanupMessages(a, t) == CleanupMessages(b, t) && now >= t
    ensures forall id :: id in a && a[id].expiresAt > now ==> id in b && b[id] == a[id]
    ensures forall id :: id in b && b[id].expiresAt > now ==> id in a && a[id] == b[id]
  {
    forall id | id in a && a[id].expiresAt > now
      ensures id in b && b[id] == a[id]
    {
      assert id in CleanupMessages(a, t) && CleanupMessages(a, t)[id] == a[id];
    }
    forall id | id in b && b[id].expiresAt > now
      ensures id in a && a[id] == b[id]
    {
      assert id in CleanupMessages(b, t) && CleanupMessages(b, t)[id] == b[id];
    }
  }

  lemma OpKeepsSameReads(a: Buffer, b: Buffer, t: int, op: BufferOp)
    requires SameReads(a, b, t) && op.now >= t
    requires op.Insert? ==> !Ghosted(a, b, op.id)
    ensures SameReads(Apply(a, op), Apply(b, op), op.now)
  {
    match op
    case Insert(id, toCell, toNode, payload, now) =>
      InsertVisible(a, b, t, id, toCell, toNode, payload, now);
    case Delete(id, now) =>
      SameReadsRows(a, b, t);
      StillWaiting(a, b, t, now);
      assert CleanupMessages(Apply(a, op), now) == CleanupMessages(Apply(b, op), now);
      SameReadsRows(Apply(a, op), Apply(b, op), now);
    case Cleanup(now) =>
      SameReadsRows(a, b, t);
      StillWaiting(a, b, t, now);
      assert CleanupMessages(Apply(a, op), now) == CleanupMessages(Apply(b, op), now);
      SameReadsRows(Apply(a, op), Apply(b, op), now);
  }

  /** The clock does not go back, and no insert meets an id that only one buffer holds. */
  ghost predicate Undisturbed(a: Buffer, b: Buffer, t: int, ops: seq<BufferOp>)
    decreases |ops|
  {
    ops == [] ||
    (ops[0].now >= t && (ops[0].Insert? ==> !Ghosted(a, b, ops[0].id))
     && Undisturbed(Apply(a, ops[0]), Apply(b, ops[0]), ops[0].now, ops[1..]))
  }

  function LastTime(t: int, ops: seq<BufferOp>): int {
    if ops == [] then t else ops[|ops| - 1].now
  }

  // A buffer cleaned at t and the same buffer left alone stay indistinguishable through
  // any later inserts, deletes and cleanups.
  lemma CleanedAndUncleanedAgree(b: Buffer, t: int, ops: seq<BufferOp>)
    requires Undisturbed(CleanupMessages(b, t), b, t, ops)
    ensures SameReads(ApplyAll(CleanupMessages(b, t), ops), ApplyAll(b, ops), LastTime(t, ops))
  {
    CleanupInvisible(b, t);
    AgreementKept(CleanupMessages(b, t), b, t, ops);
  }

  lemma {:induction false} AgreementKept(a: Buffer, b: Buffer, t: int, ops: seq<BufferOp>)
    requires SameReads(a, b, t) && Undisturbed(a, b, t, ops)
    ensures SameReads(ApplyAll(a, ops), ApplyAll(b, ops), LastTime(t, ops))
    decreases |ops|
  {
    if ops != [] {
      OpKeepsSameReads(a, b, t, ops[0]);
      AgreementKept(Apply(a, ops[0]), Apply(b, ops[0]), ops[0].now, ops[1..]);
    }
  }

  ghost predicate PartOf(a: Buffer, b: Buffer) {
    forall id :: id in a ==> id in b && a[id] == b[id]
  }

  ghost predicate ClockRuns(t: int, ops: seq<BufferOp>) {
    && (ops != [] ==> t <= ops[0].now)
    && forall i, j :: 0 <= i < j < |ops| ==> ops[i].now <= ops[j].now
  }

  // Ids absent from the uncleaned buffer never disturb.
  lemma {:induction false} FreshInsertsUndisturbed(a: Buffer, b: Buffer, t: int, ops: seq<BufferOp>)
    requires PartOf(a, b)
    requires ClockRuns(t, ops)
    requires forall i :: 0 <= i < |ops| && ops[i].Insert? ==> ops[i].id !in ApplyAll(b, ops[..i])
    ensures Undisturbed(a, b, t, ops)
    decreases |ops|
  {
    if ops != [] {
      assert ops[..0] == [] && ApplyAll(b, []) == b;
      var rest := ops[1..];
      assert ops[0].Insert? ==> ops[0].id !in ApplyAll(b, ops[..0]);
      forall i | 0 <= i < |rest| && rest[i].Insert?
        ensures rest[i].id !in ApplyAll(Apply(b, ops[0]), rest[..i])
      {
        assert ops[..i + 1][1..] == rest[..i] && ops[i + 1] == rest[i];
        assert ops[i + 1].id !in ApplyAll(b, ops[..i + 1]);
      }
      assert ops[0].Insert? ==> !Ghosted(a, b, ops[0].id);
      FreshInsertsUndisturbed(Apply(a, ops[0]), Apply(b, ops[0]), ops[0].now, rest);
    }
  }

  lemma FreshIdsAgree(b: Buffer, t: int, ops: seq<BufferOp>)
    requires ClockRuns(t, ops)
    requires forall i :: 0 <= i < |ops| && ops[i].Insert? ==> ops[i].id !in ApplyAll(b, ops[..i])
    ensures SameReads(ApplyAll(CleanupMessages(b, t), ops), ApplyAll(b, ops), LastTime(t, ops))
  {
    FreshInsertsUndisturbed(CleanupMessages(b, t), b, t, ops);
    CleanedAndUncleanedAgree(b, t, ops);
  }
}
