/** Memory records and the rule that numbers them.
    A hook call appends one record whose call index is derived from the
    tail of the log; Replay is the log obtained from a sequence of calls. */
module MemRecords {

  /** The three lifecycle points a hook is attached to. */
  datatype HookType = Pre | Fwd | Bwd

  /** Allocated and cached byte counts, as reported by the device. */
  datatype Snapshot = Snapshot(bytesAllocated: nat, bytesCached: nat)

  datatype MemoryRecord = MemoryRecord(
    layerIdx: nat,
    callIdx: nat,
    layerType: string,
    exp: string,
    hookType: HookType,
    memAll: nat,
    memCached: nat)

  /** Everything one hook invocation contributes to its record: what the
      closure captured (layer index, tag, experiment), the type name of the
      invoking module, and the snapshot taken inside the call. */
  datatype Call = Call(
    layerIdx: nat,
    hookType: HookType,
    exp: string,
    layerType: string,
    snapshot: Snapshot)

  /** A record for `exp` starts a new run of call indices. */
  predicate StartsNewRun(log: seq<MemoryRecord>, exp: string)
  {
    |log| == 0 || log[|log| - 1].exp != exp
  }

  /** The call index the next record for `exp` receives. */
  function NextCallIdx(log: seq<MemoryRecord>, exp: string): (r: nat)
    ensures r == 0 <==> StartsNewRun(log, exp)
    ensures !StartsNewRun(log, exp) ==> r == log[|log| - 1].callIdx + 1
  {
    if StartsNewRun(log, exp) then 0 else log[|log| - 1].callIdx + 1
  }

  function RecordFor(log: seq<MemoryRecord>, c: Call): (r: MemoryRecord)
  {
    MemoryRecord(c.layerIdx, NextCallIdx(log, c.exp), c.layerType, c.exp,
                 c.hookType, c.snapshot.bytesAllocated, c.snapshot.bytesCached)
  }

  /** The log after the calls, in order, each appending one record.
      The old log is always a prefix of the new one. */
  function Replay(log: seq<MemoryRecord>, calls: seq<Call>): (r: seq<MemoryRecord>)
    ensures |r| == |log| + |calls|
    ensures r[..|log|] == log
    decreases |calls|
  {
    if calls == [] then log
    else
      var prev := Replay(log, calls[..|calls| - 1]);
      prev + [RecordFor(prev, calls[|calls| - 1])]
  }

  /** One more call appends exactly one record to the previous result. */
  lemma ReplaySnoc(log: seq<MemoryRecord>, calls: seq<Call>, c: Call)
    ensures Replay(log, calls + [c]) == Replay(Replay(log, calls), [c])
    ensures Replay(log, calls + [c]) == Replay(log, calls) + [RecordFor(Replay(log, calls), c)]
  {
    assert (calls + [c])[..|calls|] == calls;
    assert [c][..0] == [];
  }

  /** Replaying two batches is replaying their concatenation. */
  lemma {:induction false} ReplayConcat(log: seq<MemoryRecord>, a: seq<Call>, b: seq<Call>)
    ensures Replay(log, a + b) == Replay(Replay(log, a), b)
    decreases |b|
  {
    if b == [] {
      assert a + b == a;
    } else {
      var b' := b[..|b| - 1];
      var c := b[|b| - 1];
      assert b == b' + [c];
      assert a + b == (a + b') + [c];
      ReplaySnoc(log, a + b', c);
      ReplayConcat(log, a, b');
      ReplaySnoc(Replay(log, a), b', c);
    }
  }

  /** The record appended by the i-th call carries the call's layer index,
      tag, experiment, module type name and snapshot, and the call index
      the rule derives from the log as it stood before that call. */
  lemma {:induction false} ReplayAt(log: seq<MemoryRecord>, calls: seq<Call>, i: nat)
    requires i < |calls|
    ensures var r := Replay(log, calls)[|log| + i];
      && r.layerIdx == calls[i].layerIdx
      && r.hookType == calls[i].hookType
      && r.exp == calls[i].exp
      && r.layerType == calls[i].layerType
      && r.memAll == calls[i].snapshot.bytesAllocated
      && r.memCached == calls[i].snapshot.bytesCached
      && r.callIdx == NextCallIdx(Replay(log, calls[..i]), calls[i].exp)
    decreases |calls|
  {
    var n := |calls|;
    if i < n - 1 {
      var prev := calls[..n - 1];
      ReplayAt(log, prev, i);
      assert prev[..i] == calls[..i];
      assert prev[i] == calls[i];
    } else {
      assert calls[..i] == calls[..n - 1];
    }
  }

  /** A run of calls that share one experiment numbers its records
      consecutively from the index the rule gives the first of them:
      0 after an empty log or a record of another experiment, the last
      index + 1 otherwise. Layer indices and tags play no part. */
  lemma {:induction false} RunCallIdx(log: seq<MemoryRecord>, calls: seq<Call>, e: string, i: nat)
    requires forall j :: 0 <= j < |calls| ==> calls[j].exp == e
    requires i < |calls|
    ensures Replay(log, calls)[|log| + i].exp == e
    ensures Replay(log, calls)[|log| + i].callIdx == NextCallIdx(log, e) + i
    decreases i
  {
    ReplayAt(log, calls, i);
    if i > 0 {
      var pre := calls[..i];
      RunCallIdx(log, pre, e, i - 1);
      assert pre[..i - 1] == calls[..i - 1];
      var r := Replay(log, pre);
      assert r[|log| + i - 1].exp == e;
    }
  }

  /** Every record's call index follows the rule applied to the records
      before it: 0 at the start and after a change of experiment, the
      previous index + 1 within a run. */
  ghost predicate CallIdxConsistent(log: seq<MemoryRecord>)
  {
    forall i :: 0 <= i < |log| ==> log[i].callIdx == NextCallIdx(log[..i], log[i].exp)
  }

  /** Appending through hooks keeps a consistently numbered log consistent. */
  lemma {:induction false} ReplayKeepsConsistent(log: seq<MemoryRecord>, calls: seq<Call>)
    requires CallIdxConsistent(log)
    ensures CallIdxConsistent(Replay(log, calls))
    decreases |calls|
  {
    if calls != [] {
      var prev := Replay(log, calls[..|calls| - 1]);
      ReplayKeepsConsistent(log, calls[..|calls| - 1]);
      var r := Replay(log, calls);
      forall i | 0 <= i < |r|
        ensures r[i].callIdx == NextCallIdx(r[..i], r[i].exp)
      {
        if i < |prev| {
          assert r[..i] == prev[..i];
        } else {
          assert r[..i] == prev;
        }
      }
    }
  }

  /** Two experiments logged one after the other into an empty log: each
      numbers its records from 0, the second restarting at its first record. */
  lemma TwoExperiments(a: string, b: string, callsA: seq<Call>, callsB: seq<Call>)
    requires a != b
    requires forall j :: 0 <= j < |callsA| ==> callsA[j].exp == a
    requires forall j :: 0 <= j < |callsB| ==> callsB[j].exp == b
    ensures var r := Replay(Replay([], callsA), callsB);
      && |r| == |callsA| + |callsB|
      && (forall i :: 0 <= i < |callsA| ==> r[i].exp == a && r[i].callIdx == i)
      && (forall i :: |callsA| <= i < |r| ==> r[i].exp == b && r[i].callIdx == i - |callsA|)
  {
    var ra := Replay([], callsA);
    var r := Replay(ra, callsB);
    forall i | 0 <= i < |callsA|
      ensures r[i].exp == a && r[i].callIdx == i
    {
      RunCallIdx([], callsA, a, i);
      assert r[..|ra|] == ra;
      assert r[i] == ra[i];
    }
    assert StartsNewRun(ra, b) by {
      if |ra| > 0 {
        RunCallIdx([], callsA, a, |callsA| - 1);
      }
    }
    forall i | |callsA| <= i < |r|
      ensures r[i].exp == b && r[i].callIdx == i - |callsA|
    {
      RunCallIdx(ra, callsB, b, i - |callsA|);
    }
  }
}
