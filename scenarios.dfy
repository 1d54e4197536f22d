/** Clients of the session: what callers can conclude from the contracts
    alone, for a small model. */
module MemScenarios {
  import opened MemRecords
  import opened ExpLabels
  import opened MemHooks
  import opened MemSession

  /** The firings of one step on two modules A then B whose hooks hold
      handles 0..5: pre and forward of A, pre and forward of B, then the
      backward hooks in reverse order. */
  function TwoModuleFirings(s: seq<Snapshot>): (fs: seq<Firing>)
    requires |s| == 6
  {
    [Firing(0, s[0]), Firing(1, s[1]), Firing(3, s[2]),
     Firing(4, s[3]), Firing(5, s[4]), Firing(2, s[5])]
  }

  /** Layer index and tag of the hook behind each of those firings. */
  const TwoModuleLayers: seq<nat> := [0, 0, 1, 1, 1, 0]
  const TwoModuleTags: seq<HookType> := [Pre, Fwd, Pre, Fwd, Bwd, Bwd]

  /** Each of those firings is of a live hook of the session on `log`. */
  lemma TwoModuleCalls(a: Module, b: Module, log: MemoryLog, e: string, s: seq<Snapshot>)
    requires |s| == 6
    ensures var calls := CallsFor(SessionHooks(0, [a, b], log, e), TwoModuleFirings(s), log);
      && |calls| == 6
      && forall i :: 0 <= i < 6 ==>
           && calls[i].layerIdx == TwoModuleLayers[i]
           && calls[i].hookType == TwoModuleTags[i]
           && calls[i].exp == e
           && calls[i].snapshot == s[i]
           && calls[i].layerType == [a, b][TwoModuleLayers[i]].typeName
  {
    var m := SessionHooks(0, [a, b], log, e);
    var fs := TwoModuleFirings(s);
    SessionHooksAt(0, [a, b], log, e, 0);
    SessionHooksAt(0, [a, b], log, e, 1);
    assert m[0] == Registration(a, MemHook(log, 0, Pre, e));
    assert m[1] == Registration(a, MemHook(log, 0, Fwd, e));
    assert m[2] == Registration(a, MemHook(log, 0, Bwd, e));
    assert m[3] == Registration(b, MemHook(log, 1, Pre, e));
    assert m[4] == Registration(b, MemHook(log, 1, Fwd, e));
    assert m[5] == Registration(b, MemHook(log, 1, Bwd, e));
    var hs: seq<Handle> := [0, 1, 3, 4, 5, 2];
    forall j | 0 <= j < 6
      ensures fs[j].handle == hs[j] && fs[j].snapshot == s[j]
      ensures hs[j] in m && m[hs[j]].hook.log == log && m[hs[j]].hook.exp == e
      ensures m[hs[j]].hook.layerIdx == TwoModuleLayers[j] && m[hs[j]].hook.hookType == TwoModuleTags[j]
      ensures m[hs[j]].attachedTo == [a, b][TwoModuleLayers[j]]
    {
    }
    CallsForAllLive(m, fs, log);
  }

  /** That step records six records in firing order, numbered 0..5, each
      with the layer index, tag and module type of the hook that fired. */
  lemma TwoModuleRecords(a: Module, b: Module, log: MemoryLog, e: string, s: seq<Snapshot>)
    requires |s| == 6
    ensures var r := Replay([], CallsFor(SessionHooks(0, [a, b], log, e), TwoModuleFirings(s), log));
      && |r| == 6
      && forall i :: 0 <= i < 6 ==>
           && r[i].callIdx == i
           && r[i].exp == e
           && r[i].layerIdx == TwoModuleLayers[i]
           && r[i].hookType == TwoModuleTags[i]
           && r[i].layerType == [a, b][TwoModuleLayers[i]].typeName
           && r[i].memAll == s[i].bytesAllocated
  {
    TwoModuleCalls(a, b, log, e, s);
    var calls := CallsFor(SessionHooks(0, [a, b], log, e), TwoModuleFirings(s), log);
    forall i | 0 <= i < 6
      ensures Replay([], calls)[i].callIdx == i
    {
      RunCallIdx([], calls, e, i);
    }
    forall i | 0 <= i < 6
      ensures Replay([], calls)[i].exp == e && Replay([], calls)[i].memAll == s[i].bytesAllocated
      ensures Replay([], calls)[i].layerIdx == calls[i].layerIdx
      ensures Replay([], calls)[i].hookType == calls[i].hookType
      ensures Replay([], calls)[i].layerType == calls[i].layerType
    {
      ReplayAt([], calls, i);
    }
  }

  /** The two-module step with the default log and label records those
      six records under "exp_0"; afterwards no hook is live, so a further
      step, failing or not, records nothing. */
  method TwoModuleScenario(s: seq<Snapshot>)
    requires |s| == 6
  {
    var registry := new Registry();
    var a, b := Module("Linear"), Module("Embedding");
    var log := LogMem(registry, [a, b], Step(TwoModuleFirings(s), false), null, None);
    assert DefaultExp(None, 0) == "exp_0";
    assert map[] + SessionHooks(0, [a, b], log, "exp_0") == SessionHooks(0, [a, b], log, "exp_0");
    TwoModuleRecords(a, b, log, "exp_0", s);
    assert |log.records| == 6;
    assert log.records[0].hookType == Pre && log.records[0].layerType == "Linear";
    assert log.records[5].hookType == Bwd && log.records[5].callIdx == 5 && log.records[5].exp == "exp_0";

    var raised := RunStep(registry, Step(TwoModuleFirings(s), true));
    assert raised && |log.records| == 6;
  }
}
