/** The instrumentation session: choose the log and the experiment label,
    attach three hooks to every module, run one training step, and detach
    every hook again whether the step completed or raised. */
module MemSession {
  import opened MemRecords
  import opened ExpLabels
  import opened MemHooks

  datatype Option<T> = None | Some(value: T)

  /** The label a session records under: the caller's, unless it is absent
      or empty, in which case "exp_" followed by the number of records the
      chosen log already holds. */
  function DefaultExp(exp: Option<string>, priorRecords: nat): (e: string)
    ensures |e| > 0
    ensures exp.Some? && exp.value != [] ==> e == exp.value
    ensures exp.None? || exp.value == [] ==> e == ExpLabel(priorRecords)
  {
    if exp.Some? && exp.value != [] then exp.value else ExpLabel(priorRecords)
  }

  /** The registrations a session adds for `model`, with handles from
      `base` on: module i gets handles base+3i, base+3i+1 and base+3i+2. */
  function SessionHooks(base: Handle, model: seq<Module>, log: MemoryLog, e: string): (m: map<Handle, Registration>)
    ensures forall h :: h in m <==> base <= h < base + 3 * |model|
    decreases |model|
  {
    if model == [] then map[]
    else
      var i := |model| - 1;
      var h := base + 3 * i;
      SessionHooks(base, model[..i], log, e)
        [h := Registration(model[i], MemHook(log, i, Pre, e))]
        [h + 1 := Registration(model[i], MemHook(log, i, Fwd, e))]
        [h + 2 := Registration(model[i], MemHook(log, i, Bwd, e))]
  }

  /** Installing the hooks of one more module adds its three registrations. */
  lemma SessionHooksExtend(base: Handle, model: seq<Module>, log: MemoryLog, e: string, idx: nat)
    requires idx < |model|
    ensures var b := base + 3 * idx;
      SessionHooks(base, model[..idx + 1], log, e) ==
        SessionHooks(base, model[..idx], log, e)
          [b := Registration(model[idx], MemHook(log, idx, Pre, e))]
          [b + 1 := Registration(model[idx], MemHook(log, idx, Fwd, e))]
          [b + 2 := Registration(model[idx], MemHook(log, idx, Bwd, e))]
  {
    var m := model[..idx + 1];
    assert m[..idx] == model[..idx];
    assert m[idx] == model[idx];
  }

  /** Overriding a key of the right operand of a map union. */
  lemma UnionUpdate<K, V>(a: map<K, V>, b: map<K, V>, k: K, v: V)
    ensures (a + b)[k := v] == a + b[k := v]
  {
  }

  /** Module i, in enumeration order, carries a pre, a forward and a
      backward hook, in that handle order, each recording layer index i. */
  lemma {:induction false} SessionHooksAt(base: Handle, model: seq<Module>, log: MemoryLog, e: string, i: nat)
    requires i < |model|
    ensures var m := SessionHooks(base, model, log, e);
      && m[base + 3 * i] == Registration(model[i], MemHook(log, i, Pre, e))
      && m[base + 3 * i + 1] == Registration(model[i], MemHook(log, i, Fwd, e))
      && m[base + 3 * i + 2] == Registration(model[i], MemHook(log, i, Bwd, e))
    decreases |model|
  {
    var n := |model| - 1;
    if i < n {
      SessionHooksAt(base, model[..n], log, e, i);
    }
  }

  /** Exactly three registrations per module. */
  lemma {:induction false} SessionHooksCount(base: Handle, model: seq<Module>, log: MemoryLog, e: string)
    ensures |SessionHooks(base, model, log, e)| == 3 * |model|
    decreases |model|
  {
    if model != [] {
      var n := |model| - 1;
      SessionHooksCount(base, model[..n], log, e);
    }
  }

  /** Every registration in `m` appends to `log`, and, as its hooks are
      all of one session, under label `e`, for the module at the layer
      index it records. */
  ghost predicate OwnedBy(m: map<Handle, Registration>, log: MemoryLog, model: seq<Module>, e: string)
  {
    && (forall h :: h in m ==> m[h].hook.log == log)
    && SessionTargets(m, log, model, e)
  }

  /** A session's registrations all belong to it. */
  lemma {:induction false} SessionHooksOwned(base: Handle, model: seq<Module>, log: MemoryLog, e: string)
    ensures OwnedBy(SessionHooks(base, model, log, e), log, model, e)
    decreases |model|
  {
    if model != [] {
      var n := |model| - 1;
      SessionHooksOwned(base, model[..n], log, e);
      var prev := SessionHooks(base, model[..n], log, e);
      forall h | h in prev
        ensures prev[h].hook.layerIdx < |model| && prev[h].attachedTo == model[prev[h].hook.layerIdx]
      {
        var k := prev[h].hook.layerIdx;
        assert k < n && prev[h].attachedTo == model[..n][k];
      }
    }
  }

  /** If no hook live before a session appends to its log, the only hooks
      that do are the session's own. */
  lemma SessionTargetsUnion(before: map<Handle, Registration>, session: map<Handle, Registration>,
                            log: MemoryLog, model: seq<Module>, e: string)
    requires Untargeted(before, log)
    requires OwnedBy(session, log, model, e)
    ensures SessionTargets(before + session, log, model, e)
  {
  }

  /** Adding a session's hooks adds at most its own log to the logs
      that live hooks append to. */
  lemma SessionLogs(before: map<Handle, Registration>, session: map<Handle, Registration>,
                    log: MemoryLog, model: seq<Module>, e: string)
    requires OwnedBy(session, log, model, e)
    ensures LogsOf(before + session) <= LogsOf(before) + {log}
  {
    forall L | L in LogsOf(before + session) ensures L in LogsOf(before) || L == log {
      var h :| h in before + session && (before + session)[h].hook.log == L;
      if h !in session {
        assert before[h].hook.log == L;
      }
    }
  }

  /** Attaches the three hooks of one module and appends their handles to
      `hr`, in the order pre, forward, backward. */
  method AddMemoryHooks(registry: Registry, idx: nat, mod: Module, memLog: MemoryLog, exp: string, hr: seq<Handle>)
    returns (hr': seq<Handle>)
    requires registry.Valid()
    modifies registry
    ensures registry.Valid()
    ensures var b := old(registry.nextId);
      && hr' == hr + [b, b + 1, b + 2]
      && registry.nextId == b + 3
      && registry.hooks == old(registry.hooks)
           [b := Registration(mod, MemHook(memLog, idx, Pre, exp))]
           [b + 1 := Registration(mod, MemHook(memLog, idx, Fwd, exp))]
           [b + 2 := Registration(mod, MemHook(memLog, idx, Bwd, exp))]
  {
    var h := registry.Register(mod, MemHook(memLog, idx, Pre, exp));
    hr' := hr + [h];
    h := registry.Register(mod, MemHook(memLog, idx, Fwd, exp));
    hr' := hr' + [h];
    h := registry.Register(mod, MemHook(memLog, idx, Bwd, exp));
    hr' := hr' + [h];
  }

  /** The installation loop: hooks for every module, indexed 0..N-1 in
      enumeration order; the handles are the next 3N of the counter. */
  method InstallHooks(registry: Registry, model: seq<Module>, log: MemoryLog, e: string) returns (hr: seq<Handle>)
    requires registry.Valid()
    modifies registry
    ensures registry.Valid()
    ensures registry.nextId == old(registry.nextId) + 3 * |model|
    ensures |hr| == 3 * |model| && forall j :: 0 <= j < |hr| ==> hr[j] == old(registry.nextId) + j
    ensures registry.hooks == old(registry.hooks) + SessionHooks(old(registry.nextId), model, log, e)
  {
    var base := registry.nextId;
    hr := [];
    for idx := 0 to |model|
      invariant registry.Valid()
      invariant registry.nextId == base + 3 * idx
      invariant |hr| == 3 * idx && forall j :: 0 <= j < |hr| ==> hr[j] == base + j
      invariant registry.hooks == old(registry.hooks) + SessionHooks(base, model[..idx], log, e)
    {
      ghost var b := base + 3 * idx;
      ghost var prev := SessionHooks(base, model[..idx], log, e);
      SessionHooksExtend(base, model, log, e, idx);
      UnionUpdate(old(registry.hooks), prev, b, Registration(model[idx], MemHook(log, idx, Pre, e)));
      UnionUpdate(old(registry.hooks), prev[b := Registration(model[idx], MemHook(log, idx, Pre, e))],
                  b + 1, Registration(model[idx], MemHook(log, idx, Fwd, e)));
      UnionUpdate(old(registry.hooks), prev[b := Registration(model[idx], MemHook(log, idx, Pre, e))]
                                           [b + 1 := Registration(model[idx], MemHook(log, idx, Fwd, e))],
                  b + 2, Registration(model[idx], MemHook(log, idx, Bwd, e)));
      hr := AddMemoryHooks(registry, idx, model[idx], log, e, hr);
    }
    assert model[..|model|] == model;
  }

  /** The cleanup loop: every handle in `hr` detached, nothing else. */
  method RemoveHooks(registry: Registry, hr: seq<Handle>)
    requires registry.Valid()
    modifies registry
    ensures registry.Valid()
    ensures registry.nextId == old(registry.nextId)
    ensures registry.hooks == old(registry.hooks) - (set h | h in hr)
  {
    ghost var removed: set<Handle> := {};
    for i := 0 to |hr|
      invariant registry.Valid()
      invariant registry.nextId == old(registry.nextId)
      invariant removed == set j | 0 <= j < i :: hr[j]
      invariant registry.hooks == old(registry.hooks) - removed
    {
      registry.Remove(hr[i]);
      removed := removed + {hr[i]};
    }
    assert removed == set h | h in hr by {
      forall h | h in hr ensures h in removed {
        var j :| 0 <= j < |hr| && hr[j] == h;
      }
    }
  }

  /** Removing a session's handles leaves the hooks that were live before it. */
  lemma RemovingSessionRestores(before: map<Handle, Registration>, session: map<Handle, Registration>,
                                hr: seq<Handle>, base: Handle, n: nat)
    requires forall h :: h in before ==> h < base
    requires forall h :: h in session <==> base <= h < base + n
    requires |hr| == n && forall j :: 0 <= j < |hr| ==> hr[j] == base + j
    ensures (before + session) - (set h | h in hr) == before
  {
    forall h | h in session ensures h in (set x | x in hr) {
      assert hr[h - base] == h;
    }
  }

  /** A session's hooks add no call to any other log: the firings make the
      same calls into it as they would with only the earlier hooks live. */
  lemma {:induction false} CallsForOtherLog(before: map<Handle, Registration>, session: map<Handle, Registration>,
                                            firings: seq<Firing>, L: MemoryLog, log: MemoryLog,
                                            model: seq<Module>, e: string)
    requires OwnedBy(session, log, model, e)
    requires forall h :: h in session ==> h !in before
    requires L != log
    ensures CallsFor(before + session, firings, L) == CallsFor(before, firings, L)
    decreases |firings|
  {
    if firings != [] {
      var n := |firings| - 1;
      CallsForOtherLog(before, session, firings[..n], L, log, model, e);
      var h := firings[n].handle;
      if h in session {
        assert (before + session)[h].hook.log == log;
      }
    }
  }

  /** Adding hooks under fresh handles keeps every log earlier hooks append to. */
  lemma LogsOfKept(before: map<Handle, Registration>, session: map<Handle, Registration>)
    requires forall h :: h in session ==> h !in before
    ensures LogsOf(before) <= LogsOf(before + session)
  {
    forall L | L in LogsOf(before) ensures L in LogsOf(before + session) {
      var h :| h in before && before[h].hook.log == L;
      assert (before + session)[h] == before[h];
    }
  }

  /** The records after the first |log0| are a session's: all under its
      label, numbered on from the index the rule gives the first, each
      naming the type of the module at its layer index. This is the
      record-level counterpart of `SessionCalls`, with the numbering the
      rule adds when the calls are replayed. */
  ghost predicate SessionSuffix(log0: seq<MemoryRecord>, records: seq<MemoryRecord>, model: seq<Module>, e: string)
  {
    forall i :: |log0| <= i < |records| ==>
      && records[i].exp == e
      && records[i].callIdx == NextCallIdx(log0, e) + (i - |log0|)
      && records[i].layerIdx < |model|
      && records[i].layerType == model[records[i].layerIdx].typeName
  }

  /** The records a session's hooks add: all under its label, numbered
      on from the index the rule gives the first, each naming the type of
      the module at its layer index. */
  lemma SessionRecords(log0: seq<MemoryRecord>, hooks: map<Handle, Registration>, firings: seq<Firing>,
                       log: MemoryLog, model: seq<Module>, e: string)
    requires SessionTargets(hooks, log, model, e)
    ensures SessionSuffix(log0, Replay(log0, CallsFor(hooks, firings, log)), model, e)
  {
    CallsForSession(hooks, firings, log, model, e);
    var calls := CallsFor(hooks, firings, log);
    var r := Replay(log0, calls);
    forall i | |log0| <= i < |r|
      ensures && r[i].exp == e
              && r[i].callIdx == NextCallIdx(log0, e) + (i - |log0|)
              && r[i].layerIdx < |model|
              && r[i].layerType == model[r[i].layerIdx].typeName
    {
      RunCallIdx(log0, calls, e, i - |log0|);
      ReplayAt(log0, calls, i - |log0|);
    }
  }

  /** The instrumented block of a session: the hooks of every module
      attached, the step run inside `try`, and every handle detached in
      `finally`. The live hooks end as they began, and the log holds the
      replay of the calls the session's and earlier hooks made into it. */
  method InstrumentedStep(registry: Registry, model: seq<Module>, step: Step, log: MemoryLog, e: string)
    requires registry.Valid()
    modifies registry, registry.Logs(), log
    ensures registry.Valid()
    ensures registry.hooks == old(registry.hooks)
    ensures registry.nextId == old(registry.nextId) + 3 * |model|
    ensures log.records == Replay(old(log.records),
      CallsFor(old(registry.hooks) + SessionHooks(old(registry.nextId), model, log, e), step.firings, log))
    ensures Untargeted(old(registry.hooks), log) ==> SessionSuffix(old(log.records), log.records, model, e)
    ensures forall L :: L in old(registry.Logs()) && L != log ==>
      L.records == Replay(old(L.records), CallsFor(old(registry.hooks), step.firings, L))
  {
    ghost var base := registry.nextId;
    ghost var before := registry.hooks;
    ghost var session := SessionHooks(base, model, log, e);

    var hr := InstallHooks(registry, model, log, e);
    ghost var during := registry.hooks;
    SessionHooksOwned(base, model, log, e);
    SessionLogs(before, session, log, model, e);
    LogsOfKept(before, session);

    // try: the step; its outcome is dropped by the `return` in `finally`
    var _ := RunStep(registry, step);
    if log !in registry.Logs() {
      UntargetedNotInLogs(during, log);
      CallsForUntargeted(during, step.firings, log);
    }
    assert log.records == Replay(old(log.records), CallsFor(during, step.firings, log));
    forall L | L in LogsOf(before) && L != log
      ensures L.records == Replay(old(L.records), CallsFor(before, step.firings, L))
    {
      CallsForOtherLog(before, session, step.firings, L, log, model, e);
    }

    // finally: detach every handle of this session
    RemovingSessionRestores(before, session, hr, base, 3 * |model|);
    RemoveHooks(registry, hr);

    if Untargeted(before, log) {
      SessionTargetsUnion(before, session, log, model, e);
      SessionRecords(old(log.records), during, step.firings, log, model, e);
    }
  }

  /** One instrumented training step. A null or empty caller log is
      replaced by a fresh one; a non-empty one is shared and extended.
      Whatever the step does, every hook attached here is detached before
      returning, and the log is returned even when the step raises: a
      failure of the step is not passed on. Attaching a hook cannot fail
      here. */
  method LogMem(registry: Registry, model: seq<Module>, step: Step, memLog: MemoryLog?, exp: Option<string>)
    returns (log: MemoryLog)
    requires registry.Valid()
    modifies registry, registry.Logs(), memLog
    ensures registry.Valid()
    ensures memLog != null && old(memLog.records) != [] ==> log == memLog
    ensures memLog == null || old(memLog.records) == [] ==> fresh(log)
    ensures registry.hooks == old(registry.hooks)
    ensures registry.nextId == old(registry.nextId) + 3 * |model|
    ensures var log0 := if memLog != null && old(memLog.records) != [] then old(memLog.records) else [];
      var e := DefaultExp(exp, |log0|);
      log.records == Replay(log0, CallsFor(old(registry.hooks) + SessionHooks(old(registry.nextId), model, log, e),
                                           step.firings, log))
    ensures var log0 := if memLog != null && old(memLog.records) != [] then old(memLog.records) else [];
      var e := DefaultExp(exp, |log0|);
      Untargeted(old(registry.hooks), log) ==> SessionSuffix(log0, log.records, model, e)
    ensures fresh(log) ==> Untargeted(registry.hooks, log)
    ensures memLog != null && old(memLog.records) == [] && Untargeted(old(registry.hooks), memLog) ==>
      memLog.records == []
    ensures forall L :: L in old(registry.Logs()) && L != log ==>
      L.records == Replay(old(L.records), CallsFor(old(registry.hooks), step.firings, L))
  {
    if memLog != null && memLog.records != [] {
      log := memLog;
    } else {
      log := new MemoryLog();
    }
    var e := DefaultExp(exp, |log.records|);
    assert fresh(log) ==> Untargeted(registry.hooks, log);
    if memLog != null && memLog != log {
      UntargetedNotInLogs(registry.hooks, memLog);
    }
    InstrumentedStep(registry, model, step, log, e);
  }
}
