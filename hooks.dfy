/** The hook closure, the shared log it appends to, and the registry
    of live hooks that the execution engine fires during a step. */
module MemHooks {
  import opened MemRecords

  /** The shared list of records. Hooks append to it in place; callers may
      pass the same list to several sessions. */
  class MemoryLog {
    var records: seq<MemoryRecord>

    constructor ()
      ensures records == []
    {
      records := [];
    }

    method Append(r: MemoryRecord)
      modifies this
      ensures records == old(records) + [r]
    {
      records := records + [r];
    }
  }

  /** A module of the model, known by the name of its concrete class;
      its index is its position in the enumeration. */
  datatype Module = Module(typeName: string)

  /** The closure built by the hook factory: the log it appends to, the
      layer index, the phase tag and the experiment label it captured. */
  datatype MemHook = MemHook(log: MemoryLog, layerIdx: nat, hookType: HookType, exp: string)

  /** A live hook as the engine holds it: attached to one module. */
  datatype Registration = Registration(attachedTo: Module, hook: MemHook)

  type Handle = nat

  /** One hook invocation by the engine, with the snapshot the device
      reports at that moment. */
  datatype Firing = Firing(handle: Handle, snapshot: Snapshot)

  /** The training step as the hooks see it: the hook firings in order,
      and whether the step then raised. */
  datatype Step = Step(firings: seq<Firing>, fails: bool)

  /** The call a live registration contributes when it fires: the engine
      passes the module the hook is attached to. */
  function CallOf(reg: Registration, snap: Snapshot): (c: Call)
    ensures c.layerIdx == reg.hook.layerIdx && c.hookType == reg.hook.hookType
    ensures c.exp == reg.hook.exp && c.layerType == reg.attachedTo.typeName
    ensures c.snapshot == snap
  {
    Call(reg.hook.layerIdx, reg.hook.hookType, reg.hook.exp, reg.attachedTo.typeName, snap)
  }

  /** The body of the closure: one record appended to the captured log.
      Its call index restarts at 0 on an empty log or after a record of
      another experiment, and otherwise follows the last one. */
  method CallHook(hook: MemHook, self: Module, snap: Snapshot)
    modifies hook.log
    ensures hook.log.records == Replay(old(hook.log.records), [CallOf(Registration(self, hook), snap)])
  {
    var mem := hook.log.records;
    var callIdx: nat;
    if |mem| == 0 || mem[|mem| - 1].exp != hook.exp {
      callIdx := 0;
    } else {
      callIdx := mem[|mem| - 1].callIdx + 1;
    }
    hook.log.Append(MemoryRecord(hook.layerIdx, callIdx, self.typeName, hook.exp,
                                 hook.hookType, snap.bytesAllocated, snap.bytesCached));
    assert [CallOf(Registration(self, hook), snap)][..0] == [];
  }

  /** The logs that the hooks in `m` append to. */
  ghost function LogsOf(m: map<Handle, Registration>): (r: set<MemoryLog>)
  {
    set h | h in m :: m[h].hook.log
  }

  /** No hook in `hooks` appends to `log`. */
  ghost predicate Untargeted(hooks: map<Handle, Registration>, log: MemoryLog)
  {
    forall h :: h in hooks ==> hooks[h].hook.log != log
  }

  lemma UntargetedNotInLogs(hooks: map<Handle, Registration>, log: MemoryLog)
    ensures Untargeted(hooks, log) <==> log !in LogsOf(hooks)
  {
    if !Untargeted(hooks, log) {
      var h :| h in hooks && hooks[h].hook.log == log;
      assert log in LogsOf(hooks);
    }
  }

  /** The engine's table of live hooks. Handles come from a counter that
      only grows, so a new handle is never one already in use. */
  class Registry {
    var hooks: map<Handle, Registration>
    var nextId: Handle

    ghost predicate Valid()
      reads this
    {
      forall h :: h in hooks ==> h < nextId
    }

    /** The logs that live hooks append to. */
    ghost function Logs(): (r: set<MemoryLog>)
      reads this
    {
      LogsOf(hooks)
    }

    constructor ()
      ensures Valid() && hooks == map[] && nextId == 0
    {
      hooks := map[];
      nextId := 0;
    }

    /** Attaches a hook to a module and returns its handle. */
    method Register(mod: Module, hook: MemHook) returns (h: Handle)
      requires Valid()
      modifies this
      ensures Valid()
      ensures h == old(nextId) && h !in old(hooks)
      ensures hooks == old(hooks)[h := Registration(mod, hook)]
      ensures nextId == old(nextId) + 1
    {
      h := nextId;
      hooks := hooks[h := Registration(mod, hook)];
      nextId := nextId + 1;
    }

    /** Detaches the hook of a handle; a handle already removed is ignored. */
    method Remove(h: Handle)
      requires Valid()
      modifies this
      ensures Valid()
      ensures hooks == old(hooks) - {h}
      ensures nextId == old(nextId)
    {
      hooks := hooks - {h};
    }
  }

  /** The calls that the firings make into `target`: a firing of a live
      handle whose hook appends to `target`; other firings add nothing. */
  function CallsFor(hooks: map<Handle, Registration>, firings: seq<Firing>, target: MemoryLog): (r: seq<Call>)
    ensures |r| <= |firings|
    decreases |firings|
  {
    if firings == [] then []
    else
      var prev := CallsFor(hooks, firings[..|firings| - 1], target);
      var f := firings[|firings| - 1];
      if f.handle in hooks && hooks[f.handle].hook.log == target
      then prev + [CallOf(hooks[f.handle], f.snapshot)]
      else prev
  }

  /** One more firing adds at most its own call. */
  lemma CallsForSnoc(hooks: map<Handle, Registration>, firings: seq<Firing>, f: Firing, target: MemoryLog)
    ensures CallsFor(hooks, firings + [f], target) ==
      if f.handle in hooks && hooks[f.handle].hook.log == target
      then CallsFor(hooks, firings, target) + [CallOf(hooks[f.handle], f.snapshot)]
      else CallsFor(hooks, firings, target)
  {
    assert (firings + [f])[..|firings|] == firings;
  }

  /** When every firing is of a live hook of `target`, each contributes its
      own call, in firing order. */
  lemma {:induction false} CallsForAllLive(hooks: map<Handle, Registration>, firings: seq<Firing>, target: MemoryLog)
    requires forall j :: 0 <= j < |firings| ==>
      firings[j].handle in hooks && hooks[firings[j].handle].hook.log == target
    ensures |CallsFor(hooks, firings, target)| == |firings|
    ensures forall j :: 0 <= j < |firings| ==>
      CallsFor(hooks, firings, target)[j] == CallOf(hooks[firings[j].handle], firings[j].snapshot)
    decreases |firings|
  {
    if firings != [] {
      var n := |firings| - 1;
      CallsForAllLive(hooks, firings[..n], target);
      assert firings == firings[..n] + [firings[n]];
      CallsForSnoc(hooks, firings[..n], firings[n], target);
    }
  }

  /** A log that no live hook appends to receives nothing, whatever fires. */
  lemma {:induction false} CallsForUntargeted(hooks: map<Handle, Registration>, firings: seq<Firing>, target: MemoryLog)
    requires Untargeted(hooks, target)
    ensures CallsFor(hooks, firings, target) == []
    decreases |firings|
  {
    if firings != [] {
      CallsForUntargeted(hooks, firings[..|firings| - 1], target);
    }
  }

  /** A firing of a handle that is not live does nothing. */
  lemma {:induction false} CallsForDeadHandles(hooks: map<Handle, Registration>, firings: seq<Firing>, target: MemoryLog)
    requires forall i :: 0 <= i < |firings| ==> firings[i].handle !in hooks
    ensures CallsFor(hooks, firings, target) == []
    decreases |firings|
  {
    if firings != [] {
      CallsForDeadHandles(hooks, firings[..|firings| - 1], target);
    }
  }

  /** The hooks that append to `target` all belong to one session: they
      carry its experiment label and the index of the module they are
      attached to in `model`. */
  ghost predicate SessionTargets(hooks: map<Handle, Registration>, target: MemoryLog, model: seq<Module>, e: string)
  {
    forall h :: h in hooks && hooks[h].hook.log == target ==>
      && hooks[h].hook.exp == e
      && hooks[h].hook.layerIdx < |model|
      && hooks[h].attachedTo == model[hooks[h].hook.layerIdx]
  }

  /** Calls made by a session's hooks: its label, and the type name of the
      module at the layer index. */
  ghost predicate SessionCalls(calls: seq<Call>, model: seq<Module>, e: string)
  {
    forall j :: 0 <= j < |calls| ==>
      && calls[j].exp == e
      && calls[j].layerIdx < |model|
      && calls[j].layerType == model[calls[j].layerIdx].typeName
  }

  /** Then every call into `target` is one of that session's: its label,
      and the type name of the module at its layer index. */
  lemma {:induction false} CallsForSession(hooks: map<Handle, Registration>, firings: seq<Firing>, target: MemoryLog,
                                           model: seq<Module>, e: string)
    requires SessionTargets(hooks, target, model, e)
    ensures SessionCalls(CallsFor(hooks, firings, target), model, e)
    decreases |firings|
  {
    if firings != [] {
      CallsForSession(hooks, firings[..|firings| - 1], target, model, e);
      var f := firings[|firings| - 1];
      assert firings == firings[..|firings| - 1] + [f];
      CallsForSnoc(hooks, firings[..|firings| - 1], f, target);
      if f.handle in hooks && hooks[f.handle].hook.log == target {
        var reg := hooks[f.handle];
        assert reg.hook.exp == e && reg.hook.layerIdx < |model| && reg.attachedTo == model[reg.hook.layerIdx];
      }
    }
  }

  /** The forward, backward and optimizer calls of one training step, seen
      through the hooks they fire: every firing of a live handle runs its
      hook, in order. Each log ends up as the replay of the calls made into
      it; records made before a failure stay. */
  method RunStep(registry: Registry, step: Step) returns (raised: bool)
    modifies registry.Logs()
    ensures raised == step.fails
    ensures forall L :: L in registry.Logs() ==>
      L.records == Replay(old(L.records), CallsFor(registry.hooks, step.firings, L))
  {
    var i := 0;
    while i < |step.firings|
      invariant 0 <= i <= |step.firings|
      invariant forall L :: L in registry.Logs() ==>
        L.records == Replay(old(L.records), CallsFor(registry.hooks, step.firings[..i], L))
    {
      var f := step.firings[i];
      ghost var done := step.firings[..i];
      assert step.firings[..i + 1] == done + [f];
      if f.handle in registry.hooks {
        var reg := registry.hooks[f.handle];
        assert reg.hook.log in registry.Logs();
        CallHook(reg.hook, reg.attachedTo, f.snapshot);
        forall L | L in registry.Logs()
          ensures L.records == Replay(old(L.records), CallsFor(registry.hooks, done + [f], L))
        {
          CallsForSnoc(registry.hooks, done, f, L);
          if L == reg.hook.log {
            ReplaySnoc(old(L.records), CallsFor(registry.hooks, done, L), CallOf(reg, f.snapshot));
          }
        }
      } else {
        forall L | L in registry.Logs()
          ensures L.records == Replay(old(L.records), CallsFor(registry.hooks, done + [f], L))
        {
          CallsForSnoc(registry.hooks, done, f, L);
        }
      }
      i := i + 1;
    }
    assert step.firings[..i] == step.firings;
    raised := step.fails;
  }
}
