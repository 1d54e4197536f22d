# GPU memory logging around one training step

This project models the recording core of `memory_utils.py`: the hook that
appends one memory record to a shared log, the installer that attaches a
pre-forward, a forward and a backward hook to one module, and the `log_mem`
session that picks the log and the experiment label, attaches hooks to every
module, runs one training step and detaches every hook again.

## Modules

- `records.dfy` (`MemRecords`): records, hook tags, snapshots, and the
  call-index rule. `Replay` is the reference definition of a log after a
  sequence of hook calls.
- `labels.dfy` (`ExpLabels`): the default label `exp_<n>`, with `n` in decimal.
- `hooks.dfy` (`MemHooks`): the shared list as a class `MemoryLog` whose
  `records` field hooks append to; the hook closure as a `MemHook` value
  capturing the log object, the layer index, the tag and the label; the
  engine's table of live hooks as a class `Registry` (handle to registration,
  plus the handle counter); `CallHook`, the closure body; `RunStep`, one
  training step seen as the hook firings it causes.
- `session.dfy` (`MemSession`): `AddMemoryHooks`, the installation and removal
  loops of `log_mem`, `InstrumentedStep` (the `try`/`finally` block with the
  loops around it), and `LogMem` itself, which picks the log and the label.
- `scenarios.dfy` (`MemScenarios`): a client method that uses only the
  contracts. It proves that a two-module step into a fresh log yields six
  records numbered 0..5 under `exp_0`, and that a later step, with the hooks
  gone, adds nothing.

Abstractions:

- A module is its concrete class name. Its index is its position in the
  enumeration, which the caller supplies as a sequence.
- A snapshot is a pair of naturals, supplied with each firing.
- The training step is a sequence of firings. Each firing names a handle and
  carries the snapshot the device reports at that moment. A flag says
  whether the step then raised.
- Firing a live handle runs its hook, with the module the hook is attached
  to. Firing a handle that is not live does nothing.
- Handles come from a counter that only grows, as PyTorch's do, so a new
  handle is never one already live.

Where the code departs from the intended design, the model follows the
code:

- `log_mem` returns from inside its `finally` block (memory_utils.py:55-58).
  That discards any exception the step raised (memory_utils.py:50-54), so no
  failure of the step reaches the caller and the log is returned. `LogMem` drops `RunStep`'s `raised`
  result for this reason.
- `mem_log or []` (memory_utils.py:43) treats a caller's empty list like a
  missing one. The session then records into a fresh list. The caller's
  empty list is left untouched, unless some other live hook appends to it.
- `exp or ...` (memory_utils.py:44) treats an empty label like a missing
  one.
- The code has no device check and catches nothing inside a hook
  (memory_utils.py:5-6, 16-17). If a device call raises inside a hook, the
  step ends before that hook's record is appended. The model expresses this
  as a `Step` whose firings stop there and whose `fails` flag is set. The
  `return` in `finally` then swallows the error.

## Model

| member | source | states |
|---|---|---|
| `MemRecords.NextCallIdx` | memory_utils.py:11-14 | the definition of the call-index rule: 0 exactly when the log is empty or its last record has another label, otherwise the last index + 1; what the rule means for a log is stated by `ReplayAt` and `RunCallIdx` |
| `MemRecords.Replay` | memory_utils.py:18-26 | each hook call appends exactly one record; the old log is a prefix of the new one |
| `MemRecords.ReplayAt` | memory_utils.py:11-26 | the record of the i-th call carries that call's layer index, tag, label, module type name and both byte counts, and the index the rule gives for the log before it |
| `MemRecords.RunCallIdx` | memory_utils.py:11-14 | k calls under one label number their records consecutively from the rule's first index (0 after an empty log or another label); layer index and tag play no part |
| `MemRecords.ReplayKeepsConsistent` | memory_utils.py:11-18 | a log whose every index follows the rule still does after more hook calls |
| `MemRecords.TwoExperiments` | memory_utils.py:11-14 | two experiments logged one after the other each number from 0; the second restarts at its first record |
| `MemRecords.ReplayConcat` | memory_utils.py:18 | appending two batches of calls one after the other equals appending them as one batch |
| `ExpLabels.NatToString` | memory_utils.py:44 | the count is written as a non-empty string of decimal digits with no leading zero |
| `ExpLabels.DigitsRoundTrip` | memory_utils.py:44 | reading the written digits back gives the count |
| `ExpLabels.ExpLabelInjective` | memory_utils.py:44 | different record counts give different default labels |
| `MemSession.DefaultExp` | memory_utils.py:44 | the caller's label unless it is absent or empty, otherwise `exp_` and the count of prior records; never empty |
| `MemHooks.MemoryLog.Append` | memory_utils.py:18 | one record added at the end, nothing else changed |
| `MemHooks.CallHook` | memory_utils.py:9-28 | the captured log becomes its old contents plus the one record the rule and the captured arguments determine |
| `MemHooks.Registry.Register` | memory_utils.py:32-38 | attaching a hook returns a handle not already live and adds exactly that registration |
| `MemHooks.Registry.Remove` | memory_utils.py:56 | detaching removes exactly that handle's registration |
| `MemHooks.CallsForAllLive` | memory_utils.py:10-26 | when every firing is of a live hook of the log, each adds its own call, in firing order |
| `MemHooks.CallsForUntargeted` | memory_utils.py:55-56 | a log that no live hook appends to receives nothing, whatever fires |
| `MemHooks.CallsForDeadHandles` | memory_utils.py:56 | firings of removed handles record nothing |
| `MemHooks.CallsForSession` | memory_utils.py:31-47 | if only one session's hooks append to a log, every call into it has the session's label and the type name of the module at its layer index |
| `MemHooks.RunStep` | memory_utils.py:49-54 | every log becomes the replay of the calls that the step's firings make into it; records made before a failure stay |
| `MemSession.AddMemoryHooks` | memory_utils.py:31-39 | exactly three handles appended to the handle list, in the order pre, forward, backward, each with its registration |
| `MemSession.SessionHooksAt` | memory_utils.py:31-39 | module i, in enumeration order, owns handles base+3i+0..2 with tags pre, fwd, bwd and layer index i |
| `MemSession.SessionHooksCount` | memory_utils.py:46-47 | N modules give exactly 3·N registrations |
| `MemSession.SessionHooksOwned` | memory_utils.py:46-47 | every registration of a session appends to its log, under its label, for the module at the layer index it records |
| `MemSession.SessionTargetsUnion` | memory_utils.py:43-47 | glue lemma: if no earlier hook appends to the session's log, the session's own hooks are the only ones that do |
| `MemSession.SessionRecords` | memory_utils.py:11-26 | a session's records all carry its label, are numbered on from the rule's first index, and name the type of the module at their layer index |
| `MemSession.InstallHooks` | memory_utils.py:46-47 | the loop attaches all 3·N hooks, with handles the next 3·N values of the counter |
| `MemSession.RemoveHooks` | memory_utils.py:55-56 | the cleanup loop detaches every handle in the list and nothing else |
| `MemSession.RemovingSessionRestores` | memory_utils.py:55-56 | detaching a session's handles leaves exactly the hooks that were live before it |
| `MemSession.SessionLogs` | memory_utils.py:46-47 | frame lemma: attaching a session's hooks adds at most the session's log to the logs that live hooks append to |
| `MemHooks.UntargetedNotInLogs` | memory_utils.py:49-56 | frame lemma: no live hook appends to a log exactly when it is not among the logs of the live hooks, the set the step may change |
| `MemSession.CallsForOtherLog` | memory_utils.py:46-54 | a session's hooks, under handles not already live, add no call to any log but the session's |
| `MemSession.LogsOfKept` | memory_utils.py:46-47 | frame lemma: attaching hooks under fresh handles keeps every log that earlier hooks append to |
| `MemSession.InstrumentedStep` | memory_utils.py:45-56 | after install, step and cleanup, the live hooks are those before the call; the log is the replay of the step's firings through the earlier hooks plus the session's; with no earlier hook on the log, its new records carry the label and are numbered consecutively; every other log that earlier hooks append to becomes the replay of the calls those hooks make into it |
| `MemSession.LogMem` | memory_utils.py:42-58 | the log is reused if non-empty and fresh otherwise; whether the step completes or raises, the live hooks are those before the call; the log is the replay of the step's firings; with no foreign hook on it, the new records carry the label and are numbered consecutively; a fresh log has no live hook afterwards; a caller's empty list that no earlier hook appends to stays empty; every other log that earlier hooks append to receives exactly their calls |

## Left out

- The device queries `torch.cuda.memory_allocated`, `memory_cached` and
  `synchronize` (memory_utils.py:6, 16-17) are foreign calls. Each firing
  carries its snapshot as two naturals instead. The code reads the counts
  (line 16) before it calls `synchronize` (line 17), so a snapshot may miss
  device work still queued. The model leaves the snapshot unconstrained, so
  this order plays no part in it. The unused `synchronize` and
  `empty_cache` parameters of `_get_gpu_mem` are not modelled.
- `_generate_mem_hook` has no separate member. The `MemHook` value is the
  closure, and `CallHook` is its body. The unused `handle_ref` argument is
  dropped.
- PyTorch's hook machinery is not modelled. That covers the separate tables
  for the three hook kinds, the order in which forward and backward fire
  hooks, and `model.modules()`. The firing sequence and the module sequence
  are inputs. A single `Register` stands for the three `register_*_hook`
  calls, because the tag travels with the hook.
- `optimizer.zero_grad()`, the forward call, `loss.backward()` and
  `optimizer.step()` are foreign calls. They are abstracted as the sequence
  of firings they cause, plus a flag for raising at the end. The exception
  value itself is not modelled.
- Hooks other than these memory hooks, which other code may attach to the
  model, are not part of the registry.
- Falsy values other than `None`, the empty list and the empty string are
  not modelled. The log is `null` or a `MemoryLog`, and the label is an
  `Option<string>`.
- `plot_mem` (memory_utils.py:61-73) is presentation only.
- MemSession.LogMem: its contents guarantee (consecutive numbering under the
  session's label) is stated only when no hook that was live before the
  session appends to the same log. Otherwise the contract gives only the
  general replay equation.
- Registration is modelled as never failing. In the source, the defaults and
  the installation loop (memory_utils.py:43-47) run before the `try`. An
  error raised while attaching hooks therefore escapes `log_mem`, no log is
  returned, and the hooks already attached to earlier modules stay live.
