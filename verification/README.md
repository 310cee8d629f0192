# safemap, modelled in Dafny

`safemap` is a concurrency-safe string-keyed map for Go. A single goroutine
(the actor) owns the store; every public method builds a `command` record and
sends it on an unbuffered channel, and the actor's `run` loop takes the
commands one at a time, in arrival order, applying each to the store and
answering on the command's reply channel and/or by calling the callback the
command carries.

This project models that core without the goroutine and the channel:

- `Values` (`values.dfy`): the stored value (`Nil`, Go's zero `interface{}`,
  or an opaque payload), the `(value, exist)` lookup result, the store, the
  comma-ok lookup, and the snapshot's copy.
- `SafeMap` (`safemap.dfy`): the command record, the observable events
  (replies and callback calls), the actor's states (`Running`, `Closed`,
  `Halted`), the step function `Step` that is the body of the `run` switch,
  and the command each public method sends (`PutCommand`, `AsyncLenCommand`, ...).
  A reply channel or callback is modelled by whether it is present (non-nil);
  using it is an event.
- `Actor` (`actor.dfy`): `Run`, the step folded over a sequence of commands
  in arrival order (through a generic `Fold` over any step function);
  `Serve`, the `run` loop as a method, proved to compute `Run`; and lemmas
  about whole histories: composition, the absorbing closed and halted states,
  queries leaving the store alone, untouched keys, and a per-key history that
  each key follows independently of all the others.
- `Properties` (`properties.dfy`): what each public operation does
  (put/get and remove/get round trips, frames, update semantics, the
  asynchronous length quirk, the snapshot as written and as intended) and
  the session
  `Put; Put; Update; Get; Len; Snapshot; Close; Get` worked end to end, for
  any two distinct keys, any two numbers and any starting store.

Where the code and its design description disagree, the model follows the code:

- A command sent after `Close` makes the sending goroutine panic (send on a
  closed channel). The model records this as a `SendOnClosed` event for that
  command and leaves the closed state unchanged.
- A snapshot is meant to reply a deep copy of the store, but the copy
  routine hands the decoder the destination map itself rather than a pointer
  to it, so decoding always fails, the error is dropped, and the reply is the
  empty map the snapshot started from. The model's `Step` replies that empty
  map; the intended copy is `Values.DeepCopy`, used by `SafeMap.IntendedStep`
  (see "Findings").
- The asynchronous length query is sent as a `get` with neither a reply
  channel nor a get callback, so nothing answers it (see "Findings").

Two commands stop the actor for good: a snapshot with no reply channel
blocks it on a send to a nil channel, and an update with no updater panics
on the nil call. Both lead to `Halted`. No public method builds the first;
`Update(key, nil)` and `AsyncUpdate(key, nil, callback)` build the second
(`Properties.OnlyNilUpdaterHalts`). An `end` with no reply channel also
leaves the actor blocked forever on the nil send after closing the channel;
the model treats it as plain `Closed` with no reply, since every later send
fails on the closed channel either way.

## Model

| member | source | states |
|---|---|---|
| `SafeMap.Step` | safeMap.go:127-174 | The actor is closed after a command exactly when it was closed already or ran `end`. It is halted exactly when it was halted or ran a snapshot without a reply channel or an update without an updater. A closed map fails every command. A halted actor emits nothing. A command changes no key but its own. Get, length and snapshot leave the store unchanged, and a snapshot replies the empty map whatever the store holds. At most two effects per command. |
| `Values.DeepCopy` | safeMap.go:176-182 | The copy the snapshot is evidently meant to reply (the copy as written is always empty; see Findings): it has exactly the store's bindings, every key looks up alike, so it equals the store. |
| `Actor.StoppedStaysStopped` | safeMap.go:127-174 | A closed or halted actor stays in that state through any further commands; so an actor still running after a history was running before it. |
| `Actor.RunEventBound` | safeMap.go:138-161 | A history of n commands produces at most 2n effects: each command answers at most once on its reply channel and once through its callback. |
| `Actor.RunKeepsUnnamedKeys` | safeMap.go:133-170 | A key that no command of a history names keeps its binding (present with the same value, or absent) for as long as the actor runs. |
| `Actor.Serve` | safeMap.go:127-174 | The `run` loop over a fresh map, stopping once the channel is closed or the actor halts, produces the same final state and events as the fold; a key no command names is absent at the end. |
| `Actor.RunAppend` | safeMap.go:131 | Commands are consumed in order: running `a + b` is running `a`, then `b` from the state `a` left, with the events concatenated. |
| `Actor.ClosedAbsorbs` | safeMap.go:85-87 | After the close, each further command fails on the closed channel and the state stays closed. |
| `Actor.HaltedAbsorbs` | safeMap.go:153-166 | A halted actor takes no further command and produces nothing. |
| `Actor.CloseIsFinal` | safeMap.go:167-169 | `Close` replies with the entire live store and moves to closed; every command after it fails and changes nothing. |
| `Actor.QueriesPreserveStore` | safeMap.go:138-166 | Any run of gets, length queries and snapshots leaves the store exactly as it was. |
| `Actor.RunAgreesWithKeyHistory` | safeMap.go:134-161 | While no command ends or halts the actor, each key's binding after a history equals the per-key history of the puts, removes and updates naming that key, starting from its initial lookup. |
| `Properties.OnlyNilUpdaterHalts` | safeMap.go:59-123 | Of the commands the public methods build, an update (synchronous or asynchronous) halts the actor exactly when its updater is nil; every other one keeps it running; `Close` sends an `end` with a reply channel. |
| `Properties.PutThenGet` | safeMap.go:136-145 | Put then get of the same key replies `(v, true)` and emits nothing else. Overwriting a present key keeps the entry count; a new key adds one. |
| `Properties.RemoveThenGet` | safeMap.go:134-145 | Remove then get of the same key replies `(Nil, false)`. Removing an absent key leaves the store unchanged; removing a present one drops the count by one. |
| `Properties.PutRemoveFrame` | safeMap.go:134-137 | Put and remove emit nothing and leave every other key's binding unchanged. |
| `Properties.GetAfterHistory` | safeMap.go:134-161 | After any history without `end` or a halting command, `Get(k)` replies, and `AsyncGet(k)` calls back with, the binding of k given by the per-key history of the commands naming k; nothing else is emitted and the state is unchanged. |
| `Properties.LenAfterPut` | safeMap.go:136-137 | After a put, `Len()` reports one more than before for a new key and the same count for an overwrite. |
| `Properties.LenAfterRemove` | safeMap.go:134-135 | After a remove, `Len()` reports one less than before when the key was present and the same count otherwise. |
| `Properties.UpdateStoresUpdaterResult` | safeMap.go:153-161 | Update stores `f(current, true)`, or `f(Nil, false)` for an absent key, and answers exactly the stored value: synchronous update by reply, asynchronous update by callback. On an absent key it inserts and grows the count by one. |
| `Properties.UpdateReplyBeforeCallback` | safeMap.go:156-161 | With both a reply channel and a callback, an update emits the reply and then the callback, both carrying the stored value. |
| `Properties.QueryReplyBeforeCallback` | safeMap.go:138-152 | A get or length query carrying both a reply channel and a callback leaves the store unchanged and emits exactly the reply and then the callback, both with the key's lookup (get) or the number of keys (length). |
| `Properties.AsyncLenNeverCallsBack` | safeMap.go:115-117 | The asynchronous length query is tagged `get`; stepping it emits nothing, so its length callback is never called, and the store is unchanged. |
| `Properties.IntendedAsyncLenCallsBack` | safeMap.go:146-152 | Tagged `length`, the asynchronous length query calls back with the number of keys and changes nothing. |
| `Properties.SnapshotRepliesEmpty` | safeMap.go:163-166 | As written, a snapshot leaves the store unchanged and replies the empty map, so on a non-empty store every entry is missing from the copy. |
| `Properties.IntendedSnapshotCopiesStore` | safeMap.go:163-166 | As intended, a snapshot leaves the store unchanged and replies one map whose every key looks up as in the store. |
| `Properties.IntendedRunAgreesWithoutSnapshots` | safeMap.go:131-172 | The intended step differs from the source's only on snapshots: any history without a snapshot runs alike, state and events, under both. |
| `Properties.Session` | safeMap.go:127-174 | For distinct keys a and b, numbers x and y and any starting store, `Put(a,x); Put(b,y); Update(a, +10); Get(a); Len(); Snapshot(); Close(); Get(a)` answers x+10, `(x+10, true)`, the number of keys, the empty map (snapshot), the store with a bound to x+10 and b to y (close), and the last get fails on the closed map. |
| `Properties.SessionOnFreshMap` | safeMap.go:127-174 | On a fresh map, `Put("a",1); Put("b",2); Update("a", +10); Get("a"); Len(); Snapshot(); Close(); Get("a")` answers 11, `(11, true)`, 2, the empty map, `{"a": 11, "b": 2}`, and the last get fails. |

## Left out

- The goroutine, the unbuffered channel and the blocking receives (safeMap.go:50-56 and the `<-reply` receives): the model is a sequential fold over a given arrival order. How concurrent callers' commands are interleaved, and linearizability, are not modelled.
- The sender's panic on a closed channel is modelled as the `SendOnClosed` event, not as a process-ending panic.
- `Halted` merges two different outcomes: a snapshot with a nil reply channel hangs the actor, while an update with a nil updater crashes the process.
- The gob encoding inside the snapshot copy is not modelled: whether it succeeds or fails, decoding into the non-pointer destination fails and the reply is the empty map, so the reply does not depend on it.
- The type assertions on replies inside the public methods (safeMap.go:73, 82, 92, 107): Go typing plumbing.
- Side effects of callbacks and updaters, and the deadlock when they call back into the map: an updater is a pure function, and a callback is only the event that calls it.
- The public methods are modelled as the commands they send. A nil updater is modelled (`Option`); a nil callback passed to `AsyncGet`, `AsyncLen` or `AsyncUpdate` is covered only at the command level, through the callback flags and `Step`.
- Command tags outside the seven constants: the switch ignores them, and no public method sends one.

## Findings

| source | as written | input that shows it | evidently intended | confidence | as-written member | corrected member |
|---|---|---|---|---|---|---|
| safeMap.go:115-117 | `AsyncLen` sends a command tagged `get` that has only `lenCallBack` set. The `get` branch uses only the reply channel and `getCallBack`, so nothing answers the query. | `AsyncLen("x", cb)` on any map: `cb` is never called | a command tagged `length` carrying the callback, so that `cb(len(store))` is called | high; not executed | `Properties.AsyncLenNeverCallsBack` | `Properties.IntendedAsyncLenCallsBack` |
| safeMap.go:165-181 | `deepCopy(snapshotMap, store)` passes the destination map by value; gob's `Decode` needs a pointer, so it fails, and the dropped error leaves the map empty. The snapshot replies that empty map. | `Put("a", 1); Snapshot()`: the reply is the empty map, not `{"a": 1}` | `deepCopy(&snapshotMap, store)`, so the reply holds every binding of the store | high; not executed | `Properties.SnapshotRepliesEmpty` | `Properties.IntendedSnapshotCopiesStore` |
