/** What each public operation of the map does, stated against the commands
    the public methods build and the step the actor takes on them. */
module Properties {
  import opened Values
  import opened SafeMap
  import opened Actor

  /** Of the commands the public methods build, only an update whose caller
      passed a nil updater stops the actor (it panics calling it); `Close`
      always carries the channel its reply goes to. */
  lemma OnlyNilUpdaterHalts<T>(key: string, v: Value<T>, f: Option<Updater<T>>)
    ensures !Halts(PutCommand(key, v)) && !Halts(RemoveCommand<T>(key))
    ensures !Halts(GetCommand<T>(key)) && !Halts(LenCommand<T>())
    ensures Halts(UpdateCommand(key, f)) <==> f.None?
    ensures Halts(AsyncUpdateCommand(key, f)) <==> f.None?
    ensures !Halts(SnapshotCommand<T>())
    ensures !Halts(AsyncGetCommand<T>(key)) && !Halts(AsyncLenCommand<T>(key))
    ensures !Halts(CloseCommand<T>()) && !Halts(IntendedAsyncLenCommand<T>())
    ensures CloseCommand<T>().action == End && CloseCommand<T>().hasReply
  {
  }

  /** A put followed by a get of the same key answers the value put, and
      overwriting a key that is already there keeps the entry count. */
  lemma PutThenGet<T>(m: Store<T>, k: string, v: Value<T>)
    ensures Run(Running(m), [PutCommand(k, v), GetCommand(k)])
            == Transition(Running(m[k := v]), [GetReply(GetResult(v, true))])
    ensures k in m ==> |m[k := v]| == |m|
    ensures k !in m ==> |m[k := v]| == |m| + 1
  {
    RunCons(Running(m), PutCommand(k, v), [GetCommand(k)]);
    RunSingle(Running(m[k := v]), GetCommand(k));
    assert [PutCommand(k, v)] + [GetCommand(k)] == [PutCommand(k, v), GetCommand(k)];
    if k in m {
      assert m[k := v].Keys == m.Keys;
    } else {
      assert m[k := v].Keys == m.Keys + {k};
    }
  }

  /** A remove followed by a get of the same key answers "absent" with the
      nil value, and removing an absent key changes nothing. */
  lemma RemoveThenGet<T>(m: Store<T>, k: string)
    ensures Run(Running(m), [RemoveCommand(k), GetCommand(k)])
            == Transition(Running(m - {k}), [GetReply(GetResult(Nil, false))])
    ensures k !in m ==> m - {k} == m
    ensures k in m ==> |m - {k}| == |m| - 1
  {
    RunCons(Running(m), RemoveCommand(k), [GetCommand(k)]);
    RunSingle(Running(m - {k}), GetCommand(k));
    assert [RemoveCommand<T>(k)] + [GetCommand(k)] == [RemoveCommand(k), GetCommand(k)];
    if k in m {
      assert (m - {k}).Keys + {k} == m.Keys;
    }
  }

  /** Put and remove are fire-and-forget and touch only their own key. */
  lemma PutRemoveFrame<T>(m: Store<T>, k: string, v: Value<T>, other: string)
    requires other != k
    ensures Step(Running(m), PutCommand(k, v)).events == []
    ensures Step(Running(m), RemoveCommand(k)).events == []
    ensures Lookup(Step(Running(m), PutCommand(k, v)).next.store, other) == Lookup(m, other)
    ensures Lookup(Step(Running(m), RemoveCommand(k)).next.store, other) == Lookup(m, other)
  {
  }

  /** A get after any history that neither closes nor stops the actor
      answers the key's binding as computed from the commands on that key
      alone, on the reply channel (`Get`) or the callback (`AsyncGet`), and
      changes nothing. */
  lemma GetAfterHistory<T>(m: Store<T>, k: string, cmds: seq<Command<T>>)
    requires forall i :: 0 <= i < |cmds| ==> cmds[i].action != End && !Halts(cmds[i])
    ensures var before := Run(Running(m), cmds);
            Run(Running(m), cmds + [GetCommand(k)])
            == Transition(before.next, before.events + [GetReply(KeyHistory(k, Lookup(m, k), cmds))])
    ensures var before := Run(Running(m), cmds);
            Run(Running(m), cmds + [AsyncGetCommand(k)])
            == Transition(before.next, before.events + [GetCallback(KeyHistory(k, Lookup(m, k), cmds))])
  {
    var before := Run(Running(m), cmds);
    RunAgreesWithKeyHistory(m, k, cmds);
    RunAppend(Running(m), cmds, [GetCommand(k)]);
    RunSingle(before.next, GetCommand(k));
    RunAppend(Running(m), cmds, [AsyncGetCommand(k)]);
    RunSingle(before.next, AsyncGetCommand(k));
  }

  /** The length reported after a put counts the key once: one more than
      before for a new key, the same for an overwrite. */
  lemma LenAfterPut<T>(m: Store<T>, k: string, v: Value<T>)
    ensures Run(Running(m), [PutCommand(k, v), LenCommand()])
            == Transition(Running(m[k := v]), [LenReply(if k in m then |m| else |m| + 1)])
  {
    RunCons(Running(m), PutCommand(k, v), [LenCommand()]);
    RunSingle(Running(m[k := v]), LenCommand());
    assert [PutCommand(k, v), LenCommand()] == [PutCommand(k, v)] + [LenCommand()];
    if k in m {
      assert m[k := v].Keys == m.Keys;
    } else {
      assert m[k := v].Keys == m.Keys + {k};
    }
  }

  /** The length reported after a remove is one less than before when the
      key was there, and unchanged otherwise. */
  lemma LenAfterRemove<T>(m: Store<T>, k: string)
    ensures Run(Running(m), [RemoveCommand(k), LenCommand()])
            == Transition(Running(m - {k}), [LenReply(if k in m then |m| - 1 else |m|)])
  {
    RunCons(Running(m), RemoveCommand(k), [LenCommand()]);
    RunSingle(Running(m - {k}), LenCommand());
    assert [RemoveCommand<T>(k), LenCommand()] == [RemoveCommand(k)] + [LenCommand()];
    RemoveThenGet(m, k);
  }

  /** An update stores what the updater makes of the current binding (the nil
      value and false for an absent key), answers exactly the stored value,
      and grows the map by one when the key was absent. */
  lemma UpdateStoresUpdaterResult<T>(m: Store<T>, k: string, f: Updater<T>)
    ensures var t := Step(Running(m), UpdateCommand(k, Some(f)));
            var stored := if k in m then f(m[k], true) else f(Nil, false);
            && t.next == Running(m[k := stored])
            && t.events == [UpdateReply(stored)]
    ensures var t := Step(Running(m), AsyncUpdateCommand(k, Some(f)));
            var stored := if k in m then f(m[k], true) else f(Nil, false);
            && t.next == Running(m[k := stored])
            && t.events == [UpdateCallback(stored)]
    ensures k !in m ==> |Step(Running(m), UpdateCommand(k, Some(f))).next.store| == |m| + 1
  {
    var stored := if k in m then f(m[k], true) else f(Nil, false);
    assert m[k := stored].Keys == m.Keys + {k};
  }

  /** An update with both a reply channel and a callback hands both the same
      stored value, the reply first. */
  lemma UpdateReplyBeforeCallback<T>(m: Store<T>, c: Command<T>)
    requires c.action == Update && c.updater.Some? && c.hasReply && c.hasUpdateCallback
    ensures var t := Step(Running(m), c);
            && |t.events| == 2
            && t.events[0].UpdateReply? && t.events[1].UpdateCallback?
            && t.events[0].stored == t.events[1].stored == t.next.store[c.key]
  {
  }

  /** A get or length query with both a reply channel and a callback hands
      both the same answer, the reply first, and changes nothing. */
  lemma QueryReplyBeforeCallback<T>(m: Store<T>, c: Command<T>)
    requires c.hasReply
    ensures c.action == Get && c.hasGetCallback ==>
              Step(Running(m), c)
              == Transition(Running(m), [GetReply(Lookup(m, c.key)), GetCallback(Lookup(m, c.key))])
    ensures c.action == Length && c.hasLenCallback ==>
              Step(Running(m), c) == Transition(Running(m), [LenReply(|m|), LenCallback(|m|)])
  {
  }

  /** The asynchronous length query is sent tagged as a get, so the actor
      treats it as a get with neither reply channel nor get callback: its
      length callback is never invoked, nothing is emitted, nothing changes. */
  lemma AsyncLenNeverCallsBack<T>(m: Store<T>, k: string)
    ensures AsyncLenCommand<T>(k).action == Get
    ensures Step(Running(m), AsyncLenCommand(k)) == Transition(Running(m), [])
  {
  }

  /** Tagged `Length` as intended, the asynchronous length query hands its
      callback the number of keys and changes nothing. */
  lemma IntendedAsyncLenCallsBack<T>(m: Store<T>)
    ensures Step(Running(m), IntendedAsyncLenCommand()) == Transition(Running(m), [LenCallback(|m.Keys|)])
  {
  }

  /** As written, a snapshot answers the empty map and leaves the store as
      it is: on a store with any entry, the copy misses every one of them. */
  lemma SnapshotRepliesEmpty<T>(m: Store<T>)
    ensures Step(Running(m), SnapshotCommand()) == Transition(Running(m), [SnapshotReply(map[])])
    ensures var copy := Step(Running(m), SnapshotCommand()).events[0].copy;
            forall k :: k in m ==> Lookup(copy, k) != Lookup(m, k)
  {
  }

  /** As intended, a snapshot answers a map with exactly the store's bindings
      and leaves the store as it is. */
  lemma IntendedSnapshotCopiesStore<T>(m: Store<T>)
    ensures var t := IntendedStep(Running(m), SnapshotCommand());
            && t.next == Running(m)
            && |t.events| == 1 && t.events[0].SnapshotReply?
            && forall k :: Lookup(t.events[0].copy, k) == Lookup(m, k)
  {
  }

  /** The intended step differs from the source's only on snapshots: a
      history without a snapshot runs alike under both. */
  lemma {:induction false} IntendedRunAgreesWithoutSnapshots<T>(s: State<T>, cmds: seq<Command<T>>)
    requires forall i :: 0 <= i < |cmds| ==> cmds[i].action != Snapshot
    ensures Fold(IntendedStep, s, cmds) == Run(s, cmds)
    decreases |cmds|
  {
    if |cmds| > 0 {
      assert cmds == [cmds[0]] + cmds[1..];
      FoldCons(IntendedStep, s, cmds[0], cmds[1..]);
      RunCons(s, cmds[0], cmds[1..]);
      IntendedRunAgreesWithoutSnapshots(Step(s, cmds[0]).next, cmds[1..]);
    }
  }

  /** The updater of the session below: adds ten to a stored number. */
  function AddTen(v: Value<int>, exist: bool): Value<int>
  {
    if v.Box? then Box(v.payload + 10) else Box(10)
  }

  /** The writes of the session: `Put(a, x); Put(b, y); Update(a, +10)`. */
  function SessionWrites(a: string, b: string, x: int, y: int): seq<Command<int>>
  {
    [PutCommand(a, Box(x)), PutCommand(b, Box(y)), UpdateCommand(a, Some(AddTen))]
  }

  /** The queries of the session: `Get(a); Len(); Snapshot(); Close(); Get(a)`. */
  function SessionQueries(a: string): seq<Command<int>>
  {
    [GetCommand(a), LenCommand(), SnapshotCommand(), CloseCommand(), GetCommand(a)]
  }

  /** The store the session's writes leave behind, whatever it started with. */
  function SessionStore(m0: Store<int>, a: string, b: string, x: int, y: int): Store<int>
  {
    m0[b := Box(y)][a := Box(x + 10)]
  }

  lemma SessionWritesRun(m0: Store<int>, a: string, b: string, x: int, y: int)
    requires a != b
    ensures Run(Running(m0), SessionWrites(a, b, x, y))
            == Transition(Running(SessionStore(m0, a, b, x, y)), [UpdateReply(Box(x + 10))])
  {
    var m1 := m0[a := Box(x)];
    var m2 := m1[b := Box(y)];
    var update := UpdateCommand(a, Some(AddTen));
    UpdateStoresUpdaterResult(m2, a, AddTen);
    assert m2[a := Box(x + 10)] == SessionStore(m0, a, b, x, y);
    var afterUpdate := Transition(Running(SessionStore(m0, a, b, x, y)), [UpdateReply(Box(x + 10))]);
    RunSingle(Running(m2), update);
    RunThen(Running(m1), PutCommand(b, Box(y)), [update], Transition(Running(m2), []), afterUpdate);
    RunThen(Running(m0), PutCommand(a, Box(x)), [PutCommand(b, Box(y))] + [update],
            Transition(Running(m1), []), afterUpdate);
    assert SessionWrites(a, b, x, y) == [PutCommand(a, Box(x))] + ([PutCommand(b, Box(y))] + [update]);
  }

  /** The tail of the session's queries: snapshot, close, and a late get. */
  lemma SnapshotThenClose(m: Store<int>, a: string)
    ensures Run(Running(m), [SnapshotCommand(), CloseCommand(), GetCommand(a)])
            == Transition(Closed, [SnapshotReply(map[]), CloseReply(m), SendOnClosed])
  {
    var get := GetCommand<int>(a);
    CloseIsFinal(m, [get]);
    assert Rejections<int>(1) == [SendOnClosed];
    SnapshotRepliesEmpty(m);
    RunThen(Running(m), SnapshotCommand(), [CloseCommand<int>()] + [get],
            Transition(Running(m), [SnapshotReply(map[])]), Transition(Closed, [CloseReply(m), SendOnClosed]));
    assert [SnapshotCommand<int>()] + ([CloseCommand<int>()] + [get])
           == [SnapshotCommand(), CloseCommand(), get];
  }

  lemma SessionQueriesRun(m: Store<int>, a: string, v: Value<int>)
    requires a in m && m[a] == v
    ensures Run(Running(m), SessionQueries(a))
            == Transition(Closed, [GetReply(GetResult(v, true)), LenReply(|m|),
                                   SnapshotReply(map[]), CloseReply(m), SendOnClosed])
  {
    var get := GetCommand<int>(a);
    var tail := [SnapshotCommand<int>(), CloseCommand(), get];
    SnapshotThenClose(m, a);
    var u2 := Transition(Closed, [SnapshotReply(map[]), CloseReply(m), SendOnClosed]);
    assert Step(Running(m), LenCommand()) == Transition(Running(m), [LenReply(|m|)]);
    RunThen(Running(m), LenCommand(), tail, Transition(Running(m), [LenReply(|m|)]), u2);
    var u1 := Transition(Closed, [LenReply(|m|), SnapshotReply(map[]), CloseReply(m), SendOnClosed]);
    assert Step(Running(m), get) == Transition(Running(m), [GetReply(GetResult(v, true))]);
    RunThen(Running(m), get, [LenCommand()] + tail,
            Transition(Running(m), [GetReply(GetResult(v, true))]), u1);
    assert SessionQueries(a) == [get] + ([LenCommand()] + tail);
  }

  /** The session `Put(a, x); Put(b, y); Update(a, v => v + 10); Get(a); Len();
      Snapshot(); Close(); Get(a)` with two distinct keys: the update answers
      x + 10, the get (x + 10, true), the length the number of keys, the
      snapshot the empty map, close the store with a bound to x + 10 and b to
      y, and the get after the close fails. */
  lemma Session(m0: Store<int>, a: string, b: string, x: int, y: int)
    requires a != b
    ensures var final := SessionStore(m0, a, b, x, y);
            Run(Running(m0), SessionWrites(a, b, x, y) + SessionQueries(a))
            == Transition(Closed, [UpdateReply(Box(x + 10)), GetReply(GetResult(Box(x + 10), true)),
                                   LenReply(|final|), SnapshotReply(map[]),
                                   CloseReply(final), SendOnClosed])
  {
    var final := SessionStore(m0, a, b, x, y);
    var t := Transition(Running(final), [UpdateReply(Box(x + 10))]);
    var u := Transition(Closed, [GetReply(GetResult(Box(x + 10), true)), LenReply(|final|),
                                 SnapshotReply(map[]), CloseReply(final), SendOnClosed]);
    SessionWritesRun(m0, a, b, x, y);
    SessionQueriesRun(final, a, Box(x + 10));
    RunAppendKnown(Running(m0), SessionWrites(a, b, x, y), SessionQueries(a), t, u);
  }

  /** On a fresh map, `Put("a", 1); Put("b", 2); Update("a", +10); Get("a");
      Len(); Snapshot(); Close(); Get("a")` answers 11, (11, true), 2, the
      empty map, {"a": 11, "b": 2}, and a failed send. */
  lemma SessionOnFreshMap()
    ensures Run(New(), SessionWrites("a", "b", 1, 2) + SessionQueries("a"))
            == Transition(Closed, [UpdateReply(Box(11)), GetReply(GetResult(Box(11), true)),
                                   LenReply(2), SnapshotReply(map[]),
                                   CloseReply(map["a" := Box(11), "b" := Box(2)]), SendOnClosed])
  {
    Session(map[], "a", "b", 1, 2);
    assert SessionStore(map[], "a", "b", 1, 2) == map["a" := Box(11), "b" := Box(2)];
    assert SessionStore(map[], "a", "b", 1, 2).Keys == {"a", "b"};
  }
}
