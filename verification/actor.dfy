/** The actor's loop: commands are consumed in arrival order, so the whole
    history is the step function folded over the sequence of commands. */
module Actor {
  import opened Values
  import opened SafeMap

  /** One step of an actor: the next state and the effects of one command. */
  type Stepper<!T> = (State<T>, Command<T>) -> Transition<T>

  /** The commands of `cmds` taken one at a time, in order, by `step`. */
  function Fold<T>(step: Stepper<T>, s: State<T>, cmds: seq<Command<T>>): Transition<T>
    decreases |cmds|
  {
    if |cmds| == 0 then Transition(s, [])
    else
      var first := step(s, cmds[0]);
      var rest := Fold(step, first.next, cmds[1..]);
      Transition(rest.next, first.events + rest.events)
  }

  /** Folding a command followed by more is stepping it, then folding the rest. */
  lemma FoldCons<T>(step: Stepper<T>, s: State<T>, c: Command<T>, rest: seq<Command<T>>)
    ensures Fold(step, s, [c] + rest)
            == Transition(Fold(step, step(s, c).next, rest).next,
                          step(s, c).events + Fold(step, step(s, c).next, rest).events)
  {
    assert ([c] + rest)[0] == c;
    assert ([c] + rest)[1..] == rest;
  }

  /** Folding the concatenation of two command sequences is folding the
      first, then the second from where the first left off. */
  lemma {:induction false} FoldAppend<T>(step: Stepper<T>, s: State<T>, a: seq<Command<T>>, b: seq<Command<T>>)
    ensures Fold(step, s, a + b)
            == Transition(Fold(step, Fold(step, s, a).next, b).next,
                          Fold(step, s, a).events + Fold(step, Fold(step, s, a).next, b).events)
    decreases |a|
  {
    if |a| == 0 {
      assert a + b == b;
    } else {
      var first := step(s, a[0]);
      assert (a + b)[0] == a[0];
      assert (a + b)[1..] == a[1..] + b;
      FoldAppend(step, first.next, a[1..], b);
      var mid := Fold(step, first.next, a[1..]);
      var tail := Fold(step, mid.next, b);
      assert first.events + (mid.events + tail.events) == (first.events + mid.events) + tail.events;
    }
  }

  /** The state reached and the events emitted after the commands of `cmds`
      arrive, in order, at an actor in state `s`. */
  function Run<T>(s: State<T>, cmds: seq<Command<T>>): Transition<T>
  {
    Fold(Step, s, cmds)
  }

  /** Running a command followed by more is stepping it, then running the rest. */
  lemma RunCons<T>(s: State<T>, c: Command<T>, rest: seq<Command<T>>)
    ensures Run(s, [c] + rest)
            == Transition(Run(Step(s, c).next, rest).next,
                          Step(s, c).events + Run(Step(s, c).next, rest).events)
  {
    FoldCons(Step, s, c, rest);
  }

  /** A run whose first step and remaining run are already known. */
  lemma RunThen<T>(s: State<T>, c: Command<T>, rest: seq<Command<T>>, t: Transition<T>, u: Transition<T>)
    requires Step(s, c) == t
    requires Run(t.next, rest) == u
    ensures Run(s, [c] + rest) == Transition(u.next, t.events + u.events)
  {
    RunCons(s, c, rest);
  }

  /** Running a single command is stepping it. */
  lemma RunSingle<T>(s: State<T>, c: Command<T>)
    ensures Run(s, [c]) == Step(s, c)
  {
    FoldCons(Step, s, c, []);
    assert [c] + [] == [c];
    assert Step(s, c).events + [] == Step(s, c).events;
  }

  /** Commands are consumed in order: running `a + b` is running `a`, then
      `b` from the state `a` left, with the events one after the other. */
  lemma RunAppend<T>(s: State<T>, a: seq<Command<T>>, b: seq<Command<T>>)
    ensures Run(s, a + b)
            == Transition(Run(Run(s, a).next, b).next,
                          Run(s, a).events + Run(Run(s, a).next, b).events)
  {
    FoldAppend(Step, s, a, b);
  }

  /** A run of `a + b` whose two parts are already known. */
  lemma RunAppendKnown<T>(s: State<T>, a: seq<Command<T>>, b: seq<Command<T>>, t: Transition<T>, u: Transition<T>)
    requires Run(s, a) == t
    requires Run(t.next, b) == u
    ensures Run(s, a + b) == Transition(u.next, t.events + u.events)
  {
    RunAppend(s, a, b);
  }

  /** `n` failed sends, one per command that arrives after the close. */
  function Rejections<T>(n: nat): (r: seq<Event<T>>)
    ensures |r| == n
    ensures forall i :: 0 <= i < n ==> r[i] == SendOnClosed
  {
    if n == 0 then [] else [SendOnClosed] + Rejections(n - 1)
  }

  /** After the close, every command sent fails and nothing changes. */
  lemma {:induction false} ClosedAbsorbs<T>(cmds: seq<Command<T>>)
    ensures Run(Closed, cmds) == Transition(Closed, Rejections(|cmds|))
    decreases |cmds|
  {
    if |cmds| > 0 {
      assert cmds == [cmds[0]] + cmds[1..];
      RunCons(Closed, cmds[0], cmds[1..]);
      ClosedAbsorbs(cmds[1..]);
    }
  }

  /** A halted actor takes no further command and produces nothing. */
  lemma {:induction false} HaltedAbsorbs<T>(cmds: seq<Command<T>>)
    ensures Run(Halted, cmds) == Transition(Halted, [])
    decreases |cmds|
  {
    if |cmds| > 0 {
      assert cmds == [cmds[0]] + cmds[1..];
      RunCons(Halted, cmds[0], cmds[1..]);
      HaltedAbsorbs(cmds[1..]);
    }
  }

  /** An actor that is not running stays in its state; so an actor running
      after a history was running before it. */
  lemma StoppedStaysStopped<T>(s: State<T>, cmds: seq<Command<T>>)
    ensures !s.Running? ==> Run(s, cmds).next == s
    ensures Run(s, cmds).next.Running? ==> s.Running?
  {
    if s.Closed? {
      ClosedAbsorbs(cmds);
    } else if s.Halted? {
      HaltedAbsorbs(cmds);
    }
  }

  /** Each command has at most two effects: a reply and a callback. */
  lemma {:induction false} RunEventBound<T>(s: State<T>, cmds: seq<Command<T>>)
    ensures |Run(s, cmds).events| <= 2 * |cmds|
    decreases |cmds|
  {
    if |cmds| > 0 {
      assert cmds == [cmds[0]] + cmds[1..];
      RunCons(s, cmds[0], cmds[1..]);
      RunEventBound(Step(s, cmds[0]).next, cmds[1..]);
    }
  }

  /** The keys the commands of `cmds` name. */
  function KeysOf<T>(cmds: seq<Command<T>>): set<string>
  {
    set i | 0 <= i < |cmds| :: cmds[i].key
  }

  /** A key that no command names keeps its binding through the whole run. */
  lemma {:induction false} RunKeepsUnnamedKeys<T>(s: State<T>, cmds: seq<Command<T>>, k: string)
    requires k !in KeysOf(cmds)
    ensures Run(s, cmds).next.Running? ==>
              s.Running? && Lookup(Run(s, cmds).next.store, k) == Lookup(s.store, k)
    decreases |cmds|
  {
    if |cmds| > 0 {
      var first := Step(s, cmds[0]);
      assert cmds[0].key in KeysOf(cmds);
      forall i | 0 <= i < |cmds[1..]|
        ensures cmds[1..][i].key != k
      {
        assert cmds[1..][i] == cmds[i + 1];
      }
      assert cmds == [cmds[0]] + cmds[1..];
      RunCons(s, cmds[0], cmds[1..]);
      RunKeepsUnnamedKeys(first.next, cmds[1..], k);
    }
  }

  /** One `Close` on a running actor. */
  lemma CloseStep<T>(m: Store<T>)
    ensures Step(Running(m), CloseCommand()) == Transition(Closed, [CloseReply(m)])
  {
  }

  /** `Close` hands the caller the live store; afterwards the map is closed
      for good and every later command fails. */
  lemma CloseIsFinal<T>(m: Store<T>, rest: seq<Command<T>>)
    ensures Run(Running(m), [CloseCommand()] + rest)
            == Transition(Closed, [CloseReply(m)] + Rejections(|rest|))
  {
    var close := Transition(Closed, [CloseReply(m)]);
    CloseStep(m);
    ClosedAbsorbs(rest);
    RunThen(Running(m), CloseCommand(), rest, close, Transition(Closed, Rejections(|rest|)));
  }

  /** Queries (gets, lengths, snapshots) never change the store, however
      many of them run in a row. */
  lemma {:induction false} QueriesPreserveStore<T>(m: Store<T>, cmds: seq<Command<T>>)
    requires forall i :: 0 <= i < |cmds| ==> IsQuery(cmds[i]) && !Halts(cmds[i])
    ensures Run(Running(m), cmds).next == Running(m)
    decreases |cmds|
  {
    if |cmds| > 0 {
      assert cmds == [cmds[0]] + cmds[1..];
      RunCons(Running(m), cmds[0], cmds[1..]);
      QueriesPreserveStore(m, cmds[1..]);
    }
  }

  /** The binding of one key after one command, seen from that key alone. */
  function EntryAfter<T>(k: string, g: GetResult<T>, c: Command<T>): GetResult<T>
  {
    if c.key != k then g
    else if c.action == Put then GetResult(c.value, true)
    else if c.action == Remove then GetResult(Nil, false)
    else if c.action == Update && c.updater.Some? then GetResult(c.updater.value(g.value, g.exist), true)
    else g
  }

  /** The binding of key `k` after `cmds`, computed from the commands on `k`
      only, without the rest of the store. */
  function KeyHistory<T>(k: string, g: GetResult<T>, cmds: seq<Command<T>>): GetResult<T>
    decreases |cmds|
  {
    if |cmds| == 0 then g else KeyHistory(k, EntryAfter(k, g, cmds[0]), cmds[1..])
  }

  /** Each key evolves on its own: while the actor keeps running, the lookup
      of `k` after a whole command history equals the per-key history of the
      commands that name `k`. */
  lemma {:induction false} RunAgreesWithKeyHistory<T>(m: Store<T>, k: string, cmds: seq<Command<T>>)
    requires forall i :: 0 <= i < |cmds| ==> cmds[i].action != End && !Halts(cmds[i])
    ensures Run(Running(m), cmds).next.Running?
    ensures Lookup(Run(Running(m), cmds).next.store, k) == KeyHistory(k, Lookup(m, k), cmds)
    decreases |cmds|
  {
    if |cmds| > 0 {
      var t := Step(Running(m), cmds[0]);
      assert Lookup(t.next.store, k) == EntryAfter(k, Lookup(m, k), cmds[0]);
      assert cmds == [cmds[0]] + cmds[1..];
      RunCons(Running(m), cmds[0], cmds[1..]);
      RunAgreesWithKeyHistory(t.next.store, k, cmds[1..]);
    }
  }

  /** The actor's loop over a finite arrival order, starting from a fresh map.
      The loop stops once the channel is closed or the actor is halted; the
      commands still to arrive then fail on the closed channel, or are never
      taken by the halted actor. */
  method Serve<T>(cmds: seq<Command<T>>) returns (final: State<T>, out: seq<Event<T>>)
    ensures Transition(final, out) == Run(New(), cmds)
    ensures final.Running? ==> forall k :: k !in KeysOf(cmds) ==> k !in final.store
  {
    final := New();
    out := [];
    var i := 0;
    while i < |cmds| && final.Running?
      invariant 0 <= i <= |cmds|
      invariant Run(New(), cmds)
                == Transition(Run(final, cmds[i..]).next, out + Run(final, cmds[i..]).events)
    {
      assert cmds[i..] == [cmds[i]] + cmds[i + 1..];
      RunCons(final, cmds[i], cmds[i + 1..]);
      final, out := Step(final, cmds[i]).next, out + Step(final, cmds[i]).events;
      i := i + 1;
    }
    if final.Closed? {
      ClosedAbsorbs(cmds[i..]);
      out := out + Rejections(|cmds| - i);
    } else if final.Halted? {
      HaltedAbsorbs(cmds[i..]);
    } else {
      assert cmds[i..] == [];
      assert out + [] == out;
    }
    forall k | k !in KeysOf(cmds)
      ensures Run(New(), cmds).next.Running? ==> k !in Run(New(), cmds).next.store
    {
      RunKeepsUnnamedKeys(New(), cmds, k);
    }
  }
}
