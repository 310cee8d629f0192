/** The command protocol of the map's actor and the step it takes per command.

    The actor owns the store and consumes `command` records one at a time in
    arrival order. With the goroutine and the channel taken away, what the
    actor does with one command is a pure function from the current state
    and the command to the next state and the list of observable effects
    (replies on the command's reply channel and callback invocations). */
module SafeMap {
  import opened Values

  /** The command tags, in the order the source numbers them. */
  datatype Action = Remove | Get | Put | Length | Snapshot | Update | End

  /** Computes the value to store from the entry's current value and whether
      the entry exists. The model takes it to be pure. */
  type Updater<!T> = (Value<T>, bool) -> Value<T>

  /** One `command` record. The actor does nothing with the reply channel or
      a callback except test it against nil and use it, so each is modelled by
      whether it is present; using it is an `Event`. */
  datatype Command<!T> = Command(
    action: Action,
    key: string,
    value: Value<T>,
    hasReply: bool,
    hasGetCallback: bool,
    hasLenCallback: bool,
    hasUpdateCallback: bool,
    updater: Option<Updater<T>>)

  /** What one command makes observable, in the order it happens. */
  datatype Event<T> =
    | GetReply(result: GetResult<T>)
    | GetCallback(result: GetResult<T>)
    | LenReply(count: nat)
    | LenCallback(count: nat)
    | UpdateReply(stored: Value<T>)
    | UpdateCallback(stored: Value<T>)
    | SnapshotReply(copy: Store<T>)
    | CloseReply(contents: Store<T>)
      /** A command sent after the channel was closed: the send fails. */
    | SendOnClosed

  /** `Running` owns the store. `Closed` follows an `End` command: the
      channel is closed and the store handed to the caller. `Halted` is an
      actor that will never take another command: it is blocked forever on a
      send to a nil reply channel, or it panicked calling a nil updater. */
  datatype State<T> = Running(store: Store<T>) | Closed | Halted

  datatype Transition<T> = Transition(next: State<T>, events: seq<Event<T>>)

  /** The map a fresh actor starts with. */
  function New<T>(): State<T>
  {
    Running(map[])
  }

  /** The commands that stop a running actor for good without closing it:
      a snapshot with no reply channel and an update with no updater. */
  predicate Halts<T>(c: Command<T>)
  {
    || (c.action == Snapshot && !c.hasReply)
    || (c.action == Update && c.updater.None?)
  }

  /** Commands that neither change the store nor end the actor. */
  predicate IsQuery<T>(c: Command<T>)
  {
    c.action == Get || c.action == Length || c.action == Snapshot
  }

  /** An effect that happens only when its channel or callback is present. */
  function When<T>(present: bool, e: Event<T>): seq<Event<T>>
  {
    if present then [e] else []
  }

  /** The actor's dispatch on one command. */
  function Step<T>(s: State<T>, c: Command<T>): (t: Transition<T>)
    ensures t.next.Closed? <==> s.Closed? || (s.Running? && c.action == End)
    ensures t.next.Halted? <==> s.Halted? || (s.Running? && Halts(c))
    ensures s.Closed? ==> t.events == [SendOnClosed]
    ensures s.Halted? ==> t.events == []
    ensures t.next.Running? ==>
              forall k :: k != c.key ==> Lookup(t.next.store, k) == Lookup(s.store, k)
    ensures t.next.Running? && IsQuery(c) ==> t.next == s
    ensures |t.events| <= 2
    ensures s.Running? && c.action == Snapshot && c.hasReply ==> t.events == [SnapshotReply(map[])]
  {
    match s
    case Closed => Transition(Closed, [SendOnClosed])
    case Halted => Transition(Halted, [])
    case Running(m) => Dispatch(m, c)
  }

  /** The `run` switch on a running actor's store. */
  function Dispatch<T>(m: Store<T>, c: Command<T>): Transition<T>
  {
    match c.action
    case Remove =>
      Transition(Running(m - {c.key}), [])
    case Put =>
      Transition(Running(m[c.key := c.value]), [])
    case Get =>
      var r := Lookup(m, c.key);
      Transition(Running(m), When(c.hasReply, GetReply(r)) + When(c.hasGetCallback, GetCallback(r)))
    case Length =>
      Transition(Running(m), When(c.hasReply, LenReply(|m|)) + When(c.hasLenCallback, LenCallback(|m|)))
    case Update =>
      if c.updater.None? then Transition(Halted, [])
      else
        var r := Lookup(m, c.key);
        var m' := m[c.key := c.updater.value(r.value, r.exist)];
        Transition(Running(m'),
                   When(c.hasReply, UpdateReply(m'[c.key]))
                   + When(c.hasUpdateCallback, UpdateCallback(m'[c.key])))
    case Snapshot =>
      // The copy is made into a fresh empty map whose decoding always fails
      // (the decoder is handed the map rather than a pointer to it) and the
      // error is dropped, so the reply is that empty map.
      if c.hasReply then Transition(Running(m), [SnapshotReply(map[])])
      else Transition(Halted, [])
    case End =>
      Transition(Closed, When(c.hasReply, CloseReply(m)))
  }

  // The commands the public methods send. Fields a method does not set keep
  // Go's zero value: the empty key, the nil value, no channel, no callback.

  function Blank<T>(action: Action, key: string): Command<T>
  {
    Command(action, key, Nil, false, false, false, false, None)
  }

  function PutCommand<T>(key: string, value: Value<T>): Command<T>
  {
    Blank(Put, key).(value := value)
  }

  function RemoveCommand<T>(key: string): Command<T>
  {
    Blank(Remove, key)
  }

  function GetCommand<T>(key: string): Command<T>
  {
    Blank(Get, key).(hasReply := true)
  }

  function LenCommand<T>(): Command<T>
  {
    Blank(Length, "").(hasReply := true)
  }

  function CloseCommand<T>(): Command<T>
  {
    Blank(End, "").(hasReply := true)
  }

  /** `f` is `None` when the caller passes a nil updater. */
  function UpdateCommand<T>(key: string, f: Option<Updater<T>>): Command<T>
  {
    Blank(Update, key).(hasReply := true, updater := f)
  }

  function SnapshotCommand<T>(): Command<T>
  {
    Blank(Snapshot, "").(hasReply := true)
  }

  function AsyncGetCommand<T>(key: string): Command<T>
  {
    Blank(Get, key).(hasGetCallback := true)
  }

  /** Tagged `Get`, not `Length`, exactly as the source builds it. */
  function AsyncLenCommand<T>(key: string): Command<T>
  {
    Blank(Get, key).(hasLenCallback := true)
  }

  /** The asynchronous length query as evidently intended: tagged `Length`,
      with no key, since a length query names none. */
  function IntendedAsyncLenCommand<T>(): Command<T>
  {
    Blank(Length, "").(hasLenCallback := true)
  }

  function AsyncUpdateCommand<T>(key: string, f: Option<Updater<T>>): Command<T>
  {
    Blank(Update, key).(updater := f, hasUpdateCallback := true)
  }

  /** The step as evidently intended: a snapshot replies a copy of the store
      made by `DeepCopy`; every other command is stepped as the source does. */
  function IntendedStep<T>(s: State<T>, c: Command<T>): Transition<T>
  {
    if s.Running? && c.action == Snapshot && c.hasReply
    then Transition(s, [SnapshotReply(DeepCopy(s.store))])
    else Step(s, c)
  }
}
