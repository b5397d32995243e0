/**
 The event broadcaster of the `_Helpers` package as a pure state machine.

 The emitter's state is the retained last event, the map from subscription key
 to listener and the replay-on-attach flag. Listener closures are replaced by
 opaque listener identities, and calling a listener becomes a `Delivery`
 record. Each operation is a function from a state to the next state and the
 deliveries it makes; `Run` folds a whole sequence of operations. The classes
 in module `EventEmitter` are proved against these functions.

 The key type `K` stands for the identity of a subscription token
 (`ObjectIdentifier(token)` in the source).
 */
module EmitterSpec {
  import opened Wrappers

  /** Identity of a listener closure; the closure itself is not modelled. */
  type ListenerId = nat

  /** One call of listener `listener`, registered under `key`, with `event`. */
  datatype Delivery<K, E> = Delivery(key: K, listener: ListenerId, event: E)

  datatype EmitterState<K, E> = EmitterState(
    lastEvent: E,
    listeners: map<K, ListenerId>,
    replay: bool  // `emitsLastEventWhenAttaching`, fixed at construction
  )

  /** The state after one operation and the listener calls it made. */
  datatype Step<K, E(==)> = Step(state: EmitterState<K, E>, deliveries: set<Delivery<K, E>>)

  /** The operations a caller can perform on an emitter. */
  datatype Op<K, E> =
    | AttachOp(key: K, listener: ListenerId)
    | RemoveOp(key: K)
    | EmitOp(event: E, to: Option<K>)

  /** The final state of a run and, per operation, the deliveries it made. */
  datatype Trace<K, E(==)> = Trace(state: EmitterState<K, E>, log: seq<set<Delivery<K, E>>>)

  /** A new emitter: no listeners, `event` retained. */
  function Init<K, E>(event: E, replay: bool): EmitterState<K, E>
  {
    EmitterState(event, map[], replay)
  }

  /** Every listener of `listeners` called once with `e`. */
  function Broadcast<K, E(==)>(listeners: map<K, ListenerId>, e: E): set<Delivery<K, E>>
  {
    set k | k in listeners :: Delivery(k, listeners[k], e)
  }

  /** Only the listener registered under `key`, if there is one, called with `e`. */
  function Directed<K, E(==)>(listeners: map<K, ListenerId>, key: K, e: E): set<Delivery<K, E>>
  {
    if key in listeners then {Delivery(key, listeners[key], e)} else {}
  }

  /** `attach`: register `listener` under `key`, then replay the last event if the flag says so. */
  function AttachStep<K, E(==)>(s: EmitterState<K, E>, key: K, listener: ListenerId): Step<K, E>
  {
    Step(s.(listeners := s.listeners[key := listener]),
         if s.replay then {Delivery(key, listener, s.lastEvent)} else {})
  }

  /** The removal action a token runs: delete its key from the map. */
  function RemoveStep<K, E>(s: EmitterState<K, E>, key: K): EmitterState<K, E>
  {
    s.(listeners := s.listeners - {key})
  }

  /** `emit(e, to:)`: retain `e`, then call everyone, or only the listener under `to`. */
  function EmitStep<K, E(==)>(s: EmitterState<K, E>, e: E, to: Option<K>): Step<K, E>
  {
    Step(s.(lastEvent := e),
         match to
         case None => Broadcast(s.listeners, e)
         case Some(key) => Directed(s.listeners, key, e))
  }

  function Apply<K, E(==)>(s: EmitterState<K, E>, op: Op<K, E>): Step<K, E>
  {
    match op
    case AttachOp(key, listener) => AttachStep(s, key, listener)
    case RemoveOp(key) => Step(RemoveStep(s, key), {})
    case EmitOp(e, to) => EmitStep(s, e, to)
  }

  function Run<K, E(==)>(s: EmitterState<K, E>, ops: seq<Op<K, E>>): Trace<K, E>
    decreases |ops|
  {
    if ops == [] then Trace(s, [])
    else
      var first := Apply(s, ops[0]);
      var rest := Run(first.state, ops[1..]);
      Trace(rest.state, [first.deliveries] + rest.log)
  }

  // ---------------------------------------------------------------------------
  // One operation at a time
  // ---------------------------------------------------------------------------

  /** `attach` under a key not yet in the map adds exactly that entry. */
  lemma AttachRegistersFresh<K, E>(s: EmitterState<K, E>, key: K, listener: ListenerId)
    requires key !in s.listeners
    ensures var t := AttachStep(s, key, listener).state;
      && key in t.listeners && t.listeners[key] == listener
      && t.listeners.Keys == s.listeners.Keys + {key}
      && (forall k :: k in s.listeners ==> t.listeners[k] == s.listeners[k])
      && |t.listeners| == |s.listeners| + 1
      && t.lastEvent == s.lastEvent && t.replay == s.replay
  {
    var t := AttachStep(s, key, listener).state;
    assert t.listeners.Keys == s.listeners.Keys + {key};
  }

  /** Replay on attach: exactly the current last event to the new listener, or nothing. */
  lemma AttachReplay<K, E>(s: EmitterState<K, E>, key: K, listener: ListenerId)
    ensures var d := AttachStep(s, key, listener).deliveries;
      && |d| == (if s.replay then 1 else 0)
      && forall x :: x in d ==> x == Delivery(key, listener, s.lastEvent)
  {
  }

  /** Removal deletes exactly `key`; every other entry stays. */
  lemma RemoveDeletesOnlyKey<K, E>(s: EmitterState<K, E>, key: K)
    ensures var t := RemoveStep(s, key);
      && key !in t.listeners
      && t.listeners.Keys == s.listeners.Keys - {key}
      && (forall k :: k in t.listeners ==> t.listeners[k] == s.listeners[k])
      && t.lastEvent == s.lastEvent && t.replay == s.replay
  {
  }

  /** Removing an absent key changes nothing, so removing twice is removing once. */
  lemma RemoveIdempotent<K, E>(s: EmitterState<K, E>, key: K)
    ensures key !in s.listeners ==> RemoveStep(s, key) == s
    ensures RemoveStep(RemoveStep(s, key), key) == RemoveStep(s, key)
  {
    if key !in s.listeners {
      assert s.listeners - {key} == s.listeners;
    }
    assert s.listeners - {key} - {key} == s.listeners - {key};
  }

  /** A broadcast calls each listener of the map with the event, and nobody else. */
  lemma BroadcastReachesExactlyListeners<K, E>(listeners: map<K, ListenerId>, e: E)
    ensures forall d :: d in Broadcast(listeners, e) <==>
      d.key in listeners && d.listener == listeners[d.key] && d.event == e
  {
  }

  /** Splitting one entry off the map splits one delivery off the broadcast. */
  lemma BroadcastSplit<K, E>(listeners: map<K, ListenerId>, k: K, e: E)
    requires k in listeners
    ensures Delivery(k, listeners[k], e) !in Broadcast(listeners - {k}, e)
    ensures Broadcast(listeners, e) == Broadcast(listeners - {k}, e) + {Delivery(k, listeners[k], e)}
  {
    BroadcastReachesExactlyListeners(listeners, e);
    BroadcastReachesExactlyListeners(listeners - {k}, e);
  }

  /** A broadcast calls each listener once: one delivery per map entry. */
  lemma {:induction false} BroadcastExactlyOnce<K, E>(listeners: map<K, ListenerId>, e: E)
    ensures |Broadcast(listeners, e)| == |listeners|
    decreases |listeners|
  {
    if listeners == map[] {
      assert Broadcast(listeners, e) == {};
    } else {
      var k :| k in listeners;
      var rest := listeners - {k};
      assert |listeners| == |rest| + 1 by {
        assert listeners.Keys == rest.Keys + {k};
      }
      BroadcastExactlyOnce(rest, e);
      BroadcastSplit(listeners, k, e);
    }
  }

  /** A directed emit reaches at most the one listener under `key`, none if it is gone. */
  lemma DirectedOnlyToKey<K, E>(listeners: map<K, ListenerId>, key: K, e: E)
    ensures Directed(listeners, key, e) <= Broadcast(listeners, e)
    ensures forall d :: d in Directed(listeners, key, e) ==> d.key == key
    ensures |Directed(listeners, key, e)| == (if key in listeners then 1 else 0)
  {
  }

  /** `emit` retains the event and never touches the listener map or the flag. */
  lemma EmitRetainsEvent<K, E>(s: EmitterState<K, E>, e: E, to: Option<K>)
    ensures EmitStep(s, e, to).state == EmitterState(e, s.listeners, s.replay)
    ensures forall d :: d in EmitStep(s, e, to).deliveries ==> d.event == e && d.key in s.listeners
  {
  }

  // ---------------------------------------------------------------------------
  // Runs of operations
  // ---------------------------------------------------------------------------

  lemma {:induction false} RunLogLength<K, E>(s: EmitterState<K, E>, ops: seq<Op<K, E>>)
    ensures |Run(s, ops).log| == |ops|
    decreases |ops|
  {
    if ops != [] {
      RunLogLength(Apply(s, ops[0]).state, ops[1..]);
    }
  }

  /** Running `a` then `b` is running `a + b`. */
  lemma {:induction false} RunAppend<K, E>(s: EmitterState<K, E>, a: seq<Op<K, E>>, b: seq<Op<K, E>>)
    ensures var ra := Run(s, a); var rb := Run(ra.state, b);
      Run(s, a + b) == Trace(rb.state, ra.log + rb.log)
    decreases |a|
  {
    if a == [] {
      assert a + b == b;
    } else {
      assert (a + b)[0] == a[0];
      assert (a + b)[1..] == a[1..] + b;
      RunAppend(Apply(s, a[0]).state, a[1..], b);
    }
  }

  /** The replay flag is fixed at construction. */
  lemma {:induction false} RunKeepsReplay<K, E>(s: EmitterState<K, E>, ops: seq<Op<K, E>>)
    ensures Run(s, ops).state.replay == s.replay
    decreases |ops|
  {
    if ops != [] {
      RunKeepsReplay(Apply(s, ops[0]).state, ops[1..]);
    }
  }

  /** No operation of `ops` attaches under `key`. */
  ghost predicate NeverAttaches<K, E>(ops: seq<Op<K, E>>, key: K)
  {
    forall i :: 0 <= i < |ops| ==> !(ops[i].AttachOp? && ops[i].key == key)
  }

  /**
   A key that is not registered, and that no later `attach` reuses, stays
   unregistered and receives nothing, however the run goes on.
   */
  lemma {:induction false} AbsentKeyStaysSilent<K, E>(s: EmitterState<K, E>, ops: seq<Op<K, E>>, key: K)
    requires key !in s.listeners
    requires NeverAttaches(ops, key)
    ensures key !in Run(s, ops).state.listeners
    ensures forall i, d :: 0 <= i < |Run(s, ops).log| && d in Run(s, ops).log[i] ==> d.key != key
    decreases |ops|
  {
    if ops != [] {
      var first := Apply(s, ops[0]);
      assert !(ops[0].AttachOp? && ops[0].key == key);
      assert key !in first.state.listeners;
      assert forall d :: d in first.deliveries ==> d.key != key;
      assert NeverAttaches(ops[1..], key) by {
        forall i | 0 <= i < |ops[1..]| ensures !(ops[1..][i].AttachOp? && ops[1..][i].key == key) {
          assert ops[1..][i] == ops[i + 1];
        }
      }
      AbsentKeyStaysSilent(first.state, ops[1..], key);
      var log := Run(s, ops).log;
      assert log == [first.deliveries] + Run(first.state, ops[1..]).log;
      forall i, d: Delivery<K, E> | 0 <= i < |log| && d in log[i] ensures d.key != key {
        if i > 0 {
          assert log[i] == Run(first.state, ops[1..]).log[i - 1];
        }
      }
    }
  }

  /**
   Post-removal silence: after a token's key is removed, no later operation
   delivers to it (keys are never reused by `attach`).
   */
  lemma RemovedKeyIsSilent<K, E>(s: EmitterState<K, E>, key: K, ops: seq<Op<K, E>>)
    requires NeverAttaches(ops, key)
    ensures var log := Run(s, [RemoveOp(key)] + ops).log;
      forall i, d :: 1 <= i < |log| && d in log[i] ==> d.key != key
  {
    RunAppend(s, [RemoveOp(key)], ops);
    var t := RemoveStep(s, key);
    assert Run(s, [RemoveOp(key)]) == Trace(t, [{}]);
    AbsentKeyStaysSilent(t, ops, key);
  }

  /**
   Last-event retention: after any run ending in `emit(e)`, a listener attached
   next is replayed `e` (when the flag is set) and nothing else.
   */
  lemma LastEventReplayed<K, E>(s: EmitterState<K, E>, ops: seq<Op<K, E>>, e: E, to: Option<K>, key: K, listener: ListenerId)
    ensures var log := Run(s, ops + [EmitOp(e, to), AttachOp(key, listener)]).log;
      && |log| == |ops| + 2
      && log[|ops| + 1] == (if s.replay then {Delivery(key, listener, e)} else {})
  {
    var tail: seq<Op<K, E>> := [EmitOp(e, to), AttachOp(key, listener)];
    RunAppend(s, ops, tail);
    RunLogLength(s, ops);
    RunKeepsReplay(s, ops);
    var mid := Run(s, ops).state;
    var afterEmit := EmitStep(mid, e, to).state;
    var afterAttach := AttachStep(afterEmit, key, listener);
    assert tail[1..] == [AttachOp(key, listener)];
    assert Run(afterEmit, tail[1..]) == Trace(afterAttach.state, [afterAttach.deliveries]);
    assert Run(mid, tail).log == [EmitStep(mid, e, to).deliveries, afterAttach.deliveries];
  }
}
