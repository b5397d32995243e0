/**
 The event broadcaster and its subscription token, as classes whose methods
 update their fields in place.

 An `Emitter` keeps the last emitted event, the map from subscription token
 to listener and the replay flag. The map is keyed by the token object itself,
 which is what `ObjectIdentifier(token)` identifies. A listener closure is an
 opaque `ListenerId`, and each call of a listener is returned to the caller
 as a `Delivery`. Every method is proved against the step functions of module
 `EmitterSpec`, and the properties of those functions are proved there.
 */
module EventEmitter {
  import opened Wrappers
  import opened EmitterSpec

  /**
   A subscription handle. `onRemove` is the stored removal action: when it is
   `Some(em)`, running it deletes this token's entry from `em`'s listener map.
   */
  class ObservationToken<E(==)> {
    var onRemove: Option<Emitter<E>>
    /** How many times the removal action has run. */
    ghost var removals: nat

    /** The action runs at most once, and not at all while it is still stored. */
    ghost predicate Valid()
      reads this
    {
      removals <= 1 && (onRemove.Some? ==> removals == 0)
    }

    /** A token starts with no removal action. */
    constructor ()
      ensures Valid() && onRemove == None && removals == 0
    {
      onRemove := None;
      removals := 0;
    }

    /**
     Runs the stored removal action if there is one, then clears it; a token
     whose action is already cleared does nothing.
     */
    method Remove()
      requires Valid()
      modifies this, if onRemove.Some? then {onRemove.value} else {}
      ensures Valid() && onRemove == None
      ensures removals == if old(onRemove).Some? then 1 else old(removals)
      ensures match old(onRemove)
        case None => true
        case Some(em) => em.State() == RemoveStep(old(em.State()), this)
    {
      if onRemove == None {
        return;
      }
      var em := onRemove.value;
      em.listeners := em.listeners - {this};
      removals := removals + 1;
      onRemove := None;
    }
  }

  /**
   Calls every listener of `snapshot` with `e`, one after the other, in an
   order the model leaves open.
   */
  method FanOut<K, E(==)>(snapshot: map<K, ListenerId>, e: E) returns (delivered: seq<Delivery<K, E>>)
    ensures |delivered| == |snapshot|
    ensures forall i, j :: 0 <= i < j < |delivered| ==> delivered[i] != delivered[j]
    ensures forall i :: 0 <= i < |delivered| ==> delivered[i] in Broadcast(snapshot, e)
    ensures forall d :: d in Broadcast(snapshot, e) ==> d in delivered
  {
    var pending := snapshot.Keys;
    delivered := [];
    while pending != {}
      invariant pending <= snapshot.Keys
      invariant |delivered| + |pending| == |snapshot|
      invariant forall i :: 0 <= i < |delivered| ==>
        delivered[i].key in snapshot.Keys - pending && delivered[i] == Delivery(delivered[i].key, snapshot[delivered[i].key], e)
      invariant forall i, j :: 0 <= i < j < |delivered| ==> delivered[i].key != delivered[j].key
      invariant forall k :: k in snapshot.Keys - pending ==> Delivery(k, snapshot[k], e) in delivered
      decreases pending
    {
      var k :| k in pending;
      delivered := delivered + [Delivery(k, snapshot[k], e)];
      pending := pending - {k};
    }
    BroadcastReachesExactlyListeners(snapshot, e);
  }

  class Emitter<E(==)> {
    var listeners: map<ObservationToken<E>, ListenerId>
    var lastEvent: E
    const emitsLastEventWhenAttaching: bool

    /** The emitter's abstract state, as module `EmitterSpec` describes it. */
    ghost function State(): EmitterState<ObservationToken<E>, E>
      reads this
    {
      EmitterState(lastEvent, listeners, emitsLastEventWhenAttaching)
    }

    /** Replay is on unless the caller turns it off. */
    constructor (initialEvent: E, emitsLastEventWhenAttaching: bool := true)
      ensures State() == Init(initialEvent, emitsLastEventWhenAttaching)
    {
      lastEvent := initialEvent;
      listeners := map[];
      this.emitsLastEventWhenAttaching := emitsLastEventWhenAttaching;
    }

    /**
     Registers `listener` under a fresh token whose removal action deletes it
     again, and replays the last event to it when the flag is set.
     */
    method Attach(listener: ListenerId) returns (token: ObservationToken<E>, delivered: seq<Delivery<ObservationToken<E>, E>>)
      modifies this
      ensures fresh(token) && token !in old(listeners)
      ensures token.Valid() && token.onRemove == Some(this) && token.removals == 0
      ensures State() == AttachStep(old(State()), token, listener).state
      ensures |delivered| == |AttachStep(old(State()), token, listener).deliveries|
      ensures forall d :: d in delivered <==> d in AttachStep(old(State()), token, listener).deliveries
    {
      token := new ObservationToken();
      token.onRemove := Some(this);
      listeners := listeners[token := listener];
      // The deferred replay runs after the listener is registered.
      if emitsLastEventWhenAttaching {
        delivered := [Delivery(token, listener, lastEvent)];
      } else {
        delivered := [];
      }
    }

    /**
     Retains `event`, then calls every listener of the map as it stood, or,
     given a token, only the listener registered under it.
     */
    method Emit(event: E, to: ObservationToken?<E>) returns (delivered: seq<Delivery<ObservationToken<E>, E>>)
      modifies this`lastEvent
      ensures State() == EmitStep(old(State()), event, Target(to)).state
      ensures |delivered| == |EmitStep(old(State()), event, Target(to)).deliveries|
      ensures forall i, j :: 0 <= i < j < |delivered| ==> delivered[i] != delivered[j]
      ensures forall d :: d in delivered <==> d in EmitStep(old(State()), event, Target(to)).deliveries
    {
      ghost var before := State();
      lastEvent := event;
      var snapshot: map<ObservationToken<E>, ListenerId> := listeners;
      if to != null {
        if to in snapshot {
          delivered := [Delivery(to, snapshot[to], event)];
        } else {
          delivered := [];
        }
      } else {
        delivered := FanOut(snapshot, event);
        BroadcastExactlyOnce(snapshot, event);
        assert EmitStep(before, event, None).deliveries == Broadcast(snapshot, event);
      }
    }

    /**
     The lazy sequence view: attaches a listener that forwards into the
     sequence (`sink`), and hands back the stream whose termination removes it.
     */
    method Stream(sink: ListenerId) returns (stream: EventStream<E>, delivered: seq<Delivery<ObservationToken<E>, E>>)
      modifies this
      ensures fresh(stream) && fresh(stream.token) && stream.token !in old(listeners)
      ensures stream.Valid() && stream.emitter == this && stream.token.onRemove == Some(this)
      ensures State() == AttachStep(old(State()), stream.token, sink).state
      ensures |delivered| == |AttachStep(old(State()), stream.token, sink).deliveries|
      ensures forall d :: d in delivered <==> d in AttachStep(old(State()), stream.token, sink).deliveries
    {
      var token;
      token, delivered := Attach(sink);
      stream := new EventStream(this, token);
    }
  }

  /** The key a directed emit looks up; no token means everyone. */
  function Target<E(==)>(to: ObservationToken?<E>): Option<ObservationToken<E>>
  {
    if to == null then None else Some(to)
  }

  /** A stream's subscription: the token its termination handler removes. */
  class EventStream<E(==)> {
    const emitter: Emitter<E>
    const token: ObservationToken<E>

    ghost predicate Valid()
      reads this, token
    {
      token.Valid() && (token.onRemove.Some? ==> token.onRemove.value == emitter)
    }

    constructor (emitter: Emitter<E>, token: ObservationToken<E>)
      requires token.Valid() && token.onRemove == Some(emitter)
      ensures this.emitter == emitter && this.token == token && Valid()
    {
      this.emitter := emitter;
      this.token := token;
    }

    /** The termination handler: removes the subscription, at most once. */
    method Terminate()
      requires Valid()
      modifies token, emitter
      ensures Valid() && token.onRemove == None && token.removals <= 1
      ensures old(token.onRemove).Some? ==> emitter.State() == RemoveStep(old(emitter.State()), token)
      ensures old(token.onRemove).None? ==> emitter.State() == old(emitter.State())
    {
      token.Remove();
    }
  }
}
