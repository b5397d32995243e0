/**
 Client programs that drive the emitter classes through the scenarios the
 broadcaster is meant to support, using only the methods' contracts.
 */
module EmitterScenarios {
  import opened Wrappers
  import opened EmitterSpec
  import opened EventEmitter

  type Log = seq<Delivery<ObservationToken<string>, string>>

  /** A log that holds exactly the deliveries of a one- or zero-element set. */
  lemma LogOfSet(log: Log, deliveries: set<Delivery<ObservationToken<string>, string>>)
    requires |log| == |deliveries| <= 1
    requires forall d :: d in log <==> d in deliveries
    ensures deliveries == {} ==> log == []
    ensures forall d :: deliveries == {d} ==> log == [d]
  {
    if |log| == 1 {
      assert log[0] in deliveries;
    }
  }

  /** A broadcast to two distinct subscriptions calls both, once each. */
  lemma BroadcastToTwo(a: ObservationToken<string>, b: ObservationToken<string>, e: string)
    requires a != b
    ensures var all := Broadcast<ObservationToken<string>, string>(map[a := 1, b := 2], e);
      |all| == 2 && Delivery(a, 1, e) in all && Delivery(b, 2, e) in all
  {
    var m: map<ObservationToken<string>, ListenerId> := map[a := 1, b := 2];
    assert |m| == 2 by {
      assert m.Keys == {a} + {b};
    }
    BroadcastReachesExactlyListeners(m, e);
    BroadcastExactlyOnce(m, e);
  }

  /**
   Replay then broadcast: a late listener is replayed the latest event, and the
   next broadcast reaches both listeners once each.
   */
  method ReplayThenBroadcast() returns (t1: ObservationToken<string>, t2: ObservationToken<string>,
                                        onAttach1: Log, running: Log, onAttach2: Log, done: Log)
    ensures t1 != t2
    ensures onAttach1 == [Delivery(t1, 1, "idle")]
    ensures running == [Delivery(t1, 1, "running")]
    ensures onAttach2 == [Delivery(t2, 2, "running")]
    ensures |done| == 2 && Delivery(t1, 1, "done") in done && Delivery(t2, 2, "done") in done
  {
    var em := new Emitter<string>("idle");
    t1, onAttach1 := em.Attach(1);
    LogOfSet(onAttach1, {Delivery(t1, 1, "idle")});
    running := em.Emit("running", null);
    assert Broadcast<ObservationToken<string>, string>(map[t1 := 1], "running") == {Delivery(t1, 1, "running")};
    LogOfSet(running, {Delivery(t1, 1, "running")});
    t2, onAttach2 := em.Attach(2);
    LogOfSet(onAttach2, {Delivery(t2, 2, "running")});
    assert em.listeners == map[t1 := 1, t2 := 2];
    done := em.Emit("done", null);
    BroadcastToTwo(t1, t2, "done");
  }

  /** Without replay a new listener hears nothing until the next emit. */
  method NoReplay() returns (onAttach: Log, next: Log, t: ObservationToken<string>)
    ensures onAttach == []
    ensures next == [Delivery(t, 7, "next")]
  {
    var em := new Emitter<string>("idle", false);
    t, onAttach := em.Attach(7);
    LogOfSet(onAttach, {});
    next := em.Emit("next", null);
    assert Broadcast<ObservationToken<string>, string>(map[t := 7], "next") == {Delivery(t, 7, "next")};
    LogOfSet(next, {Delivery(t, 7, "next")});
  }

  /** A detached listener hears nothing, and removing twice runs the action once. */
  method DetachThenEmit() returns (afterRemove: Log, ghost removals: nat)
    ensures afterRemove == []
    ensures removals == 1
  {
    var em := new Emitter<string>("idle");
    var t, _ := em.Attach(1);
    t.Remove();
    t.Remove();
    removals := t.removals;
    afterRemove := em.Emit("x", null);
  }

  /** A directed emit reaches only the addressed listener. */
  method DirectedEmit() returns (t1: ObservationToken<string>, toFirst: Log)
    ensures toFirst == [Delivery(t1, 1, "y")]
  {
    var em := new Emitter<string>("idle");
    var replay1, t2, replay2;
    t1, replay1 := em.Attach(1);
    t2, replay2 := em.Attach(2);
    toFirst := em.Emit("y", t1);
  }

  /** Once a stream terminates, its internal listener is no longer reached. */
  method StreamThenTerminate() returns (token: ObservationToken<string>, before: Log, after: Log)
    ensures before == [Delivery(token, 5, "a")]
    ensures forall d :: d in after ==> d.key != token
  {
    var em := new Emitter<string>("idle", false);
    var stream, _ := em.Stream(5);
    token := stream.token;
    before := em.Emit("a", null);
    assert Broadcast<ObservationToken<string>, string>(map[token := 5], "a") == {Delivery(token, 5, "a")};
    LogOfSet(before, {Delivery(token, 5, "a")});
    stream.Terminate();
    after := em.Emit("b", null);
  }
}
