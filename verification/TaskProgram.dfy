/**
 * The life of a connection's task as a grammar over its shared accesses, read off the source from top
 * to bottom: the task's transition system accepts exactly these sequences, so it neither skips nor
 * reorders an access, and it can always run on to its end.
 */
module TaskProgram {
  import opened Admission
  import Common

  /** Running `acts` takes the task to its end. */
  predicate Completes(t: Task, acts: seq<TaskAct>)
    decreases acts
  {
    if acts == [] then t.at.Finished? else TaskEnabled(t, acts[0]) && Completes(Moved(t, acts[0]), acts[1..])
  }

  predicate Then(acts: seq<TaskAct>, act: TaskAct) {
    acts != [] && acts[0] == act
  }

  /** Both slots are dropped, the per-IP one first, and a connection is uncounted before its permit returns. */
  predicate Exit(acts: seq<TaskAct>) {
    acts == [DropIpSlot, UncountTask, DropPermit]
  }

  /** The guard is dropped: gauge down, then completion up. */
  predicate Leave(acts: seq<TaskAct>) {
    |acts| >= 2 && acts[0] == LowerGauge && acts[1] == CountCompleted && Exit(acts[2..])
  }

  /** Nothing is counted any more until the guard is dropped, by returning or by unwinding. */
  predicate Relay(acts: seq<TaskAct>) {
    Leave(acts) || (Then(acts, Panic) && Leave(acts[1..]))
  }

  /** The negotiated protocol is counted once. */
  predicate Negotiated(acts: seq<TaskAct>) {
    || (Then(acts, Panic) && Leave(acts[1..]))
    || (acts != [] && acts[0].ReadAlpn? && !acts[0].alpn.Unread? && Relay(acts[1..]))
  }

  /** The fallback's handshake fails, after which nothing is negotiated, or succeeds. */
  predicate Serve(acts: seq<TaskAct>) {
    || (Then(acts, Panic) && Leave(acts[1..]))
    || (Then(acts, FinishHandshake(false)) && Relay(acts[1..]))
    || (Then(acts, FinishHandshake(true)) && Negotiated(acts[1..]))
  }

  /** One route is begun, total before gauge; a connection without a name is never proxied. */
  predicate Decide(acts: seq<TaskAct>, present: bool) {
    || (Then(acts, Panic) && Exit(acts[1..]))
    || (|acts| >= 2 && acts[0] == BeginRoute(Proxied) && present && acts[1] == RaiseGauge && Relay(acts[2..]))
    || (|acts| >= 2 && acts[0] == BeginRoute(Fallback) && acts[1] == RaiseGauge && Serve(acts[2..]))
  }

  /** The ClientHello fails to arrive, times out, or is classified. */
  predicate Probe(acts: seq<TaskAct>) {
    || (Then(acts, Panic) && Exit(acts[1..]))
    || (Then(acts, FailProbe) && Exit(acts[1..]))
    || (Then(acts, TimeOutProbe) && Exit(acts[1..]))
    || (acts != [] && acts[0].ReadSni? && Decide(acts[1..], acts[0].present))
  }

  predicate Life(acts: seq<TaskAct>) {
    || (Then(acts, Panic) && Exit(acts[1..]))
    || (Then(acts, Snapshot) && Probe(acts[1..]))
  }

  lemma FinishedEnds(t: Task, acts: seq<TaskAct>)
    requires t.at.Finished?
    ensures Completes(t, acts) <==> acts == []
  {}

  lemma UncountedEnds(t: Task, acts: seq<TaskAct>)
    requires t.at.Uncounted?
    ensures Completes(t, acts) <==> acts == [DropPermit]
  {
    if Then(acts, DropPermit) {
      FinishedEnds(Moved(t, DropPermit), acts[1..]);
    }
  }

  lemma IpSlotDroppedEnds(t: Task, acts: seq<TaskAct>)
    requires t.at.IpSlotDropped?
    ensures Completes(t, acts) <==> acts == [UncountTask, DropPermit]
  {
    if Then(acts, UncountTask) {
      UncountedEnds(Moved(t, UncountTask), acts[1..]);
      assert acts == [UncountTask] + acts[1..];
    }
  }

  lemma RoutedExits(t: Task, acts: seq<TaskAct>)
    requires t.at.Routed?
    ensures Completes(t, acts) <==> Exit(acts)
  {
    if Then(acts, DropIpSlot) {
      IpSlotDroppedEnds(Moved(t, DropIpSlot), acts[1..]);
      assert acts == [DropIpSlot] + acts[1..];
    }
  }

  lemma GaugeLoweredExits(t: Task, acts: seq<TaskAct>)
    requires t.at.GaugeLowered?
    ensures Completes(t, acts) <==> Then(acts, CountCompleted) && Exit(acts[1..])
  {
    if Then(acts, CountCompleted) {
      RoutedExits(Moved(t, CountCompleted), acts[1..]);
    }
  }

  /** Lowering the gauge leads out. */
  lemma LoweringLeaves(t: Task, acts: seq<TaskAct>)
    requires t.at.Serving? && TaskEnabled(t, LowerGauge) && Then(acts, LowerGauge)
    ensures Completes(t, acts) <==> Leave(acts)
  {
    GaugeLoweredExits(Moved(t, LowerGauge), acts[1..]);
    if |acts| >= 2 {
      assert acts[1..][1..] == acts[2..];
    }
  }

  lemma PanickedLeaves(t: Task, acts: seq<TaskAct>)
    requires t.at.Serving? && t.panicked
    ensures Completes(t, acts) <==> Leave(acts)
  {
    if Then(acts, LowerGauge) {
      LoweringLeaves(t, acts);
    }
  }

  /** Nothing is left for the task to count but its guard. */
  predicate Relaying(t: Task) {
    t.at.Serving? && !t.panicked
    && (t.route.Proxied? || (t.route.Fallback? && (t.handshake.Failed? || (t.handshake.Succeeded? && !t.alpn.Unread?))))
  }

  lemma RelayingRelays(t: Task, acts: seq<TaskAct>)
    requires Relaying(t) && (t.route.Proxied? ==> t.handshake.NotTried?)
    ensures Completes(t, acts) <==> Relay(acts)
  {
    if Then(acts, LowerGauge) {
      LoweringLeaves(t, acts);
    } else if Then(acts, Panic) {
      PanickedLeaves(Moved(t, Panic), acts[1..]);
    }
  }

  lemma SucceededNegotiates(t: Task, acts: seq<TaskAct>)
    requires t.at.Serving? && !t.panicked && t.route.Fallback? && t.handshake.Succeeded? && t.alpn.Unread?
    ensures Completes(t, acts) <==> Negotiated(acts)
  {
    if Then(acts, Panic) {
      PanickedLeaves(Moved(t, Panic), acts[1..]);
    } else if acts != [] && acts[0].ReadAlpn? && !acts[0].alpn.Unread? {
      RelayingRelays(Moved(t, acts[0]), acts[1..]);
    }
  }

  lemma FallbackServes(t: Task, acts: seq<TaskAct>)
    requires t.at.Serving? && !t.panicked && t.route.Fallback? && t.handshake.NotTried? && t.alpn.Unread?
    ensures Completes(t, acts) <==> Serve(acts)
  {
    if Then(acts, Panic) {
      PanickedLeaves(Moved(t, Panic), acts[1..]);
    } else if Then(acts, FinishHandshake(false)) {
      RelayingRelays(Moved(t, acts[0]), acts[1..]);
    } else if Then(acts, FinishHandshake(true)) {
      SucceededNegotiates(Moved(t, acts[0]), acts[1..]);
    }
  }

  /** A task that has tried no handshake. */
  predicate Fresh(t: Task) {
    !t.panicked && t.handshake.NotTried? && t.alpn.Unread?
  }

  lemma BegunRaises(t: Task, acts: seq<TaskAct>)
    requires t.at.TotalCounted? && Fresh(t) && !t.route.Unrouted?
    ensures Completes(t, acts) <==>
              Then(acts, RaiseGauge) && if t.route.Proxied? then Relay(acts[1..]) else Serve(acts[1..])
  {
    if Then(acts, RaiseGauge) {
      if t.route.Proxied? {
        RelayingRelays(Moved(t, RaiseGauge), acts[1..]);
      } else {
        FallbackServes(Moved(t, RaiseGauge), acts[1..]);
      }
    }
  }

  lemma ClassifiedDecides(t: Task, acts: seq<TaskAct>)
    requires t.at.Classified? && Fresh(t)
    ensures Completes(t, acts) <==> Decide(acts, t.sni.Present?)
  {
    if Then(acts, Panic) {
      RoutedExits(Moved(t, Panic), acts[1..]);
    } else if acts != [] && TaskEnabled(t, acts[0]) {
      BegunRaises(Moved(t, acts[0]), acts[1..]);
      if |acts| >= 2 {
        assert acts[1..][1..] == acts[2..];
      }
    }
  }

  lemma ProbingProbes(t: Task, acts: seq<TaskAct>)
    requires t.at.Probing? && Fresh(t)
    ensures Completes(t, acts) <==> Probe(acts)
  {
    if acts != [] && acts[0].ReadSni? {
      ClassifiedDecides(Moved(t, acts[0]), acts[1..]);
    } else if acts != [] && TaskEnabled(t, acts[0]) {
      RoutedExits(Moved(t, acts[0]), acts[1..]);
    }
  }

  /** A task's possible complete runs are exactly the grammar's. */
  lemma TaskFollowsItsProgram(ip: Common.IpAddr, acts: seq<TaskAct>)
    ensures Completes(NewTask(ip), acts) <==> Life(acts)
  {
    var t := NewTask(ip);
    if Then(acts, Panic) {
      RoutedExits(Moved(t, Panic), acts[1..]);
    } else if Then(acts, Snapshot) {
      ProbingProbes(Moved(t, Snapshot), acts[1..]);
    }
  }
}
