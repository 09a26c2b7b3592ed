/** Closing session handling, and what can keep it from ending. No thread opens sessions any
    more, so the only interference is that of each slot's own runner. */
module SessionShutdown {
  import opened Sessions

  // ----- what a runner can do to its slot, however often it acts

  /** t can come from s by steps of the runner. */
  predicate Progress(s: Session, t: Session) {
    && t.kind == s.kind && t.counter == s.counter && t.orphans == s.orphans
    && t.openers == s.openers && t.breaches == s.breaches && t.creating == s.creating
    && match s.thread
       case NoThread => t == s
       case Fresh => t == s || (t.thread == Active && t.state == Running)
                     || (t.thread == Done && (t.state == Running || t.state == Terminate))
       case Active => (t.thread == Active && t.state == s.state)
                      || (t.thread == Done && (t.state == s.state || t.state == Terminate))
       case Done => t == s
  }

  lemma {:induction false} ActsProgress(s: Session, actions: seq<Action>)
    requires s.openers == []
    ensures Progress(s, Acts(s, actions))
  {
    if actions != [] {
      ActsProgress(s, actions[..|actions| - 1]);
    }
  }

  lemma ActsIdle(s: Session, actions: seq<Action>)
    requires s.openers == [] && s.thread == NoThread
    ensures Acts(s, actions) == s
  {
    ActsProgress(s, actions);
    hide Acts;
  }

  /** The stop of a session that only its runner disturbs. */
  function StoppedAlone(s: Session): Session {
    var r := Release(s.(thread := NoThread));
    var o := Outcome(s.kind, r);
    r.(state := if o == Stopped then Unused else o)
  }

  lemma StopAlone(s: Session, e: Interference)
    requires s.openers == []
    ensures Stop(s, e) == StoppedAlone(s)
  {
    var j := s.(thread := NoThread);
    ActsIdle(j, e.beforeStopper);
    var r := Release(j);
    ActsIdle(r, e.beforeRead);
    ActsIdle(r, e.beforeStopped);
    var t := r.(state := Outcome(s.kind, r));
    ActsIdle(t, e.beforeFree);
    ActsIdle(t, e.beforeUnused);
    hide Acts;
  }

  lemma CheckFdAlone(s: Session, e: Interference)
    requires s.openers == []
    ensures CheckFd(s, e) == if s.fd > LAST_STANDARD_FD && !e.open
                             then Acts(s, e.beforeTerminate).(state := Terminate) else s
  {
    assert s.(earlyCloses := s.earlyCloses + One(!e.closing && Engaged(s))) == s;
    hide Acts;
  }

  // ----- places on the way to a free slot

  predicate ClearsDescriptor(k: Kind) {
    k != LiveCapture && k != FileCapture
  }

  /** Nothing runs, and the descriptor is not supervised any more if the kind clears it. */
  predicate Idle(s: Session) {
    && s.thread == NoThread
    && (s.state == Unused
        || (s.state == Start && (ClearsDescriptor(s.kind) ==> s.fd <= LAST_STANDARD_FD)))
  }

  /** A capture that waits for restart with a descriptor still recorded for supervision. */
  predicate Stale(s: Session) {
    && !ClearsDescriptor(s.kind) && (s.kind == FileCapture ==> s.iterations != 0)
    && s.state == Start && s.thread == NoThread && s.supervised && s.fd > LAST_STANDARD_FD
  }

  /** Stopping leaves no thread, and frees the slot exactly on abort, for client connections and
      for exhausted file captures. */
  lemma StopFrees(s: Session, e: Interference)
    requires s.openers == []
    ensures Idle(Stop(s, e)) && Stop(s, e).kind == s.kind && Stop(s, e).openers == []
    ensures Stop(s, e).state == Unused
            <==> s.state == Aborting || s.kind == ClientConnection
                 || (s.kind == FileCapture && s.iterations == 0)
  {
    StopAlone(s, e);
    hide Stop;
  }

  lemma VisitAlone(s: Session, e: Interference)
    requires Inv(s) && s.breaches == 0 && s.openers == []
    ensures var t := Visit(s, e); Inv(t) && t.breaches == 0 && t.openers == [] && t.kind == s.kind
    ensures s.state == Unused ==> Visit(s, e) == s
  {
    VisitKeepsInv(s, e);
    ActsProgress(s, e.first);
    var a := Acts(s, e.first);
    hide Acts, Sound;
    if a.state != Unused {
      SwitchAlone(a, e);
      hide AtSwitch, Transition;
      TransitionAlone(AtSwitch(a, e), e);
    }
  }

  lemma SwitchAlone(s: Session, e: Interference)
    requires s.openers == []
    ensures var c := AtSwitch(s, e); c.openers == [] && c.kind == s.kind && c.breaches == s.breaches
  {
    ActsProgress(s, e.beforeTest);
    ActsProgress(Acts(s, e.beforeTest), e.beforeAbort);
    var o := Ordered(s, e);
    ActsProgress(o, e.beforeCheck);
    var b := Acts(o, e.beforeCheck);
    ActsProgress(b, e.beforeFd);
    ActsProgress(Acts(b, e.beforeFd), e.beforeTerminate);
    CheckFdAlone(Acts(b, e.beforeFd), e);
    ActsProgress(CheckDescriptor(b, e), e.beforeSwitch);
    hide Acts;
  }

  lemma TransitionAlone(s: Session, e: Interference)
    requires s.openers == []
    ensures var t := Transition(s, e); t.openers == [] && t.kind == s.kind && t.breaches == s.breaches
    ensures s.state == Terminate || s.state == Abort ==> Idle(Transition(s, e))
  {
    ActsProgress(s, e.beforeWrite);
    var w := Acts(s, e.beforeWrite);
    hide Acts, Stop, Idle, Spawn;
    match s.state
    case Start => StartAlone(w.(state := Starting, counter := 0), e);
    case Starting => ActsProgress(w, e.beforeJoin);
    case Terminate => StoppingAlone(w.(state := Terminating, counter := 0), e);
    case Abort => StoppingAlone(w.(state := Aborting, counter := 0), e);
    case _ => StoppingAlone(w.(state := Stopped), e);
  }

  lemma StartAlone(s: Session, e: Interference)
    requires s.openers == []
    ensures var t := Spawn(Acts(s, e.beforeJoin), e);
            && t.openers == [] && t.kind == s.kind && t.breaches == s.breaches
            && (s.state != Stopped ==> t.state != Stopped)
  {
    ActsProgress(s, e.beforeJoin);
    var c := Acts(s, e.beforeJoin);
    if c.thread == NoThread {
      ActsIdle(c.(creating := e.spawned), e.beforeCreate);
    } else {
      ActsProgress(c.(creating := e.spawned), e.beforeCreate);
    }
    hide Acts;
  }

  lemma StoppingAlone(s: Session, e: Interference)
    requires s.openers == []
    ensures var t := Stop(Acts(s, e.beforeJoin), e);
            Idle(t) && t.kind == s.kind && t.openers == [] && t.breaches == s.breaches
  {
    ActsProgress(s, e.beforeJoin);
    StopFrees(Acts(s, e.beforeJoin), e);
    StopAlone(Acts(s, e.beforeJoin), e);
    hide Acts, Stop, Idle;
  }

  // ----- closing visits

  /** While handling is closing, one visit either stops the session or was overtaken by its
      runner's announcement, which the runner can make only once. */
  lemma ClosingVisit(s: Session, e: Interference)
    requires Sound(s) && s.openers == [] && s.state !in {Unused, Stopped} && e.closing
    ensures Idle(Visit(s, e)) || (s.thread == Fresh && Visit(s, e).state == Running
                                  && Visit(s, e).thread in {Active, Done})
  {
    ActsProgress(s, e.first);
    var a := Acts(s, e.first);
    ClosingSwitch(a, e);
    SwitchAlone(a, e);
    TransitionAlone(AtSwitch(a, e), e);
    hide Acts, AtSwitch, Idle;
  }

  lemma ClosingSwitch(s: Session, e: Interference)
    requires s.openers == [] && s.state !in {Unused, Stopped, Aborting} && e.closing
    ensures AtSwitch(s, e).state in {Abort, Terminate}
            || (s.thread == Fresh && AtSwitch(s, e).state == Running
                && AtSwitch(s, e).thread in {Active, Done})
  {
    ActsProgress(s, e.beforeTest);
    ActsProgress(Acts(s, e.beforeTest), e.beforeAbort);
    var o := Ordered(s, e);
    ActsProgress(o, e.beforeCheck);
    var b := Acts(o, e.beforeCheck);
    ActsProgress(b, e.beforeFd);
    ActsProgress(Acts(b, e.beforeFd), e.beforeTerminate);
    CheckFdAlone(Acts(b, e.beforeFd), e);
    ActsProgress(CheckDescriptor(b, e), e.beforeSwitch);
    hide Acts;
  }

  /** What the switch finds in a slot where nothing runs. */
  lemma IdleSwitch(s: Session, e: Interference)
    requires s.openers == [] && s.thread == NoThread
    ensures var o := if e.closing && s.state !in {Stopped, Aborting} then s.(state := Abort) else s;
            AtSwitch(s, e) == if s.supervised && s.fd > LAST_STANDARD_FD && !e.open
                              then o.(state := Terminate) else o
  {
    ActsIdle(s, e.beforeTest);
    ActsIdle(s, e.beforeAbort);
    var o := Ordered(s, e);
    ActsIdle(o, e.beforeCheck);
    ActsIdle(o, e.beforeFd);
    ActsIdle(o, e.beforeTerminate);
    CheckFdAlone(o, e);
    ActsIdle(CheckDescriptor(o, e), e.beforeSwitch);
    hide Acts;
  }

  /** How the switch stops a slot where nothing runs. */
  lemma IdleStop(s: Session, e: Interference)
    requires s.openers == [] && s.thread == NoThread && (s.state == Abort || s.state == Terminate)
    ensures var o := s.(state := if s.state == Abort then Aborting else Terminating, counter := 0);
            Transition(s, e) == StoppedAlone(o)
  {
    ActsIdle(s, e.beforeWrite);
    var o := s.(state := if s.state == Abort then Aborting else Terminating, counter := 0);
    ActsIdle(o, e.beforeJoin);
    StopAlone(o, e);
    hide Acts, Stop;
  }

  /** A closing visit frees a session that nothing runs exactly when it is not stale, or its
      descriptor is found open. */
  lemma ClosingIdle(s: Session, e: Interference)
    requires s.openers == [] && Idle(s) && e.closing
    ensures Idle(Visit(s, e))
    ensures Visit(s, e).state == Unused <==> !Stale(s) || e.open
    ensures Visit(s, e).state != Unused ==> Visit(s, e) == s.(counter := 0)
  {
    ActsIdle(s, e.first);
    hide Acts;
    if s.state == Start {
      hide AtSwitch, Transition;
      IdleSwitch(s, e);
      var c := if s.supervised && s.fd > LAST_STANDARD_FD && !e.open
               then s.(state := Terminate) else s.(state := Abort);
      assert AtSwitch(s, e) == c && Visit(s, e) == Transition(c, e);
      hide Visit;
      IdleStop(c, e);
    }
  }

  /** How far a slot has come after n closing visits. */
  predicate Stage(s: Session, n: nat) {
    && Inv(s) && s.breaches == 0 && s.openers == []
    && if n == 0 then s.state != Stopped
       else if n == 1 then Idle(s) || (s.state == Running && s.thread in {Active, Done})
       else Idle(s)
  }

  lemma NextStage(s: Session, n: nat, e: Interference)
    requires Stage(s, n) && e.closing
    ensures Stage(Visit(s, e), n + 1) && Visit(s, e).kind == s.kind
    ensures n >= 2 ==> (Visit(s, e).state == Unused <==> !Stale(s) || e.open)
  {
    VisitAlone(s, e);
    hide Visit;
    if s.state != Unused {
      if Idle(s) {
        ClosingIdle(s, e);
      } else {
        ClosingVisit(s, e);
      }
    }
  }

  /** After three closing visits, under every interleaving with its runner, a session that was
      added is free exactly when it was not left stale by the first two, or the third finds its
      descriptor open. The abort can be lost once to the runner's announcement and once to its
      failure. */
  lemma ShutdownIff(s: Session, e1: Interference, e2: Interference, e3: Interference)
    requires Inv(s) && s.breaches == 0 && s.openers == [] && s.state != Stopped
    requires e1.closing && e2.closing && e3.closing
    ensures var s2 := Visit(Visit(s, e1), e2); var s3 := Visit(s2, e3);
            && (s3.state == Unused <==> !Stale(s2) || e3.open)
            && s3.thread == NoThread
            && (ClearsDescriptor(s.kind) ==> s3.state == Unused)
  {
    NextStage(s, 0, e1);
    NextStage(Visit(s, e1), 1, e2);
    NextStage(Visit(Visit(s, e1), e2), 2, e3);
    hide Visit;
  }

  /** Two visits are not enough. */
  lemma TwoVisitsMayNotSuffice()
    ensures exists s: Session, e1: Interference, e2: Interference ::
              && Inv(s) && s.openers == [] && s.state == Starting && ClearsDescriptor(s.kind)
              && e1.closing && e2.closing && e1.open && e2.open
              && Visit(Visit(s, e1), e2).state == Start
  {
    var s := Blank([]).(kind := Client, state := Starting, thread := Fresh, supervised := true);
    var e1 := CALM.(closing := true, beforeCheck := [Announce]);
    var e2 := CALM.(closing := true, beforeJoin := [Fail]);
    Announced(s, e1);
    Failed(s.(state := Running, thread := Active), e2);
    hide Visit;
    assert Visit(Visit(s, e1), e2).state == Start;
  }

  lemma Announced(s: Session, e: Interference)
    requires s.state == Starting && s.thread == Fresh && e.closing && e.open
    requires e.first == e.beforeTest == e.beforeAbort == e.beforeFd == e.beforeSwitch == []
    requires e.beforeCheck == [Announce]
    ensures Visit(s, e) == s.(state := Running, thread := Active)
  {
    ActsOne(s.(state := Abort), Announce);
  }

  lemma Failed(s: Session, e: Interference)
    requires s.state == Running && s.thread == Active && s.kind == Client && e.closing && e.open
    requires e.first == e.beforeTest == e.beforeAbort == e.beforeCheck == e.beforeFd == e.beforeSwitch == []
    requires e.beforeWrite == e.beforeStopper == e.beforeRead == e.beforeStopped == []
    requires e.beforeFree == e.beforeUnused == [] && e.beforeJoin == [Fail]
    ensures Visit(s, e).state == Start
  {
    assert AtSwitch(s, e) == s.(state := Abort);
    ActsOne(s.(state := Aborting, counter := 0), Fail);
    hide AtSwitch;
  }

  lemma ActsOne(s: Session, a: Action)
    ensures Acts(s, [a]) == Act(s, a)
  {
    ActsSnoc(s, [], a);
    assert [] + [a] == [a];
  }

  // ----- a capture session with a stale descriptor

  lemma StaleVisit(s: Session, e: Interference)
    requires Stale(s) && s.openers == []
    ensures !e.open ==> Visit(s, e) == s.(counter := 0)
    ensures e.open && e.closing ==> Visit(s, e) == s.(state := Unused, counter := 0)
  {
    ActsIdle(s, e.first);
    IdleSwitch(s, e);
    hide Acts, AtSwitch;
    if !e.open || e.closing {
      IdleStop(AtSwitch(s, e), e);
    }
    hide Transition;
  }

  /** Such a session is stopped and put back for restart on every visit, and its runner is never
      started again, as long as the descriptor reads closed. */
  lemma {:induction false} StaleNeverStarts(s: Session, es: seq<Interference>)
    requires Stale(s) && s.openers == [] && s.counter == 0 && forall i :: 0 <= i < |es| ==> !es[i].open
    ensures Visits(s, es) == s
  {
    if es != [] {
      StaleNeverStarts(s, es[..|es| - 1]);
      StaleVisit(s, es[|es| - 1]);
      hide Visit;
    }
  }

  /** Some visit finds the descriptor open. */
  predicate FoundOpen(es: seq<Interference>) {
    exists i :: 0 <= i < |es| && es[i].open
  }

  predicate FoundClosed(es: seq<Interference>) {
    exists i :: 0 <= i < |es| && !es[i].open
  }

  lemma FoundSnoc(es: seq<Interference>)
    requires es != []
    ensures FoundOpen(es) <==> FoundOpen(es[..|es| - 1]) || es[|es| - 1].open
    ensures FoundClosed(es) <==> FoundClosed(es[..|es| - 1]) || !es[|es| - 1].open
  {
    var n := |es| - 1;
    assert forall i :: 0 <= i < n ==> es[..n][i] == es[i];
    if FoundOpen(es[..n]) {
      var i :| 0 <= i < n && es[..n][i].open;
      assert es[i].open;
    }
    if FoundClosed(es[..n]) {
      var i :| 0 <= i < n && !es[..n][i].open;
      assert !es[i].open;
    }
  }

  /** Closing frees it exactly when some visit finds its old descriptor number open again; until
      then the supervisor does not end. */
  lemma {:induction false} StaleShutdownIff(s: Session, es: seq<Interference>)
    requires Stale(s) && Inv(s) && s.breaches == 0 && s.openers == [] && s.counter == 0
    requires forall i :: 0 <= i < |es| ==> es[i].closing
    ensures Visits(s, es).state == Unused <==> FoundOpen(es)
    ensures Visits(s, es) == s || Visits(s, es) == s.(state := Unused)
  {
    if es == [] {
      return;
    } else {
      var n := |es| - 1;
      var front := es[..n];
      assert Visits(s, es) == Visit(Visits(s, front), es[n]);
      FoundSnoc(es);
      hide Visit, Visits, FoundOpen;
      StaleShutdownIff(s, front);
      if Visits(s, front).state == Unused {
        VisitAlone(Visits(s, front), es[n]);
      } else {
        StaleVisit(s, es[n]);
      }
    }
  }

  /** The runner leaves the descriptor alone, as that of a live capture does. */
  predicate Steady(actions: seq<Action>) {
    forall i :: 0 <= i < |actions| ==> !actions[i].Rewire?
  }

  lemma {:induction false} SteadyActs(s: Session, actions: seq<Action>)
    requires s.openers == [] && Steady(actions)
    ensures var t := Acts(s, actions); t.fd == s.fd && t.supervised == s.supervised
  {
    if actions != [] {
      var n := |actions| - 1;
      SteadyActs(s, actions[..n]);
      ActsProgress(s, actions[..n]);
    }
  }

  predicate SteadyVisit(e: Interference) {
    && Steady(e.first) && Steady(e.beforeTest) && Steady(e.beforeAbort) && Steady(e.beforeCheck)
    && Steady(e.beforeFd) && Steady(e.beforeTerminate) && Steady(e.beforeSwitch)
    && Steady(e.beforeWrite) && Steady(e.beforeJoin) && Steady(e.beforeCreate)
  }

  /** A live capture comes to that in whatever gap its runner ends: whenever a visit leaves it
      waiting for restart it is stale, and every visit whose switch finds TERMINATE does so. */
  lemma StaleArises(s: Session, e: Interference)
    requires Inv(s) && s.breaches == 0 && s.openers == [] && SteadyVisit(e)
    requires s.kind == LiveCapture && s.supervised && s.fd > LAST_STANDARD_FD
    ensures Visit(s, e).state == Start ==> Stale(Visit(s, e)) && Visit(s, e).fd == s.fd
    ensures Acts(s, e.first).state != Unused && AtSwitch(Acts(s, e.first), e).state == Terminate
            ==> Visit(s, e).state == Start
  {
    VisitAlone(s, e);
    SteadyActs(s, e.first);
    ActsProgress(s, e.first);
    var a := Acts(s, e.first);
    hide Acts, SteadyVisit;
    if a.state != Unused {
      SteadySwitch(a, e);
      SwitchAlone(a, e);
      var c := AtSwitch(a, e);
      hide AtSwitch;
      SteadyTransition(c, e);
    }
  }

  lemma SteadySwitch(s: Session, e: Interference)
    requires s.openers == [] && SteadyVisit(e)
    ensures AtSwitch(s, e).fd == s.fd && AtSwitch(s, e).supervised == s.supervised
  {
    SteadyStep(s, e.beforeTest);
    SteadyStep(Acts(s, e.beforeTest), e.beforeAbort);
    var o := Ordered(s, e);
    SteadyStep(o, e.beforeCheck);
    var b := Acts(o, e.beforeCheck);
    SteadyStep(b, e.beforeFd);
    SteadyStep(Acts(b, e.beforeFd), e.beforeTerminate);
    CheckFdAlone(Acts(b, e.beforeFd), e);
    SteadyStep(CheckDescriptor(b, e), e.beforeSwitch);
    hide Acts;
  }

  lemma SteadyStep(s: Session, actions: seq<Action>)
    requires s.openers == [] && Steady(actions)
    ensures var t := Acts(s, actions); t.fd == s.fd && t.supervised == s.supervised && t.openers == []
  {
    SteadyActs(s, actions);
    ActsProgress(s, actions);
    hide Acts;
  }

  lemma SteadyTransition(s: Session, e: Interference)
    requires s.openers == [] && SteadyVisit(e) && s.kind == LiveCapture
    ensures var t := Transition(s, e);
            && t.fd == s.fd && t.supervised == s.supervised
            && (s.state == Terminate ==> t.state == Start)
  {
    SteadyStep(s, e.beforeWrite);
    ActsProgress(s, e.beforeWrite);
    var w := Acts(s, e.beforeWrite);
    assert Steady(e.beforeJoin) && Steady(e.beforeCreate);
    hide Acts, Stop, Spawn, SteadyVisit, Steady;
    match s.state
    case Unused | Stopped | Running =>
    case Start => SteadyStart(w.(state := Starting, counter := 0), e);
    case Starting => SteadyStep(w, e.beforeJoin);
    case Terminate => SteadyStop(w.(state := Terminating, counter := 0), e);
    case Abort => SteadyStop(w.(state := Aborting, counter := 0), e);
    case _ => SteadyStop(w.(state := Stopped), e);
  }

  lemma SteadyStart(s: Session, e: Interference)
    requires s.openers == [] && Steady(e.beforeJoin) && Steady(e.beforeCreate)
    ensures var t := Spawn(Acts(s, e.beforeJoin), e); t.fd == s.fd && t.supervised == s.supervised
  {
    SteadyStep(s, e.beforeJoin);
    SteadyStep(Acts(s, e.beforeJoin).(creating := e.spawned), e.beforeCreate);
    hide Acts, Steady;
  }

  lemma SteadyStop(s: Session, e: Interference)
    requires s.openers == [] && Steady(e.beforeJoin) && s.kind == LiveCapture
    ensures var t := Stop(Acts(s, e.beforeJoin), e);
            && t.fd == s.fd && t.supervised == s.supervised
            && (s.state == Terminating ==> t.state == Start)
  {
    SteadyStep(s, e.beforeJoin);
    ActsProgress(s, e.beforeJoin);
    StopAlone(Acts(s, e.beforeJoin), e);
    hide Acts, Stop;
  }

  // ----- a slot that was taken but never added

  lemma StoppedVisit(s: Session, e: Interference)
    requires Inv(s) && s.breaches == 0 && s.openers == [] && s.state == Stopped
    ensures Visit(s, e).state == Stopped <==> !(s.supervised && s.fd > LAST_STANDARD_FD && !e.open)
    ensures Visit(s, e).state == Stopped ==> Visit(s, e) == s
    ensures Visit(s, e).state != Stopped ==> Idle(Visit(s, e))
  {
    ActsIdle(s, e.first);
    IdleSwitch(s, e);
    hide Acts, AtSwitch;
    if s.supervised && s.fd > LAST_STANDARD_FD && !e.open {
      IdleStop(AtSwitch(s, e), e);
    }
  }

  predicate NeverStopped(s: Session) {
    Inv(s) && s.breaches == 0 && s.openers == [] && s.state != Stopped
  }

  lemma StaysNotStopped(s: Session, e: Interference)
    requires NeverStopped(s)
    ensures NeverStopped(Visit(s, e))
  {
    VisitAlone(s, e);
    ActsProgress(s, e.first);
    var a := Acts(s, e.first);
    hide Acts;
    if a.state != Unused {
      NotStoppedSwitch(a, e);
      SwitchAlone(a, e);
      hide AtSwitch, Transition;
      NotStoppedTransition(AtSwitch(a, e), e);
    }
  }

  lemma NotStoppedSwitch(s: Session, e: Interference)
    requires s.openers == [] && s.state != Stopped
    ensures AtSwitch(s, e).state != Stopped
  {
    ActsProgress(s, e.beforeTest);
    ActsProgress(Acts(s, e.beforeTest), e.beforeAbort);
    var o := Ordered(s, e);
    ActsProgress(o, e.beforeCheck);
    var b := Acts(o, e.beforeCheck);
    ActsProgress(b, e.beforeFd);
    ActsProgress(Acts(b, e.beforeFd), e.beforeTerminate);
    CheckFdAlone(Acts(b, e.beforeFd), e);
    ActsProgress(CheckDescriptor(b, e), e.beforeSwitch);
    hide Acts;
  }

  lemma NotStoppedTransition(s: Session, e: Interference)
    requires s.openers == [] && s.state != Stopped
    ensures Transition(s, e).state != Stopped
  {
    ActsProgress(s, e.beforeWrite);
    var w := Acts(s, e.beforeWrite);
    hide Acts, Stop;
    match s.state
    case Start => StartAlone(w.(state := Starting, counter := 0), e);
    case Starting => ActsProgress(w, e.beforeJoin);
    case Terminate => StoppingAlone(w.(state := Terminating, counter := 0), e);
    case Abort => StoppingAlone(w.(state := Aborting, counter := 0), e);
    case _ => StoppingAlone(w.(state := Stopped), e);
  }

  /** A slot taken from the table and not added stays as it is, and keeps a closing supervisor
      from ending, exactly as long as no visit finds its descriptor supervised and closed. */
  lemma {:induction false} NotAddedStaysIff(s: Session, es: seq<Interference>)
    requires Inv(s) && s.breaches == 0 && s.openers == [] && s.state == Stopped
    ensures Visits(s, es).state == Stopped
            <==> !(s.supervised && s.fd > LAST_STANDARD_FD && FoundClosed(es))
    ensures Visits(s, es).state == Stopped ==> Visits(s, es) == s
    ensures Visits(s, es).state != Stopped ==> NeverStopped(Visits(s, es))
  {
    if es == [] {
      return;
    } else {
      var n := |es| - 1;
      var t := Visits(s, es[..n]);
      assert Visits(s, es) == Visit(t, es[n]);
      FoundSnoc(es);
      hide Visit, Visits, FoundClosed;
      NotAddedStaysIff(s, es[..n]);
      if t.state == Stopped {
        StoppedVisit(s, es[n]);
        VisitAlone(s, es[n]);
      } else {
        StaysNotStopped(t, es[n]);
      }
    }
  }

  // ----- a runner that never announces itself

  predicate Silent(e: Interference) {
    && !e.closing && e.open && e.first == [] && e.beforeCheck == [] && e.beforeFd == []
    && e.beforeSwitch == [] && e.beforeWrite == [] && e.beforeJoin == [] && e.beforeCreate == []
  }

  /** A start is given up by the twelfth visit that finds it pending, and not before. */
  lemma {:induction false} StartTimesOut(s: Session, es: seq<Interference>)
    requires s.state == Start && |es| <= 12
    requires forall i :: 0 <= i < |es| ==> Silent(es[i])
    ensures var t := Visits(s, es);
            if |es| == 0 then t == s
            else if |es| == 12
            then t.state == Terminate
            else t.state == Starting && t.counter == |es| - 1
    ensures |es| > 0 && s.thread == NoThread ==>
              Visits(s, es).thread == if es[0].spawned then Fresh else NoThread
  {
    if es != [] {
      StartTimesOut(s, es[..|es| - 1]);
    }
  }
}
