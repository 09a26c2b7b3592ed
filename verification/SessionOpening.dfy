/** Opening sessions while the supervisor and the runners work on the same slots: when no
    runner is ever lost, and how one is lost otherwise. */
module SessionOpening {
  import opened Sessions
  import opened SessionOrder

  // ----- one opener at a time, and none on a slot with a thread

  predicate Exclusive(s: Session) {
    AtMostOne(s) && (Engaged(s) || s.state == Unused ==> !Manned(s))
  }

  lemma OpenExclusive(s: Session, k: nat, step: OpenStep)
    requires Exclusive(s) && k < |s.openers| && Open(s, k, step).clashes == s.clashes
    ensures Exclusive(Open(s, k, step)) && Open(s, k, step).breaches == s.breaches
  {
    var t := Open(s, k, step);
    if s.openers[k] == Looking && t != s {
      assert forall j :: 0 <= j < |s.openers| ==> s.openers[j] == Looking;
    } else if s.openers[k] != Looking {
      assert Engaged(s);
      forall j | 0 <= j < |s.openers| && j != k ensures s.openers[j] == Looking {
      }
    }
  }

  lemma ActExclusive(s: Session, a: Action)
    requires Exclusive(s) && Act(s, a).clashes == s.clashes
    ensures Exclusive(Act(s, a)) && Act(s, a).breaches == s.breaches
  {
    if a.Opens? {
      if a.k < |s.openers| {
        OpenExclusive(s, a.k, a.step);
      }
    } else {
      assert Act(s, a).openers == s.openers;
    }
    hide Open;
  }

  lemma {:induction false} ActsExclusive(s: Session, actions: seq<Action>)
    requires Exclusive(s)
    ensures var t := Acts(s, actions);
            t.clashes == s.clashes ==> Exclusive(t) && t.breaches == s.breaches
  {
    if actions != [] {
      var n := |actions| - 1;
      ActsGrow(s, actions[..n]);
      ActOnward(Acts(s, actions[..n]), actions[n]);
      ActsExclusive(s, actions[..n]);
      if Acts(s, actions).clashes == s.clashes {
        ActExclusive(Acts(s, actions[..n]), actions[n]);
      }
    }
    hide Sound, Exclusive, Act;
  }

  // ----- a closing visit

  /** Nobody is engaged with a slot that waits to be started. */
  predicate Settled(s: Session) {
    Exclusive(s) && (s.state == Start ==> !Engaged(s))
  }

  lemma OpenSettled(s: Session, k: nat, step: OpenStep)
    requires Settled(s) && k < |s.openers| && Open(s, k, step).clashes == s.clashes
    ensures Settled(Open(s, k, step))
  {
    OpenExclusive(s, k, step);
    var t := Open(s, k, step);
    if t.state == Start && s.openers[k] != Looking {
      forall j | 0 <= j < |s.openers| && j != k ensures s.openers[j] == Looking {
      }
    }
  }

  lemma {:induction false} ActsSettled(s: Session, actions: seq<Action>)
    requires Settled(s)
    ensures Acts(s, actions).clashes == s.clashes ==> Settled(Acts(s, actions))
  {
    if actions != [] {
      var n := |actions| - 1;
      var m := Acts(s, actions[..n]);
      ActsGrow(s, actions[..n]);
      ActOnward(m, actions[n]);
      ActsSettled(s, actions[..n]);
      if Acts(s, actions).clashes == s.clashes {
        ActSettled(m, actions[n]);
      }
    }
    hide Sound, Settled, Act;
  }

  lemma ActSettled(s: Session, a: Action)
    requires Settled(s) && Act(s, a).clashes == s.clashes
    ensures Settled(Act(s, a))
  {
    if a.Opens? && a.k < |s.openers| {
      OpenSettled(s, a.k, a.step);
    } else {
      ActExclusive(s, a);
    }
    hide Open;
  }

  lemma OrderedSettled(s: Session, e: Interference)
    requires Exclusive(s) && e.closing && Ordered(s, e).clashes == s.clashes
    ensures Settled(Ordered(s, e)) && Ordered(s, e).breaches == s.breaches
  {
    ActsGrow(s, e.beforeTest);
    var t := Acts(s, e.beforeTest);
    ActsGrow(t, e.beforeAbort);
    ActsExclusive(s, e.beforeTest);
    hide Acts;
    if t.state != Stopped && t.state != Aborting {
      ActsExclusive(t, e.beforeAbort);
    }
  }

  lemma CheckSettled(s: Session, e: Interference)
    requires Settled(s) && e.closing && CheckDescriptor(s, e).clashes == s.clashes
    ensures Settled(CheckDescriptor(s, e)) && CheckDescriptor(s, e).breaches == s.breaches
  {
    if s.supervised {
      var d := Acts(s, e.beforeFd);
      ActsGrow(s, e.beforeFd);
      CheckKeepsGrew(d, e);
      ActsSettled(s, e.beforeFd);
      SettledIs(s);
      ActsExclusive(s, e.beforeFd);
      hide Acts, CheckFd, Settled, Exclusive;
      CheckFdSettled(d, e);
    }
  }

  lemma CheckFdSettled(s: Session, e: Interference)
    requires Settled(s) && e.closing && CheckFd(s, e).clashes == s.clashes
    ensures Settled(CheckFd(s, e)) && CheckFd(s, e).breaches == s.breaches
  {
    if s.fd > LAST_STANDARD_FD && !e.open {
      assert s.(earlyCloses := s.earlyCloses + One(!e.closing && Engaged(s))) == s;
      ActsExclusive(s, e.beforeTerminate);
      hide Acts;
    }
  }

  lemma SwitchSettled(s: Session, e: Interference)
    requires Exclusive(s) && e.closing && !s.creating && AtSwitch(s, e).clashes == s.clashes
    ensures Settled(AtSwitch(s, e)) && AtSwitch(s, e).breaches == s.breaches
  {
    OrderedGrows(s, e);
    var o := Ordered(s, e);
    ActsGrow(o, e.beforeCheck);
    var b := Acts(o, e.beforeCheck);
    CheckGrows(b, e);
    ActsGrow(CheckDescriptor(b, e), e.beforeSwitch);
    hide Acts, Ordered, CheckDescriptor, Settled, Exclusive;
    OrderedSettled(s, e);
    ActsSettled(o, e.beforeCheck);
    SettledIs(o);
    ActsExclusive(o, e.beforeCheck);
    CheckSettled(b, e);
    ActsSettled(CheckDescriptor(b, e), e.beforeSwitch);
    SettledIs(CheckDescriptor(b, e));
    ActsExclusive(CheckDescriptor(b, e), e.beforeSwitch);
  }

  lemma SettledIs(s: Session)
    requires Settled(s)
    ensures Exclusive(s)
  {
  }

  lemma OrderedGrows(s: Session, e: Interference)
    ensures Grew(s, Ordered(s, e)) && Ordered(s, e).creating == s.creating
  {
    ActsGrow(s, e.beforeTest);
    ActsGrow(Acts(s, e.beforeTest), e.beforeAbort);
    hide Acts;
  }

  lemma CheckGrows(s: Session, e: Interference)
    ensures Grew(s, CheckDescriptor(s, e)) && CheckDescriptor(s, e).creating == s.creating
  {
    ActsGrow(s, e.beforeFd);
    CheckKeepsGrew(Acts(s, e.beforeFd), e);
    hide Acts, CheckFd;
  }

  lemma StopExclusive(s: Session, e: Interference)
    requires Exclusive(s) && !s.creating && Stop(s, e).clashes == s.clashes
    ensures Exclusive(Stop(s, e)) && Stop(s, e).breaches == s.breaches
  {
    var n := s.(thread := NoThread);
    var j := Acts(n, e.beforeStopper);
    ActsOnward(n, e.beforeStopper);
    hide Acts, Sound, Stopper;
    StopperKeeps(j.kind, Release(j), e);
    var t := Stopper(j.kind, Release(j), e);
    ActsOnward(t, e.beforeFree);
    var f := Acts(t, e.beforeFree);
    ActsOnward(f, e.beforeUnused);
    FreedClashes(f, e);
    ActsExclusive(n, e.beforeStopper);
    hide Free;
    StopperExclusive(j.kind, Release(j), e);
    ActsExclusive(t, e.beforeFree);
    FreeExclusive(f, e);
  }

  lemma FreedClashes(s: Session, e: Interference)
    ensures Grew(s, Free(s, e))
  {
    ActsGrow(s, e.beforeUnused);
    hide Acts;
  }

  lemma FreeExclusive(s: Session, e: Interference)
    requires Exclusive(s) && !Manned(s) && Free(s, e).clashes == s.clashes
    ensures Exclusive(Free(s, e)) && Free(s, e).breaches == s.breaches
  {
    ActsOnward(s, e.beforeUnused);
    ActsExclusive(s, e.beforeUnused);
    hide Acts, Sound;
  }

  lemma StopperExclusive(kind: Kind, s: Session, e: Interference)
    requires Exclusive(s) && !Manned(s) && Stopper(kind, s, e).clashes == s.clashes
    ensures Exclusive(Stopper(kind, s, e)) && Stopper(kind, s, e).breaches == s.breaches
  {
    var r := Acts(s, e.beforeRead);
    ActsOnward(s, e.beforeRead);
    ActsOnward(r, e.beforeStopped);
    ActsExclusive(s, e.beforeRead);
    hide Acts, Sound;
    ActsExclusive(r, e.beforeStopped);
  }

  lemma StoppingExclusive(s: Session, e: Interference)
    requires Exclusive(s) && !s.creating && Stop(Acts(s, e.beforeJoin), e).clashes == s.clashes
    ensures var t := Stop(Acts(s, e.beforeJoin), e); Exclusive(t) && t.breaches == s.breaches
  {
    ActsGrow(s, e.beforeJoin);
    var j := Acts(s, e.beforeJoin);
    StopKeeps(j, e);
    ActsExclusive(s, e.beforeJoin);
    hide Acts, Stop, Exclusive, Sound;
    StopExclusive(j, e);
  }

  lemma UnengagedExclusive(s: Session, t: Session)
    requires !Engaged(s) && LeftAlone(s, t) && !t.creating
    ensures Exclusive(t)
  {
    assert forall k :: 0 <= k < |t.openers| ==> t.openers[k] == s.openers[k] == Looking;
  }

  lemma TransitionExclusive(s: Session, e: Interference)
    requires Settled(s) && !s.creating && Transition(s, e).clashes == s.clashes
    ensures Exclusive(Transition(s, e)) && Transition(s, e).breaches == s.breaches
  {
    TransitionGrows(s, e);
    ActsGrow(s, e.beforeWrite);
    var w := Acts(s, e.beforeWrite);
    if s.state == Start {
      TransitionUnengaged(s, e);
      hide Transition;
      UnengagedExclusive(s, Transition(s, e));
    } else if s.state !in {Unused, Stopped, Running} {
      ActsExclusive(s, e.beforeWrite);
      hide Acts, Stop, Sound;
      match s.state
      case Starting =>
        ActsGrow(w, e.beforeJoin);
        ActsExclusive(w, e.beforeJoin);
      case Terminate => StoppingExclusive(w.(state := Terminating, counter := 0), e);
      case Abort => StoppingExclusive(w.(state := Aborting, counter := 0), e);
      case _ =>
        if w.counter >= TRANSITION_INTERVALS {
          StoppingExclusive(w.(state := Stopped), e);
        }
    }
  }

  /** While handling is closing, a single condition suffices: that no two openers meet. An
      addition can make a closing supervisor start a session, but then nobody is engaged. */
  lemma ClosingKeepsExclusive(s: Session, e: Interference)
    requires Exclusive(s) && !s.creating && e.closing && Visit(s, e).clashes == s.clashes
    ensures Exclusive(Visit(s, e)) && Visit(s, e).breaches == s.breaches
  {
    ActsGrow(s, e.first);
    var a := Acts(s, e.first);
    ActsExclusive(s, e.first);
    hide Acts, Exclusive, Settled;
    if a.state != Unused {
      SwitchGrows(a, e);
      hide AtSwitch, Transition;
      var c := AtSwitch(a, e);
      TransitionGrows(c, e);
      SwitchSettled(a, e);
      TransitionExclusive(c, e);
    }
  }

  lemma SwitchGrows(s: Session, e: Interference)
    ensures Grew(s, AtSwitch(s, e)) && AtSwitch(s, e).creating == s.creating
  {
    hide Acts, Ordered, CheckDescriptor;
    OrderedGrows(s, e);
    var o := Ordered(s, e);
    ActsGrow(o, e.beforeCheck);
    var b := Acts(o, e.beforeCheck);
    CheckGrows(b, e);
    ActsGrow(CheckDescriptor(b, e), e.beforeSwitch);
  }

  // ----- whole lives of a slot

  /** A slot at the start, with any number of opening threads. */
  predicate Initial(s: Session) {
    s == Blank(s.openers) && !Engaged(s)
  }

  /** Once handling is closing it stays so. */
  predicate ClosesOnce(es: seq<Interference>) {
    forall m, n :: 0 <= m < n < |es| && es[m].closing ==> es[n].closing
  }

  /** In every life, under every interleaving of supervisor, runners and openers, the invariant
      holds as long as no opener has written to a slot with a thread or about to get one. */
  lemma {:induction false} LifeKeepsInv(s: Session, es: seq<Interference>)
    requires Initial(s)
    ensures var t := Visits(s, es); !t.creating && (t.breaches == 0 ==> Inv(t))
  {
    if es != [] {
      LifeKeepsInv(s, es[..|es| - 1]);
      VisitKeepsInv(Visits(s, es[..|es| - 1]), es[|es| - 1]);
      hide Visit, Inv;
    }
  }

  /** No opener ever does so, and no runner is lost, in a life in which no two openers meet on
      the slot and no descriptor is found closed, before the close, of a slot not added yet. */
  lemma {:induction false} GuardedLife(s: Session, es: seq<Interference>)
    requires Initial(s) && ClosesOnce(es)
    ensures var t := Visits(s, es);
            t.clashes == 0 && t.earlyCloses == 0 ==>
              && Inv(t) && t.breaches == 0 && t.orphans == 0 && Exclusive(t)
              && (es == [] || !es[|es| - 1].closing ==> Orderly(t))
  {
    LifeKeepsInv(s, es);
    if es == [] {
      NobodyIsOrderly(s);
      return;
    }
    var n := |es| - 1;
    var t := Visits(s, es[..n]);
    LifeKeepsInv(s, es[..n]);
    VisitKeepsInv(t, es[n]);
    assert Visits(s, es) == Visit(t, es[n]);
    hide Visit, Visits, Orderly, Exclusive, Considerate, Sound;
    GuardedLife(s, es[..n]);
    if Visit(t, es[n]).clashes == 0 && Visit(t, es[n]).earlyCloses == 0 {
      if es[n].closing {
        ClosingKeepsExclusive(t, es[n]);
      } else {
        OpenIsConsiderate(t, es[n]);
        VisitKeepsOrder(t, es[n]);
        OrderlyIsExclusive(Visit(t, es[n]));
      }
      InvHasNoOrphans(Visit(t, es[n]));
    }
  }

  lemma InvHasNoOrphans(s: Session)
    requires Inv(s)
    ensures s.orphans == 0
  {
  }

  lemma OpenIsConsiderate(s: Session, e: Interference)
    requires !e.closing
    ensures Considerate(s, e)
  {
  }

  lemma OrderlyIsExclusive(s: Session)
    requires Inv(s) && Orderly(s)
    ensures Exclusive(s)
  {
    if Engaged(s) {
      var k :| 0 <= k < |s.openers| && s.openers[k] != Looking;
      assert InStep(s, s.openers[k]);
    }
  }

  /** The openers stay undisturbed as well if closing visits are considerate. */
  lemma {:induction false} OrderlyLife(s: Session, es: seq<Interference>)
    requires Initial(s) && forall n :: 0 <= n < |es| ==> Considerate(Visits(s, es[..n]), es[n])
    ensures var t := Visits(s, es);
            t.clashes == 0 && t.earlyCloses == 0 ==> Inv(t) && t.breaches == 0 && Orderly(t)
  {
    LifeKeepsInv(s, es);
    if es == [] {
      NobodyIsOrderly(s);
      return;
    }
    var n := |es| - 1;
    forall m | 0 <= m < n ensures Considerate(Visits(s, es[..n][..m]), es[..n][m]) {
      assert es[..n][..m] == es[..m];
    }
    var t := Visits(s, es[..n]);
    LifeKeepsInv(s, es[..n]);
    VisitKeepsInv(t, es[n]);
    assert Visits(s, es) == Visit(t, es[n]) && Considerate(t, es[n]);
    hide Visit, Visits, Orderly, Considerate, Sound;
    OrderlyLife(s, es[..n]);
    if Visit(t, es[n]).clashes == 0 && Visit(t, es[n]).earlyCloses == 0 {
      VisitKeepsOrder(t, es[n]);
    }
  }

  // ----- without them a runner can be lost

  /** The way of an opener, from finding a slot to adding it. */
  function NextStep(pc: Opener): OpenStep {
    match pc
    case Looking => Look
    case Found => Wipe(Merger)
    case Wiped => Claim
    case Claimed => Configure(0, false, 0)
    case Configured => Add
  }

  function Advanced(pc: Opener): Opener {
    match pc
    case Looking => Found
    case Found => Wiped
    case Wiped => Claimed
    case Claimed => Configured
    case Configured => Looking
  }

  function StepsLeft(pc: Opener): nat {
    match pc
    case Looking => 5
    case Found => 4
    case Wiped => 3
    case Claimed => 2
    case Configured => 1
  }

  /** The steps of opener k from where it is until it has added the slot. */
  function Finish(k: nat, pc: Opener): seq<Action>
    decreases StepsLeft(pc)
  {
    [Opens(k, NextStep(pc))] + if pc == Configured then [] else Finish(k, Advanced(pc))
  }

  lemma {:induction false} ActsCons(s: Session, a: Action, actions: seq<Action>)
    ensures Acts(s, [a] + actions) == Acts(Act(s, a), actions)
  {
    if actions == [] {
      ActsSnoc(s, [], a);
      assert [a] + actions == [] + [a];
    } else {
      var n := |actions| - 1;
      ActsCons(s, a, actions[..n]);
      ActsSnoc(s, [a] + actions[..n], actions[n]);
      assert [a] + actions == [a] + actions[..n] + [actions[n]];
    }
  }

  /** An opener can finish on a slot that is as it left it. */
  predicate CanFinish(s: Session, k: nat) {
    && k < |s.openers| && !Manned(s)
    && (s.openers[k] in {Looking, Found, Wiped} ==> s.state == Unused)
  }

  lemma FinishStep(s: Session, k: nat)
    requires CanFinish(s, k)
    ensures var t := Act(s, Opens(k, NextStep(s.openers[k])));
            && !Manned(t) && t.orphans == s.orphans
            && t.openers == s.openers[k := Advanced(s.openers[k])]
            && (if s.openers[k] == Configured then t.state == Start else CanFinish(t, k))
  {
  }

  lemma {:induction false} FinishRuns(s: Session, k: nat)
    requires CanFinish(s, k)
    ensures var t := Acts(s, Finish(k, s.openers[k]));
            && t.state == Start && !Manned(t)
            && t.openers == s.openers[k := Looking] && t.orphans == s.orphans
    decreases StepsLeft(s.openers[k])
  {
    var pc := s.openers[k];
    var a := Opens(k, NextStep(pc));
    var t := Act(s, a);
    FinishStep(s, k);
    hide Act;
    if pc == Configured {
      ActsSnoc(s, [], a);
      assert [] + [a] == [a] + [] == [a];
    } else {
      ActsCons(s, a, Finish(k, Advanced(pc)));
      hide Acts, Finish;
      FinishRuns(t, k);
      assert t.openers[k := Looking] == s.openers[k := Looking];
    }
  }

  /** A calm visit starts a slot that is found waiting, whatever thread it has. */
  lemma CalmStart(s: Session, first: seq<Action>)
    requires Acts(s, first).state == Start && !Acts(s, first).creating
    ensures var a := Acts(s, first);
            Visit(s, CALM.(first := first))
            == a.(state := Starting, counter := 0, thread := Fresh, orphans := a.orphans + Present(a.thread))
  {
  }

  lemma CalmStop(s: Session)
    requires s.state == Stopped && s.supervised && s.fd > LAST_STANDARD_FD && !s.creating
    ensures var t := Visit(s, CALM.(open := false));
            && t.thread == NoThread && t.openers == s.openers && t.orphans == s.orphans && !t.creating
            && t.earlyCloses == s.earlyCloses + One(Engaged(s))
            && t.state == (if s.kind == ClientConnection || (s.kind == FileCapture && s.iterations == 0)
                           then Unused else Start)
  {
    hide Engaged;
  }

  lemma AdditionOverRunner(s: Session, k: nat)
    requires k < |s.openers| && s.openers[k] == Configured && s.thread != NoThread && !s.creating
    ensures Visit(s, CALM.(first := [Opens(k, Add)])).orphans == s.orphans + 1
  {
    ActsSnoc(s, [], Opens(k, Add));
    assert [] + [Opens(k, Add)] == [Opens(k, Add)];
    hide Visit;
    CalmStart(s, [Opens(k, Add)]);
  }

  /** The second condition: whenever a slot that is not added yet is found closed, a runner can
      be lost. If the stop function asks for a restart, the supervisor starts the session
      by itself, and the late addition makes it start a second runner. */
  lemma LateAdditionLosesRunner(s: Session, k: nat)
    requires Inv(s) && s.state == Stopped && s.supervised && s.fd > LAST_STANDARD_FD
    requires k < |s.openers| && s.openers[k] == Configured
    requires s.kind != ClientConnection && !(s.kind == FileCapture && s.iterations == 0)
    ensures var closed := CALM.(open := false);
            && Visit(s, closed).earlyCloses == s.earlyCloses + 1
            && Visit(Visit(Visit(s, closed), CALM), CALM.(first := [Opens(k, Add)])).orphans == 1
  {
    CalmStop(s);
    assert Engaged(s);
    var s1 := Visit(s, CALM.(open := false));
    hide Visit, Acts;
    RestartedRunner(s1);
    AdditionOverRunner(Visit(s1, CALM), k);
  }

  lemma RestartedRunner(s: Session)
    requires s.state == Start && s.thread == NoThread && !s.creating
    ensures Visit(s, CALM) == s.(state := Starting, counter := 0, thread := Fresh)
  {
    ActsSnoc(s, [], Announce);
    CalmStart(s, []);
    assert CALM.(first := []) == CALM;
    hide Visit;
  }

  /** The addition may also fall between the supervisor's last look at the state and the
      creation of the thread, when the slot has no thread yet. */
  lemma AdditionWhileCreating(s: Session, k: nat)
    requires Inv(s) && s.state == Start && k < |s.openers| && s.openers[k] == Configured
    ensures var t := Visit(s, CALM.(beforeCreate := [Opens(k, Add)]));
            && t.state == Start && t.thread == Fresh && !Inv(t) && t.breaches == s.breaches + 1
            && Visit(t, CALM).orphans == 1
  {
    AddedWhileCreating(s, k);
    var t := Visit(s, CALM.(beforeCreate := [Opens(k, Add)]));
    hide Visit;
    ActsSnoc(t, [], Announce);
    CalmStart(t, []);
    assert CALM.(first := []) == CALM;
  }

  lemma AddedWhileCreating(s: Session, k: nat)
    requires Inv(s) && s.state == Start && k < |s.openers| && s.openers[k] == Configured
    ensures Visit(s, CALM.(beforeCreate := [Opens(k, Add)]))
            == s.(state := Start, counter := 0, thread := Fresh, openers := s.openers[k := Looking],
                  breaches := s.breaches + 1)
  {
    var x := s.(state := Starting, counter := 0, creating := true);
    ActsSnoc(x, [], Opens(k, Add));
    assert [] + [Opens(k, Add)] == [Opens(k, Add)];
  }

  /** Otherwise the stop frees the slot, a second opener takes it, and the late addition of the
      first one makes the supervisor start a second runner. */
  lemma LateAdditionAfterReuse(s: Session, j: nat, k: nat)
    requires Inv(s) && s.state == Stopped && s.supervised && s.fd > LAST_STANDARD_FD
    requires k < |s.openers| && s.openers[k] == Configured
    requires j < |s.openers| && s.openers[j] == Looking
    requires s.kind == ClientConnection || (s.kind == FileCapture && s.iterations == 0)
    ensures var closed := CALM.(open := false);
            && Visit(s, closed).earlyCloses == s.earlyCloses + 1
            && Visit(Visit(Visit(s, closed), CALM.(first := Finish(j, Looking))),
                     CALM.(first := [Opens(k, Add)])).orphans == 1
  {
    CalmStop(s);
    assert Engaged(s);
    var s1 := Visit(s, CALM.(open := false));
    hide Visit, Finish, Acts;
    FinishRuns(s1, j);
    CalmStart(s1, Finish(j, Looking));
    AdditionOverRunner(Visit(s1, CALM.(first := Finish(j, Looking))), k);
  }

  /** The first condition: whenever a second opener finds a slot that another one is still
      taking, the first can add it, and the second clears the slot of a running session. */
  lemma SecondFindLosesRunner(s: Session, j: nat, k: nat)
    requires Inv(s) && s.state == Unused
    requires j < |s.openers| && k < |s.openers| && s.openers[j] in {Found, Wiped} && s.openers[k] == Looking
    ensures var s1 := Act(s, Opens(k, Look));
            && s1.clashes == s.clashes + 1
            && Visit(Visit(s1, CALM.(first := Finish(j, s.openers[j]))),
                     CALM.(first := [Opens(k, Wipe(Merger))])).orphans == 1
  {
    assert Engaged(s);
    var s1 := Act(s, Opens(k, Look));
    assert s1 == s.(openers := s.openers[k := Found], clashes := s.clashes + 1);
    assert CanFinish(s1, j) && s1.openers[j] == s.openers[j];
    hide *;
    SecondClears(s1, j, k);
  }

  lemma SecondClears(s: Session, j: nat, k: nat)
    requires CanFinish(s, j) && j != k && k < |s.openers| && s.openers[k] == Found
    ensures Visit(Visit(s, CALM.(first := Finish(j, s.openers[j]))),
                  CALM.(first := [Opens(k, Wipe(Merger))])).orphans == s.orphans + 1
  {
    FinishRuns(s, j);
    CalmStart(s, Finish(j, s.openers[j]));
    hide Visit, Finish, Acts;
    ClearsRunner(Visit(s, CALM.(first := Finish(j, s.openers[j]))), k);
  }

  /** Also while handling is closing, when the addition falls after the closing supervisor's
      look at the state. */
  lemma SecondFindLosesRunnerClosing(s: Session, j: nat, k: nat)
    requires Inv(s) && s.state == Unused
    requires j < |s.openers| && k < |s.openers| && s.openers[j] in {Found, Wiped} && s.openers[k] == Looking
    ensures var s1 := Act(s, Opens(k, Look));
            var closing := CALM.(closing := true);
            && s1.clashes == s.clashes + 1
            && Visit(Visit(s1, closing.(first := Take(j, s.openers[j]), beforeSwitch := [Opens(j, Add)])),
                     closing.(first := [Opens(k, Wipe(Merger))])).orphans == 1
  {
    assert Engaged(s);
    var s1 := Act(s, Opens(k, Look));
    assert s1 == s.(openers := s.openers[k := Found], clashes := s.clashes + 1);
    var take := Take(j, s.openers[j]);
    var e := CALM.(closing := true, first := take, beforeSwitch := [Opens(j, Add)]);
    TakeRuns(s1, j);
    hide Visit, Acts, Take, Act;
    AddedWhileClosing(s1, j, e);
    ClearsRunnerOf(Visit(s1, e), k, CALM.(closing := true, first := [Opens(k, Wipe(Merger))]));
  }

  /** From having found or cleared a slot to having set its descriptor. */
  function Take(k: nat, pc: Opener): seq<Action> {
    (if pc == Found then [Opens(k, Wipe(Merger))] else []) + [Opens(k, Claim)] + [Opens(k, Configure(0, false, 0))]
  }

  lemma TakeRuns(s: Session, k: nat)
    requires Inv(s) && s.state == Unused && k < |s.openers| && s.openers[k] in {Found, Wiped}
    ensures var t := Acts(s, Take(k, s.openers[k]));
            && t.state == Stopped && !t.supervised && !Manned(t) && t.orphans == s.orphans
            && t.openers == s.openers[k := Configured]
  {
    hide Acts;
    var wipe: seq<Action> := if s.openers[k] == Found then [Opens(k, Wipe(Merger))] else [];
    ActsSnoc(s, [], Opens(k, Wipe(Merger)));
    assert [] + [Opens(k, Wipe(Merger))] == [Opens(k, Wipe(Merger))];
    ActsSnoc(s, wipe, Opens(k, Claim));
    ActsSnoc(s, wipe + [Opens(k, Claim)], Opens(k, Configure(0, false, 0)));
    assert s.openers[k := Wiped][k := Claimed][k := Configured] == s.openers[k := Configured];
  }

  lemma AddedWhileClosing(s: Session, k: nat, e: Interference)
    requires e == CALM.(closing := true, first := e.first, beforeSwitch := [Opens(k, Add)])
    requires var a := Acts(s, e.first);
             && k < |a.openers| && a.openers[k] == Configured && a.state == Stopped && !a.supervised
             && !Manned(a)
    ensures var a := Acts(s, e.first);
            Visit(s, e) == a.(state := Starting, counter := 0, thread := Fresh,
                              openers := a.openers[k := Looking])
  {
    var a := Acts(s, e.first);
    ActsSnoc(a, [], Opens(k, Add));
    assert [] + [Opens(k, Add)] == [Opens(k, Add)];
    assert AtSwitch(a, e) == a.(state := Start, openers := a.openers[k := Looking]);
    StartedBy(AtSwitch(a, e), e);
    hide AtSwitch, Transition;
  }

  lemma StartedBy(s: Session, e: Interference)
    requires s.state == Start && !Manned(s) && e.spawned
    requires e.beforeWrite == e.beforeJoin == e.beforeCreate == []
    ensures Transition(s, e) == s.(state := Starting, counter := 0, thread := Fresh)
  {
  }

  lemma ClearsRunnerOf(s: Session, k: nat, e: Interference)
    requires k < |s.openers| && s.openers[k] == Found && s.thread != NoThread
    requires e.first == [Opens(k, Wipe(Merger))]
    ensures Visit(s, e).orphans == s.orphans + 1
  {
    ActsSnoc(s, [], Opens(k, Wipe(Merger)));
    assert [] + [Opens(k, Wipe(Merger))] == [Opens(k, Wipe(Merger))];
  }

  lemma ClearsRunner(s: Session, k: nat)
    requires k < |s.openers| && s.openers[k] == Found && s.thread != NoThread
    ensures Visit(s, CALM.(first := [Opens(k, Wipe(Merger))])).orphans == s.orphans + 1
  {
    ClearsRunnerOf(s, k, CALM.(first := [Opens(k, Wipe(Merger))]));
    hide Visit;
  }

  /** An opener takes a slot and sets a supervised descriptor, but has not added it yet. */
  function Opening(k: nat, kind: Kind, fd: int): seq<Action> {
    [Opens(k, Look), Opens(k, Wipe(kind)), Opens(k, Claim), Opens(k, Configure(fd, true, 0))]
  }

  lemma OpeningRuns(s: Session, k: nat, kind: Kind, fd: int)
    requires Initial(s) && k < |s.openers|
    ensures Acts(s, Opening(k, kind, fd))
            == Blank(s.openers[k := Configured]).(kind := kind, state := Stopped, fd := fd, supervised := true)
  {
    hide Acts;
    var steps := Opening(k, kind, fd);
    ActsSnoc(s, [], steps[0]);
    ActsSnoc(s, [steps[0]], steps[1]);
    ActsSnoc(s, [steps[0], steps[1]], steps[2]);
    ActsSnoc(s, [steps[0], steps[1], steps[2]], steps[3]);
    assert [] + [steps[0]] == [steps[0]];
    assert [steps[0]] + [steps[1]] == [steps[0], steps[1]];
    assert [steps[0], steps[1]] + [steps[2]] == [steps[0], steps[1], steps[2]];
    assert [steps[0], steps[1], steps[2]] + [steps[3]] == steps;
    assert s.openers[k := Found][k := Wiped][k := Claimed][k := Configured] == s.openers[k := Configured];
  }

  lemma FirstGap(s: Session, e: Interference)
    ensures Visit(s, e) == Visit(Acts(s, e.first), e.(first := []))
  {
    var a, f := Acts(s, e.first), e.(first := []);
    ActsSnoc(a, [], Announce);
    hide Acts;
    SameSwitch(a, e);
    SameTransition(AtSwitch(a, e), e);
    hide AtSwitch, Transition;
  }

  lemma SameSwitch(s: Session, e: Interference)
    ensures AtSwitch(s, e) == AtSwitch(s, e.(first := []))
  {
    hide Acts;
  }

  lemma SameTransition(s: Session, e: Interference)
    ensures Transition(s, e) == Transition(s, e.(first := []))
  {
    hide Acts;
  }

  /** A life with a single opener that loses a runner: the descriptor of a live capture is
      found closed between being set and the slot being added. */
  lemma OneOpenerLosesRunner()
    ensures exists s: Session, es: seq<Interference> ::
              Initial(s) && |s.openers| == 1 && Visits(s, es).orphans == 1
  {
    var s := Blank([Looking]);
    assert Initial(s);
    hide *;
    var e1 := CALM.(open := false, first := Opening(0, LiveCapture, 5));
    var e3 := CALM.(first := [Opens(0, Add)]);
    OneOpenerRun(s);
    ThreeVisits(s, e1, CALM, e3);
    assert Visits(s, [e1, CALM, e3]).orphans == 1;
  }

  lemma OneOpenerRun(s: Session)
    requires Initial(s) && |s.openers| == 1
    ensures Visit(Visit(Visit(s, CALM.(open := false, first := Opening(0, LiveCapture, 5))), CALM),
                  CALM.(first := [Opens(0, Add)])).orphans == 1
  {
    var e1 := CALM.(open := false, first := Opening(0, LiveCapture, 5));
    OpeningRuns(s, 0, LiveCapture, 5);
    FirstGap(s, e1);
    hide Visit, Acts, Opening;
    assert e1.(first := []) == CALM.(open := false);
    LateAdditionLosesRunner(Acts(s, e1.first), 0);
  }

  /** And one with two openers and a client connection, whose slot is freed and taken again. */
  lemma TwoOpenersLoseRunner()
    ensures exists s: Session, es: seq<Interference> ::
              Initial(s) && |s.openers| == 2 && Visits(s, es).orphans == 1
  {
    var s := Blank([Looking, Looking]);
    assert Initial(s);
    hide *;
    var e1 := CALM.(open := false, first := Opening(0, ClientConnection, 7));
    var e2 := CALM.(first := Finish(1, Looking));
    var e3 := CALM.(first := [Opens(0, Add)]);
    TwoOpenersRun(s);
    ThreeVisits(s, e1, e2, e3);
    assert Visits(s, [e1, e2, e3]).orphans == 1;
  }

  lemma TwoOpenersRun(s: Session)
    requires Initial(s) && |s.openers| == 2
    ensures Visit(Visit(Visit(s, CALM.(open := false, first := Opening(0, ClientConnection, 7))),
                        CALM.(first := Finish(1, Looking))), CALM.(first := [Opens(0, Add)])).orphans == 1
  {
    var e1 := CALM.(open := false, first := Opening(0, ClientConnection, 7));
    OpeningRuns(s, 0, ClientConnection, 7);
    FirstGap(s, e1);
    hide Visit, Finish, Acts, Opening;
    assert e1.(first := []) == CALM.(open := false);
    LateAdditionAfterReuse(Acts(s, e1.first), 1, 0);
  }

  lemma ThreeVisits(s: Session, e1: Interference, e2: Interference, e3: Interference)
    ensures Visits(s, [e1, e2, e3]) == Visit(Visit(Visit(s, e1), e2), e3)
  {
    VisitsSnoc(s, [], e1);
    VisitsSnoc(s, [e1], e2);
    VisitsSnoc(s, [e1, e2], e3);
    assert [] + [e1] == [e1] && [e1] + [e2] == [e1, e2] && [e1, e2] + [e3] == [e1, e2, e3];
    hide Visits, Visit;
  }
}
