/** Openers that nobody disturbs: what a visit keeps as long as no two openers meet on a slot
    and no descriptor is found closed that belongs to a slot not added yet. */
module SessionOrder {
  import opened Sessions

  // ----- openers that nobody disturbs

  predicate AtMostOne(s: Session) {
    forall j, k :: 0 <= j < k < |s.openers| ==> s.openers[j] == Looking || s.openers[k] == Looking
  }

  /** The slot is as an opener that got this far left it. */
  predicate InStep(s: Session, pc: Opener) {
    match pc
    case Looking => true
    case Found => s.state == Unused && s.thread == NoThread
    case Wiped => s.state == Unused && s.thread == NoThread && !s.supervised
    case Claimed => s.state == Stopped && s.thread == NoThread && !s.supervised
    case Configured => s.state == Stopped && s.thread == NoThread
  }

  /** At most one opener is engaged, and nobody has interfered with it. */
  predicate Orderly(s: Session) {
    AtMostOne(s) && forall k :: 0 <= k < |s.openers| ==> InStep(s, s.openers[k])
  }

  /** Holds of a slot in use throughout a visit that disturbs no opener. */
  predicate Mid(s: Session) {
    Sound(s) && !s.creating && Orderly(s) && (s.state == Unused ==> !s.supervised)
  }

  lemma OpenOrderly(s: Session, k: nat, step: OpenStep)
    requires Sound(s) && Orderly(s) && k < |s.openers| && Open(s, k, step).clashes == s.clashes
    ensures var t := Open(s, k, step);
            Orderly(t) && t.breaches == s.breaches && (Mid(s) ==> t.state == Unused ==> !t.supervised)
  {
    assert InStep(s, s.openers[k]);
    var t := Open(s, k, step);
    if s.openers[k] == Looking && t != s {
      assert forall j :: 0 <= j < |s.openers| ==> s.openers[j] == Looking;
    } else if s.openers[k] != Looking {
      forall j | 0 <= j < |s.openers| && j != k ensures s.openers[j] == Looking {
      }
    }
  }

  lemma ActOrderly(s: Session, a: Action)
    requires Sound(s) && Orderly(s) && Act(s, a).clashes == s.clashes
    ensures Sound(Act(s, a)) && Orderly(Act(s, a)) && Act(s, a).breaches == s.breaches
    ensures Mid(s) ==> Mid(Act(s, a))
  {
    ActOnward(s, a);
    if a.Opens? {
      if a.k < |s.openers| {
        OpenOrderly(s, a.k, a.step);
      }
    } else {
      assert forall k :: 0 <= k < |s.openers| ==> InStep(s, s.openers[k]);
    }
    hide Open, Sound;
  }

  lemma {:induction false} ActsOrderly(s: Session, actions: seq<Action>)
    requires Sound(s) && Orderly(s) && Acts(s, actions).clashes == s.clashes
    ensures var t := Acts(s, actions);
            Sound(t) && Orderly(t) && t.breaches == s.breaches && (Mid(s) ==> Mid(t))
  {
    if actions != [] {
      var n := |actions| - 1;
      ActsGrow(s, actions[..n]);
      ActOnward(Acts(s, actions[..n]), actions[n]);
      ActsOrderly(s, actions[..n]);
      ActOrderly(Acts(s, actions[..n]), actions[n]);
    }
    hide Sound, Orderly, Act, Mid;
  }

  lemma NotEngaged(s: Session)
    requires Orderly(s) && s.state !in {Unused, Stopped}
    ensures !Engaged(s)
  {
    forall k | 0 <= k < |s.openers| ensures s.openers[k] == Looking {
      assert InStep(s, s.openers[k]);
    }
  }

  lemma NobodyIsOrderly(s: Session)
    requires !Engaged(s)
    ensures Orderly(s)
  {
    assert forall k :: 0 <= k < |s.openers| ==> s.openers[k] == Looking;
  }

  // ----- nobody can engage with a slot in use

  lemma {:induction false} ActsUnengaged(s: Session, actions: seq<Action>)
    requires !Engaged(s) && s.state != Unused
    ensures var t := Acts(s, actions);
            && t.openers == s.openers && !Engaged(t) && t.state != Unused
            && t.breaches == s.breaches && t.clashes == s.clashes
  {
    if actions != [] {
      var n := |actions| - 1;
      ActsUnengaged(s, actions[..n]);
      var m := Acts(s, actions[..n]);
      assert actions[n].Opens? && actions[n].k < |m.openers| ==> m.openers[actions[n].k] == Looking;
    }
  }

  /** t has the openers and counts of s, and no thread if it is free. */
  predicate LeftAlone(s: Session, t: Session) {
    && t.openers == s.openers && t.breaches == s.breaches && (t.state == Unused ==> t.thread == NoThread)
  }

  lemma StopUnengaged(s: Session, e: Interference)
    requires !Engaged(s) && s.state != Unused
    ensures LeftAlone(s, Stop(s, e))
  {
    StopKeeps(s, e);
    ActsUnengaged(s.(thread := NoThread), e.beforeStopper);
    var j := Acts(s.(thread := NoThread), e.beforeStopper);
    hide Acts, Stopper, Sound;
    ActsOnward(s.(thread := NoThread), e.beforeStopper);
    StopperUnengaged(j.kind, Release(j), e);
    StopperKeeps(j.kind, Release(j), e);
    var t := Stopper(j.kind, Release(j), e);
    ActsUnengaged(t, e.beforeFree);
    ActsOnward(t, e.beforeFree);
    var f := Acts(t, e.beforeFree);
    ActsUnengaged(f, e.beforeUnused);
    ActsOnward(f, e.beforeUnused);
  }

  lemma StopperUnengaged(kind: Kind, s: Session, e: Interference)
    requires !Engaged(s) && s.state != Unused
    ensures var t := Stopper(kind, s, e); t.openers == s.openers && t.breaches == s.breaches && !Engaged(t)
  {
    ActsUnengaged(s, e.beforeRead);
    ActsUnengaged(Acts(s, e.beforeRead), e.beforeStopped);
    hide Acts;
  }

  lemma StoppingUnengaged(s: Session, e: Interference)
    requires !Engaged(s) && s.state != Unused
    ensures LeftAlone(s, Stop(Acts(s, e.beforeJoin), e))
  {
    ActsUnengaged(s, e.beforeJoin);
    StopUnengaged(Acts(s, e.beforeJoin), e);
    hide Acts, Stop;
  }

  lemma StartUnengaged(s: Session, e: Interference)
    requires !Engaged(s) && s.state != Unused
    ensures LeftAlone(s, Spawn(Acts(s, e.beforeJoin), e))
  {
    ActsUnengaged(s, e.beforeJoin);
    var t := Acts(s, e.beforeJoin);
    ActsUnengaged(t.(creating := e.spawned), e.beforeCreate);
    hide Acts;
  }

  /** Nobody engages with a slot while the switch handles it. */
  lemma TransitionUnengaged(s: Session, e: Interference)
    requires !Engaged(s) && s.state != Unused
    ensures LeftAlone(s, Transition(s, e))
  {
    ActsUnengaged(s, e.beforeWrite);
    var w := Acts(s, e.beforeWrite);
    hide Acts, Stop, Spawn;
    match s.state
    case Stopped | Running =>
    case Start => StartUnengaged(w.(state := Starting, counter := 0), e);
    case Starting => ActsUnengaged(w, e.beforeJoin);
    case Terminate => StoppingUnengaged(w.(state := Terminating, counter := 0), e);
    case Abort => StoppingUnengaged(w.(state := Aborting, counter := 0), e);
    case Terminating | Aborting => StoppingUnengaged(w.(state := Stopped), e);
  }

  // ----- visits that disturb no opener

  /** Nothing that the two conditions count happens from s to t. */
  predicate Quiet(s: Session, t: Session) {
    t.clashes == s.clashes && t.earlyCloses == s.earlyCloses
  }

  /** A closing supervisor does not order the abort of a slot that was abandoned since it looked
      whether the slot is in use, nor does it find the descriptor closed of one not added yet. */
  predicate Considerate(s: Session, e: Interference) {
    var a := Acts(s, e.first);
    e.closing && a.state != Unused ==>
      && Acts(a, e.beforeTest).state != Unused
      && !FindsClosed(Acts(Ordered(a, e), e.beforeCheck), e)
  }

  /** The descriptor is found closed while an opener is engaged. */
  predicate FindsClosed(s: Session, e: Interference) {
    s.supervised && var d := Acts(s, e.beforeFd); Engaged(d) && d.fd > LAST_STANDARD_FD && !e.open
  }

  lemma OrderedOrderly(s: Session, e: Interference)
    requires Mid(s) && s.state != Unused && (e.closing ==> Acts(s, e.beforeTest).state != Unused)
    ensures Grew(s, Ordered(s, e))
    ensures Ordered(s, e).clashes == s.clashes ==> Mid(Ordered(s, e)) && Ordered(s, e).breaches == s.breaches
  {
    if e.closing {
      ActsGrow(s, e.beforeTest);
      var t := Acts(s, e.beforeTest);
      ActsOnward(t, e.beforeAbort);
      if Ordered(s, e).clashes == s.clashes {
        ActsOrderly(s, e.beforeTest);
        hide Acts;
        if t.state != Stopped && t.state != Aborting {
          NotEngaged(t);
          ActsUnengaged(t, e.beforeAbort);
          NobodyIsOrderly(Ordered(s, e));
        }
      }
    }
  }

  lemma CheckFdOrderly(s: Session, e: Interference)
    requires Mid(s) && PastAbandoning(s)
    requires e.closing && Engaged(s) && s.fd > LAST_STANDARD_FD ==> e.open
    ensures Grew(s, CheckFd(s, e))
    ensures Quiet(s, CheckFd(s, e)) ==> Mid(CheckFd(s, e)) && CheckFd(s, e).breaches == s.breaches
  {
    if s.fd > LAST_STANDARD_FD && !e.open {
      var f := s.(earlyCloses := s.earlyCloses + One(!e.closing && Engaged(s)));
      ActsOnward(f, e.beforeTerminate);
      hide Acts, Orderly, PastAbandoning;
      if !Engaged(s) {
        assert f == s;
        ActsUnengaged(s, e.beforeTerminate);
        NobodyIsOrderly(CheckFd(s, e));
      }
    }
  }

  lemma CheckOrderly(s: Session, e: Interference)
    requires Mid(s) && (e.closing ==> !FindsClosed(s, e))
    ensures Grew(s, CheckDescriptor(s, e))
    ensures Quiet(s, CheckDescriptor(s, e))
            ==> Mid(CheckDescriptor(s, e)) && CheckDescriptor(s, e).breaches == s.breaches
  {
    if s.supervised {
      ActsOnward(s, e.beforeFd);
      SupervisedIsPast(s);
      ActsPastAbandoning(s, e.beforeFd);
      var d := Acts(s, e.beforeFd);
      hide Acts, CheckFd, Mid, Sound, PastAbandoning, Engaged;
      CheckKeepsGrew(d, e);
      if Quiet(s, CheckFd(d, e)) {
        MidParts(s);
        ActsOrderly(s, e.beforeFd);
        CheckFdOrderly(d, e);
      }
    }
  }

  lemma MidParts(s: Session)
    requires Mid(s)
    ensures Sound(s) && Orderly(s)
  {
  }

  lemma CheckKeepsGrew(s: Session, e: Interference)
    ensures Grew(s, CheckFd(s, e)) && CheckFd(s, e).creating == s.creating
  {
    ActsGrow(s.(earlyCloses := s.earlyCloses + One(!e.closing && Engaged(s))), e.beforeTerminate);
    hide Acts, Engaged;
  }

  /** In use, and every engaged opener has set its descriptor, so it cannot abandon any more. */
  predicate PastAbandoning(s: Session) {
    s.state != Unused && forall k :: 0 <= k < |s.openers| ==> s.openers[k] in {Looking, Configured}
  }

  lemma {:induction false} ActsPastAbandoning(s: Session, actions: seq<Action>)
    requires PastAbandoning(s)
    ensures PastAbandoning(Acts(s, actions))
  {
    if actions != [] {
      ActsPastAbandoning(s, actions[..|actions| - 1]);
    }
  }

  lemma SupervisedIsPast(s: Session)
    requires Mid(s) && s.supervised
    ensures PastAbandoning(s)
  {
    assert forall k :: 0 <= k < |s.openers| ==> InStep(s, s.openers[k]);
  }

  lemma AtSwitchOrderly(s: Session, e: Interference)
    requires Mid(s) && s.state != Unused && Quiet(s, AtSwitch(s, e))
    requires e.closing ==> Acts(s, e.beforeTest).state != Unused
                           && !FindsClosed(Acts(Ordered(s, e), e.beforeCheck), e)
    ensures Mid(AtSwitch(s, e)) && AtSwitch(s, e).breaches == s.breaches
  {
    OrderedOrderly(s, e);
    OrderedKeeps(s, e);
    var o := Ordered(s, e);
    ActsOnward(o, e.beforeCheck);
    var b := Acts(o, e.beforeCheck);
    CheckKeeps(b, e);
    ActsGrow(CheckDescriptor(b, e), e.beforeSwitch);
    hide Sound;
    ActsOrderly(o, e.beforeCheck);
    CheckOrderly(b, e);
    ActsOrderly(CheckDescriptor(b, e), e.beforeSwitch);
    hide Acts, Ordered, CheckDescriptor, Orderly;
  }

  lemma TransitionOrderly(s: Session, e: Interference)
    requires Orderly(s)
    ensures Orderly(Transition(s, e)) && Transition(s, e).breaches == s.breaches
  {
    if s.state !in {Unused, Stopped} {
      NotEngaged(s);
      TransitionUnengaged(s, e);
      hide Transition;
      NobodyIsOrderly(Transition(s, e));
    }
    hide Acts, Stop, Orderly;
  }

  /** Such a visit is free of breaches and leaves the openers in step, unless one of the two
      counted things happens in it. */
  lemma VisitKeepsOrder(s: Session, e: Interference)
    requires Inv(s) && Orderly(s) && Considerate(s, e) && Quiet(s, Visit(s, e))
    ensures Orderly(Visit(s, e)) && Visit(s, e).breaches == s.breaches
  {
    ActsOnward(s, e.first);
    var a := Acts(s, e.first);
    ActsKeep(s, e.first);
    hide Acts, Orderly;
    if a.state == Unused {
      ActsOrderly(s, e.first);
    } else {
      hide AtSwitch, Transition, Sound;
      AtSwitchKeeps(a, e);
      var c := AtSwitch(a, e);
      TransitionGrows(c, e);
      ActsOrderly(s, e.first);
      AtSwitchOrderly(a, e);
      TransitionOrderly(c, e);
    }
  }
}
