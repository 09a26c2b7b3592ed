/** The table of session slots and the supervisor's loop over it, updated in place. */
module SessionTable {
  import opened Sessions
  import opened SessionShutdown

  /** The invariant of a slot, short of a breach. */
  predicate Whole(s: Session) {
    !s.creating && (s.breaches == 0 ==> Inv(s))
  }

  /** A visit counts a slot when its first look finds it in use. */
  predicate Used(s: Session, e: Interference) {
    Acts(s, e.first).state != Unused
  }

  function UsedCount(ss: seq<Session>, es: seq<Interference>): (n: nat)
    requires |ss| == |es|
    ensures n == 0 <==> forall i :: 0 <= i < |ss| ==> !Used(ss[i], es[i])
  {
    if ss == [] then 0
    else
      var n := |ss| - 1;
      UsedCount(ss[..n], es[..n]) + if Used(ss[n], es[n]) then 1 else 0
  }

  lemma UsedCountStep(ss: seq<Session>, es: seq<Interference>, i: nat)
    requires i < |ss| == |es|
    ensures UsedCount(ss[..i + 1], es[..i + 1])
            == UsedCount(ss[..i], es[..i]) + if Used(ss[i], es[i]) then 1 else 0
    ensures UsedCount(ss[..0], es[..0]) == 0
  {
    assert ss[..i + 1][..i] == ss[..i] && es[..i + 1][..i] == es[..i];
  }

  /** The slots found in use. */
  ghost function InUse(ss: seq<Session>, es: seq<Interference>): (r: set<int>)
    requires |ss| == |es|
    ensures forall i :: i in r <==> 0 <= i < |ss| && Used(ss[i], es[i])
  {
    set i | 0 <= i < |ss| && Used(ss[i], es[i])
  }

  /** The count is the number of slots found in use. */
  lemma {:induction false} UsedCountIs(ss: seq<Session>, es: seq<Interference>)
    requires |ss| == |es|
    ensures UsedCount(ss, es) == |InUse(ss, es)|
  {
    if ss == [] {
      hide InUse, Used;
      assert InUse(ss, es) == {};
      return;
    }
    var n := |ss| - 1;
    assert UsedCount(ss, es) == UsedCount(ss[..n], es[..n]) + if Used(ss[n], es[n]) then 1 else 0;
    hide Used, UsedCount, InUse;
    UsedCountIs(ss[..n], es[..n]);
    InUseStep(ss, es);
  }

  lemma InUseStep(ss: seq<Session>, es: seq<Interference>)
    requires |ss| == |es| && ss != []
    ensures var n := |ss| - 1;
            |InUse(ss, es)| == |InUse(ss[..n], es[..n])| + if Used(ss[n], es[n]) then 1 else 0
  {
    hide Used, InUse;
    var n := |ss| - 1;
    var low, all := InUse(ss[..n], es[..n]), InUse(ss, es);
    forall i ensures i in low <==> i in all && i != n {
      if 0 <= i < n {
        assert ss[..n][i] == ss[i] && es[..n][i] == es[i];
      }
    }
    assert n !in low && (if n in all then all == low + {n} else all == low);
  }

  /** Free after three closing visits, told from where the first two leave the session. */
  predicate FreedByThird(s: Session, e1: Interference, e2: Interference, e3: Interference) {
    !Stale(Visit(Visit(s, e1), e2)) || e3.open
  }

  /** The slot after the first n of three visits. */
  function Came(s: Session, e1: Interference, e2: Interference, e3: Interference, n: nat): Session {
    if n == 0 then s
    else if n == 1 then Visit(s, e1)
    else if n == 2 then Visit(Visit(s, e1), e2)
    else Visit(Visit(Visit(s, e1), e2), e3)
  }

  lemma CameStep(s: Session, e1: Interference, e2: Interference, e3: Interference, n: nat)
    ensures Came(s, e1, e2, e3, 0) == s
    ensures n < 3 ==> Came(s, e1, e2, e3, n + 1)
                      == Visit(Came(s, e1, e2, e3, n), if n == 0 then e1 else if n == 1 then e2 else e3)
  {
    hide Visit;
  }

  lemma UsedAlone(s: Session, e: Interference)
    requires s.openers == [] && s.breaches == 0 && Inv(s)
    ensures Used(s, e) <==> s.state != Unused
    ensures s.state == Unused ==> s.thread == NoThread
  {
    ActsProgress(s, e.first);
    hide Acts;
  }

  /** Once free, a slot stays free; what is in use after three visits was left stale. */
  lemma CameIff(s: Session, e1: Interference, e2: Interference, e3: Interference, n: nat, e: Interference)
    requires Stage(s, 0) && e1.closing && e2.closing && e3.closing && n <= 3
    ensures var t := Came(s, e1, e2, e3, n);
            && (!Used(t, e) ==> FreedByThird(s, e1, e2, e3)
                                && Visit(t, e).state == Unused && Visit(t, e).thread == NoThread)
            && (n == 3 && Used(t, e) ==> !FreedByThird(s, e1, e2, e3))
  {
    ShutdownIff(s, e1, e2, e3);
    VisitAlone(s, e1);
    var s1 := Visit(s, e1);
    VisitAlone(s1, e2);
    var s2 := Visit(s1, e2);
    VisitAlone(s2, e3);
    var t := Came(s, e1, e2, e3, n);
    hide Visit, Used, Inv, Stale;
    UsedAlone(t, e);
    VisitAlone(t, e);
  }

  class Table {
    const sessions: array<Session>

    ghost predicate Valid()
      reads this, sessions
    {
      sessions.Length == MAX_SESSIONS && forall i :: 0 <= i < MAX_SESSIONS ==> Whole(sessions[i])
    }

    constructor (openers: nat)
      ensures Valid() && fresh(sessions)
      ensures sessions.Length == 128
      ensures forall i :: 0 <= i < MAX_SESSIONS ==>
                && sessions[i].state == Unused && sessions[i].thread == NoThread
                && sessions[i].fd == 0 && !sessions[i].supervised
                && sessions[i].counter == 0 && sessions[i].iterations == 0
                && sessions[i].breaches == 0 && sessions[i].openers == seq(openers, _ => Looking)
    {
      var pcs := seq(openers, _ => Looking);
      sessions := new Session[MAX_SESSIONS](_ => Blank(pcs));
    }

    /** The search of opener k: it stops at the first free slot, and fails exactly when there
        is none. By the time it takes the slot it may not be free any more. */
    method FindFree(k: nat) returns (found: bool, id: nat)
      requires Valid()
      requires forall i :: 0 <= i < MAX_SESSIONS ==>
                 k < |sessions[i].openers| && sessions[i].openers[k] == Looking
      modifies sessions
      ensures Valid() && id <= MAX_SESSIONS && (found <==> id < MAX_SESSIONS)
      ensures forall i :: 0 <= i < id ==> old(sessions[i]).state != Unused
      ensures found ==>
                && old(sessions[id]).state == Unused
                && k < |sessions[id].openers| && sessions[id].openers[k] == Found
                && sessions[..] == old(sessions[..])[id := Open(old(sessions[id]), k, Look)]
      ensures !found ==> sessions[..] == old(sessions[..])
    {
      id := 0;
      while id < MAX_SESSIONS
        invariant id <= MAX_SESSIONS
        invariant forall i :: 0 <= i < id ==> sessions[i].state != Unused
      {
        if sessions[id].state == Unused {
          break;
        }
        id := id + 1;
      }
      found := id < MAX_SESSIONS;
      if found {
        sessions[id] := Open(sessions[id], k, Look);
      }
    }

    /** Clears the slot that was found and marks it stopped, whatever it has become; that is
        harmless exactly when it has no thread. */
    method TakeSlot(k: nat, id: nat, kind: Kind)
      requires Valid() && id < MAX_SESSIONS
      requires k < |sessions[id].openers| && sessions[id].openers[k] == Found
      modifies sessions
      ensures Valid()
      ensures sessions[..] == old(sessions[..])[id := Open(Open(old(sessions[id]), k, Wipe(kind)), k, Claim)]
      ensures sessions[id].state == Stopped && sessions[id].openers[k] == Claimed
      ensures sessions[id].breaches == old(sessions[id]).breaches <==> old(sessions[id]).thread == NoThread
    {
      sessions[id] := Open(sessions[id], k, Wipe(kind));
      sessions[id] := Open(sessions[id], k, Claim);
    }

    /** Both, with nothing in between. */
    method GetNew(k: nat, kind: Kind) returns (found: bool, id: nat)
      requires Valid()
      requires forall i :: 0 <= i < MAX_SESSIONS ==>
                 k < |sessions[i].openers| && sessions[i].openers[k] == Looking
      modifies sessions
      ensures Valid() && id <= MAX_SESSIONS && (found <==> id < MAX_SESSIONS)
      ensures forall i :: 0 <= i < id ==> old(sessions[i]).state != Unused
      ensures forall i :: 0 <= i < MAX_SESSIONS && i != id ==> sessions[i] == old(sessions[i])
      ensures found ==>
                && old(sessions[id]).state == Unused
                && sessions[id].state == Stopped && sessions[id].kind == kind
                && k < |sessions[id].openers| && sessions[id].openers[k] == Claimed
                && (old(sessions[id]).breaches == 0 ==> sessions[id].breaches == 0)
    {
      found, id := FindFree(k);
      if found {
        TakeSlot(k, id, kind);
      }
    }

    /** Hands a slot to supervision; the identifier is checked, the slot's state is not. */
    method Add(k: nat, id: int) returns (ok: bool)
      requires Valid()
      requires 0 <= id < MAX_SESSIONS ==> k < |sessions[id].openers|
      modifies sessions
      ensures Valid()
      ensures ok <==> 0 <= id < MAX_SESSIONS
      ensures !ok ==> sessions[..] == old(sessions[..])
      ensures ok ==> sessions[..] == old(sessions[..])[id := Written(old(sessions[id]), k, Start, Looking)]
      ensures ok && Inv(old(sessions[id])) ==> (Inv(sessions[id]) <==> old(sessions[id]).thread == NoThread)
      ensures ok ==> (sessions[id].breaches == old(sessions[id]).breaches
                      <==> old(sessions[id]).thread == NoThread)
    {
      ok := 0 <= id < MAX_SESSIONS;
      if ok {
        sessions[id] := Written(sessions[id], k, Start, Looking);
      }
    }

    method ChangeState(id: nat, state: State)
      requires id < sessions.Length
      modifies sessions
      ensures sessions[..] == old(sessions[..])[id := old(sessions[id]).(state := state)]
    {
      sessions[id] := sessions[id].(state := state);
    }

    /** The other threads' steps in one gap. */
    method OthersAct(id: nat, actions: seq<Action>)
      requires id < sessions.Length
      modifies sessions
      ensures sessions[..] == old(sessions[..])[id := Acts(old(sessions[id]), actions)]
    {
      for n := 0 to |actions|
        invariant sessions[..] == old(sessions[..])[id := Acts(old(sessions[id]), actions[..n])]
      {
        assert actions[..n + 1][..n] == actions[..n];
        sessions[id] := Act(sessions[id], actions[n]);
      }
      assert actions[..|actions|] == actions;
    }

    method StartSession(id: nat, e: Interference)
      requires id < sessions.Length
      modifies sessions
      ensures sessions[..] == old(sessions[..])[id := Spawn(old(sessions[id]), e)]
    {
      hide Acts;
      if sessions[id].state != Starting {
        return;
      }
      sessions[id] := sessions[id].(creating := e.spawned);
      OthersAct(id, e.beforeCreate);
      sessions[id] := sessions[id].(creating := false);
      if e.spawned {
        var s := sessions[id];
        sessions[id] := s.(thread := Fresh, orphans := s.orphans + Present(s.thread));
      }
    }

    method CallStopper(id: nat, kind: Kind, e: Interference)
      requires id < sessions.Length
      modifies sessions
      ensures sessions[..] == old(sessions[..])[id := Stopper(kind, old(sessions[id]), e)]
    {
      hide Acts;
      OthersAct(id, e.beforeRead);
      var outcome := Outcome(kind, sessions[id]);
      OthersAct(id, e.beforeStopped);
      ChangeState(id, outcome);
    }

    method StopSession(id: nat, e: Interference)
      requires id < sessions.Length
      modifies sessions
      ensures sessions[..] == old(sessions[..])[id := Stop(old(sessions[id]), e)]
    {
      hide Acts, Stopper, Release;
      if sessions[id].thread != NoThread {
        sessions[id] := sessions[id].(thread := NoThread);
      }
      OthersAct(id, e.beforeStopper);
      var kind := sessions[id].kind;
      sessions[id] := Release(sessions[id]);
      CallStopper(id, kind, e);
      OthersAct(id, e.beforeFree);
      if sessions[id].state == Stopped {
        OthersAct(id, e.beforeUnused);
        ChangeState(id, Unused);
      }
    }

    method TransitionSession(id: nat, e: Interference)
      requires id < sessions.Length
      modifies sessions
      ensures sessions[..] == old(sessions[..])[id := Transition(old(sessions[id]), e)]
    {
      hide Acts, Stop, Spawn;
      match sessions[id].state
      case Unused | Stopped | Running =>
      case Start =>
        OthersAct(id, e.beforeWrite);
        sessions[id] := sessions[id].(state := Starting, counter := 0);
        OthersAct(id, e.beforeJoin);
        StartSession(id, e);
      case Starting =>
        OthersAct(id, e.beforeWrite);
        if sessions[id].counter >= TRANSITION_INTERVALS {
          OthersAct(id, e.beforeJoin);
          ChangeState(id, Terminate);
        } else {
          sessions[id] := sessions[id].(counter := sessions[id].counter + 1);
        }
      case Terminate =>
        BeginStop(id, Terminating, e);
      case Abort =>
        BeginStop(id, Aborting, e);
      case Terminating | Aborting =>
        OthersAct(id, e.beforeWrite);
        if sessions[id].counter >= TRANSITION_INTERVALS {
          ChangeState(id, Stopped);
          OthersAct(id, e.beforeJoin);
          StopSession(id, e);
        } else {
          sessions[id] := sessions[id].(counter := sessions[id].counter + 1);
        }
    }

    method BeginStop(id: nat, state: State, e: Interference)
      requires id < sessions.Length
      modifies sessions
      ensures var w := Acts(old(sessions[id]), e.beforeWrite).(state := state, counter := 0);
              sessions[..] == old(sessions[..])[id := Stop(Acts(w, e.beforeJoin), e)]
    {
      hide Acts, Stop;
      OthersAct(id, e.beforeWrite);
      sessions[id] := sessions[id].(state := state, counter := 0);
      OthersAct(id, e.beforeJoin);
      StopSession(id, e);
    }

    /** The body of the supervisor's loop, with the other threads' steps in its gaps. */
    method VisitSession(id: nat, e: Interference) returns (used: bool)
      requires id < sessions.Length
      modifies sessions
      ensures sessions[..] == old(sessions[..])[id := Visit(old(sessions[id]), e)]
      ensures used == Used(old(sessions[id]), e)
    {
      hide Acts, Transition, CheckDescriptor, Ordered;
      OthersAct(id, e.first);
      if sessions[id].state == Unused {
        return false;
      }
      TestClosing(id, e);
      OthersAct(id, e.beforeCheck);
      TestDescriptor(id, e);
      OthersAct(id, e.beforeSwitch);
      TransitionSession(id, e);
      used := true;
    }

    method TestClosing(id: nat, e: Interference)
      requires id < sessions.Length
      modifies sessions
      ensures sessions[..] == old(sessions[..])[id := Ordered(old(sessions[id]), e)]
    {
      hide Acts;
      if e.closing {
        OthersAct(id, e.beforeTest);
        if sessions[id].state != Stopped && sessions[id].state != Aborting {
          OthersAct(id, e.beforeAbort);
          ChangeState(id, Abort);
        }
      }
    }

    method TestDescriptor(id: nat, e: Interference)
      requires id < sessions.Length
      modifies sessions
      ensures sessions[..] == old(sessions[..])[id := CheckDescriptor(old(sessions[id]), e)]
    {
      hide Acts, Engaged;
      if sessions[id].supervised {
        OthersAct(id, e.beforeFd);
        if sessions[id].fd > LAST_STANDARD_FD {
          if !e.open {
            var s := sessions[id];
            sessions[id] := s.(earlyCloses := s.earlyCloses + One(!e.closing && Engaged(s)));
            OthersAct(id, e.beforeTerminate);
            ChangeState(id, Terminate);
          }
        }
      }
    }

    /** One pass of the supervisor over the table. */
    method SupervisePass(es: seq<Interference>) returns (sessionCount: nat)
      requires Valid() && |es| == MAX_SESSIONS
      modifies sessions
      ensures Valid()
      ensures forall i :: 0 <= i < MAX_SESSIONS ==> sessions[i] == Visit(old(sessions[i]), es[i])
      ensures sessionCount == UsedCount(old(sessions[..]), es)
    {
      hide Visit, Inv, UsedCount, Used;
      ghost var was := sessions[..];
      sessionCount := 0;
      UsedCountStep(was, es, 0);
      for i := 0 to MAX_SESSIONS
        invariant forall k :: 0 <= k < MAX_SESSIONS ==> Whole(sessions[k])
        invariant forall k :: 0 <= k < i ==> sessions[k] == Visit(was[k], es[k])
        invariant forall k :: i <= k < MAX_SESSIONS ==> sessions[k] == was[k]
        invariant sessionCount == UsedCount(was[..i], es[..i])
      {
        VisitKeepsInv(sessions[i], es[i]);
        UsedCountStep(was, es, i);
        var used := VisitSession(i, es[i]);
        if used {
          sessionCount := sessionCount + 1;
        }
      }
      assert was[..MAX_SESSIONS] == was && es[..MAX_SESSIONS] == es;
    }

    /** The supervisor's loop once handling is closing and every slot was added: it has ended
        after four passes, with every slot free, exactly when each session was not left stale by
        the first two passes or was found open by the third. */
    method SuperviseToEnd(passes: seq<seq<Interference>>) returns (ended: bool)
      requires Valid() && |passes| == 4
      requires forall k :: 0 <= k < 4 ==>
                 |passes[k]| == MAX_SESSIONS && forall i :: 0 <= i < MAX_SESSIONS ==> passes[k][i].closing
      requires forall i :: 0 <= i < MAX_SESSIONS ==> Stage(sessions[i], 0)
      modifies sessions
      ensures ended <==> forall i :: 0 <= i < MAX_SESSIONS ==>
                FreedByThird(old(sessions[i]), passes[0][i], passes[1][i], passes[2][i])
      ensures ended ==> forall i :: 0 <= i < MAX_SESSIONS ==>
                sessions[i].state == Unused && sessions[i].thread == NoThread
    {
      hide Visit, Inv, UsedCount, Used, Stage, FreedByThird, Came;
      ghost var was := sessions[..];
      var n := 0;
      ended := false;
      forall i | 0 <= i < MAX_SESSIONS
        ensures Came(was[i], passes[0][i], passes[1][i], passes[2][i], 0) == was[i] {
        CameStep(was[i], passes[0][i], passes[1][i], passes[2][i], 0);
      }
      while n < 4 && !ended
        invariant 0 <= n <= 4 && Valid()
        invariant !ended && n <= 3 ==> forall i :: 0 <= i < MAX_SESSIONS ==>
                    sessions[i] == Came(was[i], passes[0][i], passes[1][i], passes[2][i], n)
        invariant ended ==> forall i :: 0 <= i < MAX_SESSIONS ==>
                    && sessions[i].state == Unused && sessions[i].thread == NoThread
                    && FreedByThird(was[i], passes[0][i], passes[1][i], passes[2][i])
        invariant n == 4 && !ended ==> !(forall i :: 0 <= i < MAX_SESSIONS ==>
                    FreedByThird(was[i], passes[0][i], passes[1][i], passes[2][i]))
        decreases 4 - n
      {
        ghost var here := sessions[..];
        forall i | 0 <= i < MAX_SESSIONS
          ensures n < 3 ==> Visit(here[i], passes[n][i])
                            == Came(was[i], passes[0][i], passes[1][i], passes[2][i], n + 1)
          ensures !Used(here[i], passes[n][i]) ==>
                    && Visit(here[i], passes[n][i]).state == Unused
                    && Visit(here[i], passes[n][i]).thread == NoThread
                    && FreedByThird(was[i], passes[0][i], passes[1][i], passes[2][i])
          ensures n == 3 && Used(here[i], passes[n][i]) ==>
                    !FreedByThird(was[i], passes[0][i], passes[1][i], passes[2][i])
        {
          CameStep(was[i], passes[0][i], passes[1][i], passes[2][i], n);
          CameIff(was[i], passes[0][i], passes[1][i], passes[2][i], n, passes[n][i]);
        }
        var sessionCount := SupervisePass(passes[n]);
        ended := sessionCount == 0;
        n := n + 1;
        if !ended {
          ghost var i :| 0 <= i < MAX_SESSIONS && Used(here[i], passes[n - 1][i]);
          assert n == 4 ==> !FreedByThird(was[i], passes[0][i], passes[1][i], passes[2][i]);
        }
      }
    }
  }
}
