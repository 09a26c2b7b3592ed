/** What visits, runners and openers do to a slot, told by the slot's fields alone. */
module SessionVisits {
  import opened Sessions
  import opened SessionShutdown

  // ----- a visit in which nobody else acts

  predicate Calm(e: Interference) {
    e == CALM.(closing := e.closing, open := e.open, spawned := e.spawned)
  }

  /** The descriptor after a stop: closed and forgotten by every kind but the captures. */
  function FdAfterStop(kind: Kind, fd: int): int {
    match kind
    case ClientConnection | Merger | Client => 0
    case Server => if fd > 0 then 0 else fd
    case LiveCapture | FileCapture => fd
  }

  /** Sessions that are not restarted even if nobody aborts them. */
  predicate EndsForGood(kind: Kind, iterations: int) {
    kind == ClientConnection || (kind == FileCapture && iterations == 0)
  }

  /** Nothing but the state, the thread and the descriptor changes in a stop. */
  lemma StopIs(s: Session, e: Interference)
    requires s.openers == []
    ensures Stop(s, e) == s.(thread := NoThread, fd := FdAfterStop(s.kind, s.fd),
                             state := if s.state == Aborting || EndsForGood(s.kind, s.iterations)
                                      then Unused else Start)
  {
    StopAlone(s, e);
    hide Stop;
  }

  /** The whole of a calm visit to a slot that no opener is engaged with. A descriptor that is
      found closed leads to a stop, and so do the close and a state TERMINATE; the stop is an
      abort if handling is closing and the descriptor was not found closed. Otherwise a waiting
      session is started, a starting one counted or given up, and a running one left alone. */
  lemma CalmVisit(s: Session, e: Interference)
    requires Inv(s) && s.openers == [] && Calm(e)
    ensures var t := Visit(s, e);
            var closed := s.supervised && s.fd > 2 && !e.open;
            var aborted := e.closing && !closed && s.state != Stopped;
            if s.state == Unused || (s.state == Stopped && !closed) then t == s
            else if e.closing || closed || s.state == Terminate then
              t == s.(thread := NoThread, fd := FdAfterStop(s.kind, s.fd), counter := 0,
                      state := if aborted || EndsForGood(s.kind, s.iterations) then Unused else Start)
            else
              match s.state
              case Start =>
                t == s.(state := Starting, counter := 0, thread := if e.spawned then Fresh else NoThread)
              case Starting =>
                t == if s.counter >= 10 then s.(state := Terminate) else s.(counter := s.counter + 1)
              case _ => s.state == Running && t == s
  {
    ActsNothing(s);
    if s.state != Unused {
      CalmSwitch(s, e);
      hide AtSwitch, Transition, Acts;
      CalmTransition(AtSwitch(s, e), e);
    }
  }

  lemma ActsNothing(s: Session)
    ensures Acts(s, []) == s
  {
  }

  lemma CalmSwitch(s: Session, e: Interference)
    requires Inv(s) && s.openers == [] && Calm(e)
    ensures var closed := s.supervised && s.fd > 2 && !e.open;
            AtSwitch(s, e) == if closed then s.(state := Terminate)
                              else if e.closing && s.state != Stopped then s.(state := Abort) else s
  {
    ActsNothing(s);
    ActsNothing(s.(state := Abort));
    var o := Ordered(s, e);
    CheckFdAlone(o, e);
    ActsNothing(o.(state := Terminate));
    hide Acts, CheckFd;
  }

  /** What a calm visit does once it has read the state, also in the states that no slot is
      ever found in. */
  lemma CalmTransition(s: Session, e: Interference)
    requires s.openers == [] && Calm(e) && !s.creating
    requires s.state == Start ==> s.thread == NoThread
    ensures var t := Transition(s, e);
            match s.state
            case Start =>
              t == s.(state := Starting, counter := 0, thread := if e.spawned then Fresh else NoThread)
            case Starting =>
              t == if s.counter >= 10 then s.(state := Terminate) else s.(counter := s.counter + 1)
            case Terminate | Abort =>
              t == s.(thread := NoThread, fd := FdAfterStop(s.kind, s.fd), counter := 0,
                      state := if s.state == Abort || EndsForGood(s.kind, s.iterations) then Unused else Start)
            case Terminating | Aborting =>
              t == if s.counter < 10 then s.(counter := s.counter + 1)
                   else s.(thread := NoThread, fd := FdAfterStop(s.kind, s.fd),
                           state := if EndsForGood(s.kind, s.iterations) then Unused else Start)
            case Unused | Stopped | Running => t == s
  {
    ActsNothing(s);
    match s.state
    case Start =>
      var x := s.(state := Starting, counter := 0);
      ActsNothing(x);
      ActsNothing(x.(creating := e.spawned));
    case Terminate =>
      var x := s.(state := Terminating, counter := 0);
      ActsNothing(x);
      StopIs(x, e);
    case Abort =>
      var x := s.(state := Aborting, counter := 0);
      ActsNothing(x);
      StopIs(x, e);
    case Terminating | Aborting =>
      ActsNothing(s.(state := Stopped));
      StopIs(s.(state := Stopped), e);
    case _ =>
    hide Acts, Stop;
  }

  /** A running session is left alone by a calm, open supervisor exactly when its descriptor is
      not supervised, is a standard one, or is found open. */
  lemma RunningIsLeftAloneIff(s: Session, e: Interference)
    requires Inv(s) && s.openers == [] && Calm(e) && !e.closing && s.state == Running
    ensures Visit(s, e) == s <==> !s.supervised || s.fd <= 2 || e.open
  {
    CalmVisit(s, e);
    hide Visit;
  }

  // ----- a descriptor that is found closed

  /** A session whose runner has announced itself, or that has none, is stopped by a visit that
      finds its descriptor closed, whatever the runner does afterwards in that visit. */
  lemma FoundClosedStops(s: Session, e: Interference)
    requires Inv(s) && s.openers == [] && s.state != Unused && s.thread != Fresh
    requires s.supervised && s.fd > 2 && !e.open && !e.closing
    requires Steady(e.first) && Steady(e.beforeCheck) && Steady(e.beforeFd)
    ensures var t := Visit(s, e);
            && t.thread == NoThread && t.kind == s.kind && t.counter == 0
            && t.state == (if EndsForGood(t.kind, t.iterations) then Unused else Start)
            && (t.kind in {ClientConnection, Merger, Client} ==> t.fd == 0)
  {
    SteadyStep(s, e.first);
    ActsProgress(s, e.first);
    var a := Acts(s, e.first);
    SteadyStep(a, e.beforeCheck);
    ActsProgress(a, e.beforeCheck);
    var b := Acts(a, e.beforeCheck);
    SteadyStep(b, e.beforeFd);
    ActsProgress(b, e.beforeFd);
    hide Acts, Transition, CheckFd, Steady;
    var d := Acts(b, e.beforeFd);
    ClosedToTerminate(d, e);
    var c := Acts(CheckFd(d, e), e.beforeSwitch);
    assert Visit(s, e) == Transition(c, e);
    TerminateToStop(c, e);
  }

  lemma ClosedToTerminate(s: Session, e: Interference)
    requires s.openers == [] && s.thread != Fresh && s.fd > 2 && !e.open
    ensures var c := Acts(CheckFd(s, e), e.beforeSwitch);
            c.state == Terminate && c.openers == [] && c.kind == s.kind && c.thread != Fresh
  {
    CheckFdAlone(s, e);
    ActsProgress(s, e.beforeTerminate);
    ActsProgress(CheckFd(s, e), e.beforeSwitch);
    hide Acts, CheckFd;
  }

  lemma TerminateToStop(s: Session, e: Interference)
    requires s.openers == [] && s.state == Terminate && s.thread != Fresh
    ensures var t := Transition(s, e);
            && t.thread == NoThread && t.kind == s.kind && t.counter == 0
            && t.state == (if EndsForGood(t.kind, t.iterations) then Unused else Start)
            && (t.kind in {ClientConnection, Merger, Client} ==> t.fd == 0)
  {
    ActsProgress(s, e.beforeWrite);
    var x := Acts(s, e.beforeWrite).(state := Terminating, counter := 0);
    ActsProgress(x, e.beforeJoin);
    StopIs(Acts(x, e.beforeJoin), e);
    hide Acts, Stop;
  }

  // ----- what runners and openers write

  lemma ActsTwo(s: Session, a: Action, b: Action)
    ensures Acts(s, [a, b]) == Act(Act(s, a), b)
  {
    ActsOne(s, a);
    ActsSnoc(s, [a], b);
    assert [a] + [b] == [a, b];
  }

  lemma ActsThree(s: Session, a: Action, b: Action, c: Action)
    ensures Acts(s, [a, b, c]) == Act(Act(Act(s, a), b), c)
  {
    ActsTwo(s, a, b);
    ActsSnoc(s, [a, b], c);
    assert [a, b] + [c] == [a, b, c];
  }

  /** The life of a runner: it marks the session running, its descriptor reaches the slot, and
      it leaves TERMINATE behind, or just ends. */
  lemma RunnerLife(s: Session, fd: int, supervised: bool, iterations: int)
    requires s.thread == Fresh
    ensures var wired := s.(state := Running, thread := Active, fd := fd, supervised := supervised,
                            iterations := iterations);
            && Acts(s, [Announce]) == s.(state := Running, thread := Active)
            && Acts(s, [Announce, Rewire(fd, supervised, iterations)]) == wired
            && Acts(s, [Announce, Rewire(fd, supervised, iterations), Fail])
               == wired.(state := Terminate, thread := Done)
            && Acts(s, [Announce, Rewire(fd, supervised, iterations), Finish]) == wired.(thread := Done)
  {
    var r := Rewire(fd, supervised, iterations);
    ActsOne(s, Announce);
    ActsTwo(s, Announce, r);
    ActsThree(s, Announce, r, Fail);
    ActsThree(s, Announce, r, Finish);
  }

  /** The last descriptor that a running session's runner writes is the one that counts. */
  lemma {:induction false} LastRewireCounts(s: Session, actions: seq<Action>)
    requires s.thread == Active && actions != [] && forall i :: 0 <= i < |actions| ==> actions[i].Rewire?
    ensures var r := actions[|actions| - 1];
            Acts(s, actions) == s.(fd := r.fd, supervised := r.supervised, iterations := r.iterations)
  {
    var n := |actions| - 1;
    if n == 0 {
      ActsOne(s, actions[0]);
      assert actions == [actions[0]];
    } else {
      LastRewireCounts(s, actions[..n]);
    }
  }

  /** The life of an opener on a free slot: cleared and marked stopped; then abandoned, which
      frees it again, or given a descriptor, as often as it likes, and added. */
  lemma OpenerLife(s: Session, k: nat, kind: Kind, fd0: int, fd: int, supervised: bool, iterations: int)
    requires k < |s.openers| && s.openers[k] == Looking && s.state == Unused && !Manned(s) && !Engaged(s)
    ensures var taken := s.(kind := kind, state := Stopped, fd := 0, supervised := false, counter := 0,
                            iterations := 0, openers := s.openers[k := Claimed]);
            var t := Act(Act(Act(s, Opens(k, Look)), Opens(k, Wipe(kind))), Opens(k, Claim));
            var wired := Act(Act(t, Opens(k, Configure(fd0, false, 0))),
                             Opens(k, Configure(fd, supervised, iterations)));
            && t == taken
            && Act(t, Opens(k, Abandon)) == taken.(state := Unused, openers := s.openers)
            && wired == taken.(fd := fd, supervised := supervised, iterations := iterations,
                             openers := s.openers[k := Configured])
            && Act(wired, Opens(k, Add)) == wired.(state := Start, openers := s.openers)
  {
    assert s.openers[k := Found][k := Wiped][k := Claimed] == s.openers[k := Claimed];
    assert s.openers[k := Claimed][k := Configured] == s.openers[k := Configured];
    assert s.openers[k := Claimed][k := Looking] == s.openers;
    assert s.openers[k := Configured][k := Looking] == s.openers;
    hide Engaged;
  }

  // ----- no gap is idle

  /** A write that any opener may make while the supervisor is busy with the slot. */
  const MARK := Opens(0, Configure(5, true, 7))

  predicate Sparse(g: seq<Action>) {
    g == [] || g == [MARK]
  }

  predicate SparseVisit(e: Interference) {
    && Sparse(e.first) && Sparse(e.beforeTest) && Sparse(e.beforeAbort) && Sparse(e.beforeCheck)
    && Sparse(e.beforeFd) && Sparse(e.beforeTerminate) && Sparse(e.beforeSwitch)
    && Sparse(e.beforeWrite) && Sparse(e.beforeJoin) && Sparse(e.beforeStopper) && Sparse(e.beforeRead)
    && Sparse(e.beforeStopped) && Sparse(e.beforeFree) && Sparse(e.beforeUnused)
  }

  /** Some gap holds the write. */
  predicate Marked(e: Interference) {
    [MARK] in {e.first, e.beforeTest, e.beforeAbort, e.beforeCheck, e.beforeFd, e.beforeTerminate,
               e.beforeSwitch, e.beforeWrite, e.beforeJoin, e.beforeStopper, e.beforeRead,
               e.beforeStopped, e.beforeFree, e.beforeUnused}
  }

  lemma ActsSparse(s: Session, g: seq<Action>)
    requires s.openers == [Configured] && Sparse(g)
    ensures Acts(s, g) == if g == [] then s else s.(fd := 5, supervised := true, iterations := 7)
  {
    ActsNothing(s);
    ActsOne(s, MARK);
  }

  /** A running client connection on a slot that an opener still writes to, found closed by a
      closing supervisor: the visit passes every gap but the one before a creation, and a write
      in any of them arrives. */
  lemma EveryGapCounts(s: Session, e: Interference)
    requires s == Blank([Configured]).(state := Running, thread := Active, fd := 5, supervised := true)
    requires e.closing && !e.open && SparseVisit(e)
    ensures Visit(s, e).iterations == 7 <==> Marked(e)
    ensures Visit(s, e).state == Unused && Visit(s, e).thread == NoThread
  {
    ActsSparse(s, e.first);
    var a := Acts(s, e.first);
    SparseSwitch(a, e);
    var c := AtSwitch(a, e);
    hide AtSwitch, Acts, Transition, Sparse;
    SparseStop(c, e);
  }

  lemma SparseSwitch(s: Session, e: Interference)
    requires s.openers == [Configured] && s.state == Running && s.thread == Active && s.fd == 5 && s.supervised
    requires e.closing && !e.open && SparseVisit(e) && s.kind == ClientConnection
    ensures var c := AtSwitch(s, e);
            && c.state == Terminate && c.thread == Active && c.openers == [Configured] && c.kind == ClientConnection
            && c.iterations == if [MARK] in {e.beforeTest, e.beforeAbort, e.beforeCheck, e.beforeFd,
                                             e.beforeTerminate, e.beforeSwitch} then 7 else s.iterations
  {
    SparseOrdered(s, e);
    var o := Ordered(s, e);
    ActsSparse(o, e.beforeCheck);
    var b := Acts(o, e.beforeCheck);
    SparseCheck(b, e);
    ActsSparse(CheckDescriptor(b, e), e.beforeSwitch);
    hide Acts, SparseVisit, Ordered, CheckDescriptor;
  }

  lemma SparseOrdered(s: Session, e: Interference)
    requires s.openers == [Configured] && s.state == Running && e.closing && SparseVisit(e)
    ensures var n := if [MARK] in {e.beforeTest, e.beforeAbort} then 7 else s.iterations;
            Ordered(s, e) == s.(state := Abort, iterations := n)
            || Ordered(s, e) == s.(state := Abort, iterations := n, fd := 5, supervised := true)
  {
    ActsSparse(s, e.beforeTest);
    ActsSparse(Acts(s, e.beforeTest), e.beforeAbort);
    hide Acts;
  }

  lemma SparseCheck(s: Session, e: Interference)
    requires s.openers == [Configured] && s.fd == 5 && s.supervised && e.closing && !e.open && SparseVisit(e)
    ensures var n := if [MARK] in {e.beforeFd, e.beforeTerminate} then 7 else s.iterations;
            CheckDescriptor(s, e) == s.(state := Terminate, iterations := n)
  {
    ActsSparse(s, e.beforeFd);
    var d := Acts(s, e.beforeFd);
    assert d.(earlyCloses := d.earlyCloses + One(!e.closing && Engaged(d))) == d;
    ActsSparse(d, e.beforeTerminate);
    hide Acts, Engaged;
  }

  lemma SparseStop(s: Session, e: Interference)
    requires s.openers == [Configured] && s.state == Terminate && s.kind == ClientConnection && SparseVisit(e)
    ensures var t := Transition(s, e);
            && t.state == Unused && t.thread == NoThread
            && t.iterations == if [MARK] in {e.beforeWrite, e.beforeJoin, e.beforeStopper, e.beforeRead,
                                             e.beforeStopped, e.beforeFree, e.beforeUnused}
                               then 7 else s.iterations
  {
    ActsSparse(s, e.beforeWrite);
    var x := Acts(s, e.beforeWrite).(state := Terminating, counter := 0);
    ActsSparse(x, e.beforeJoin);
    SparseFree(Acts(x, e.beforeJoin), e);
    hide Acts, Stop, SparseVisit;
  }

  lemma SparseFree(s: Session, e: Interference)
    requires s.openers == [Configured] && s.kind == ClientConnection && SparseVisit(e)
    ensures var t := Stop(s, e);
            && t.state == Unused && t.thread == NoThread
            && t.iterations == if [MARK] in {e.beforeStopper, e.beforeRead, e.beforeStopped,
                                             e.beforeFree, e.beforeUnused} then 7 else s.iterations
  {
    var n := s.(thread := NoThread);
    ActsSparse(n, e.beforeStopper);
    var j := Acts(n, e.beforeStopper);
    SparseStopper(Release(j), e);
    var t := Stopper(ClientConnection, Release(j), e);
    ActsSparse(t, e.beforeFree);
    ActsSparse(Acts(t, e.beforeFree), e.beforeUnused);
    hide Acts, Stopper, SparseVisit;
  }

  lemma SparseStopper(s: Session, e: Interference)
    requires s.openers == [Configured] && s.thread == NoThread && SparseVisit(e)
    ensures var t := Stopper(ClientConnection, s, e);
            && t.state == Stopped && t.thread == NoThread && t.openers == [Configured]
            && t.iterations == if [MARK] in {e.beforeRead, e.beforeStopped} then 7 else s.iterations
  {
    ActsSparse(s, e.beforeRead);
    ActsSparse(Acts(s, e.beforeRead), e.beforeStopped);
    hide Acts;
  }
}
