/** Supervision of capture sessions. One supervising thread walks a table of session slots;
    every session has a runner thread of its own, and other threads open sessions. All of
    them write the slots without any agreement. A visit of the supervisor to a slot is cut at
    its accesses to shared fields, and an Interference says which steps of the other threads
    fall in each of the gaps. */
module Sessions {
  const MAX_SESSIONS := 128
  const TRANSITION_INTERVALS := 10
  /** Descriptors 0 to 2 are never supervised. */
  const LAST_STANDARD_FD := 2

  datatype State =
    | Unused | Stopped | Start | Starting | Running | Terminate | Abort | Terminating | Aborting

  datatype Kind = ClientConnection | Merger | Client | Server | LiveCapture | FileCapture

  /** A runner first announces itself by writing RUNNING, and may end by writing TERMINATE. */
  datatype Thread = NoThread | Fresh | Active | Done

  /** How far an opening thread has come with a slot: it has seen the slot free, has cleared
      it, has marked it stopped, has set its descriptor. Adding or abandoning it is the end. */
  datatype Opener = Looking | Found | Wiped | Claimed | Configured

  /** The fields of a slot that supervision uses, and others that belong to the model only: the
      program counters of the opening threads with respect to this slot, and whether the
      supervisor is about to create a thread. Four numbers count what has happened so far:
      orphans the runners that still existed when their handle was overwritten, breaches the
      opener's writes to the state of a slot that had a thread or was about to get one,
      clashes the openers that found the slot while another one was engaged with it, and
      earlyCloses how often a supervisor that is not closing found the descriptor closed of a
      slot that an opener was engaged with. */
  datatype Session = Session(kind: Kind, state: State, thread: Thread, fd: int, supervised: bool,
                             counter: nat, iterations: int,
                             openers: seq<Opener>, creating: bool,
                             orphans: nat, breaches: nat, clashes: nat, earlyCloses: nat)

  function Present(t: Thread): nat {
    if t == NoThread then 0 else 1
  }

  /** The slot has a thread, or the supervisor has decided to create one. */
  predicate Manned(s: Session) {
    s.thread != NoThread || s.creating
  }

  /** Some opener has found the slot and has neither added nor abandoned it yet. */
  predicate Engaged(s: Session) {
    exists k :: 0 <= k < |s.openers| && s.openers[k] != Looking
  }

  function One(b: bool): nat {
    if b then 1 else 0
  }

  /** A slot in its first state, with any number of openers. */
  function Blank(openers: seq<Opener>): Session {
    Session(ClientConnection, Unused, NoThread, 0, false, 0, 0, openers, false, 0, 0, 0, 0)
  }

  // ----- the opening threads

  datatype OpenStep =
    | Look
    | Wipe(kind: Kind)
    | Claim
    | Configure(fd: int, supervised: bool, iterations: int)
    | Add
    | Abandon

  /** The state written by an opener, whatever the slot's state is by then. */
  function Written(s: Session, k: nat, state: State, pc: Opener): Session
    requires k < |s.openers|
  {
    s.(state := state, openers := s.openers[k := pc], breaches := s.breaches + One(Manned(s)))
  }

  /** A step of opener k. Only its own program counter decides whether it can take it. */
  function Open(s: Session, k: nat, step: OpenStep): Session
    requires k < |s.openers|
  {
    match (s.openers[k], step)
    case (Looking, Look) =>
      if s.state == Unused
      then s.(openers := s.openers[k := Found], clashes := s.clashes + One(Engaged(s)))
      else s
    case (Found, Wipe(kind)) =>
      Written(s, k, Unused, Wiped).(
        kind := kind, thread := NoThread, fd := 0, supervised := false, counter := 0, iterations := 0,
        orphans := s.orphans + Present(s.thread))
    case (Wiped, Claim) => Written(s, k, Stopped, Claimed)
    case (Claimed, Abandon) => Written(s, k, Unused, Looking)
    case (Claimed, Configure(fd, supervised, iterations)) =>
      s.(fd := fd, supervised := supervised, iterations := iterations, openers := s.openers[k := Configured])
    case (Configured, Configure(fd, supervised, iterations)) =>
      s.(fd := fd, supervised := supervised, iterations := iterations)
    case (Configured, Add) => Written(s, k, Start, Looking)
    case _ => s
  }

  // ----- the runner

  datatype Action =
    | Announce
    | Rewire(fd: int, supervised: bool, iterations: int)
    | Fail
    | Finish
    | Opens(k: nat, step: OpenStep)

  /** Every step that a runner of any kind or an opener can take on a slot; a step that it
      cannot take at its present place changes nothing. */
  function Act(s: Session, a: Action): Session {
    match a
    case Opens(k, step) => if k < |s.openers| then Open(s, k, step) else s
    case Announce => if s.thread == Fresh then s.(state := Running, thread := Active) else s
    case Rewire(fd, supervised, iterations) =>
      if s.thread == Active then s.(fd := fd, supervised := supervised, iterations := iterations) else s
    case Fail => if s.thread == Active then s.(state := Terminate, thread := Done) else s
    case Finish => if s.thread == Active then s.(thread := Done) else s
  }

  function Acts(s: Session, actions: seq<Action>): Session {
    if actions == [] then s else Act(Acts(s, actions[..|actions| - 1]), actions[|actions| - 1])
  }

  lemma ActsSnoc(s: Session, actions: seq<Action>, a: Action)
    ensures Acts(s, actions + [a]) == Act(Acts(s, actions), a)
    ensures Acts(s, []) == s
  {
    assert (actions + [a])[..|actions|] == actions;
  }

  // ----- the supervisor

  /** What one visit meets: whether session handling is found closing, whether the descriptor
      is found open, whether a thread can be created, and the other threads' steps per gap. */
  datatype Interference = Interference(
    closing: bool, open: bool, spawned: bool,
    first: seq<Action>, beforeTest: seq<Action>, beforeAbort: seq<Action>,
    beforeCheck: seq<Action>, beforeFd: seq<Action>, beforeTerminate: seq<Action>,
    beforeSwitch: seq<Action>, beforeWrite: seq<Action>, beforeJoin: seq<Action>,
    beforeCreate: seq<Action>, beforeStopper: seq<Action>, beforeRead: seq<Action>,
    beforeStopped: seq<Action>, beforeFree: seq<Action>, beforeUnused: seq<Action>)

  /** A visit in which nobody else acts. */
  const CALM := Interference(
    false, true, true, [], [], [], [], [], [], [], [], [], [], [], [], [], [], [])

  /** What the stop function of each kind of session does to the descriptor. */
  function Release(s: Session): Session {
    match s.kind
    case ClientConnection | Merger | Client => s.(fd := 0)
    case Server => s.(fd := if s.fd > 0 then 0 else s.fd)
    case LiveCapture | FileCapture => s
  }

  /** And the state that it decides to write, from what it reads. */
  function Outcome(kind: Kind, s: Session): State {
    match kind
    case ClientConnection => Stopped
    case FileCapture => if s.state == Aborting || s.iterations == 0 then Stopped else Start
    case _ => if s.state == Aborting then Stopped else Start
  }

  /** A stopped slot is freed. */
  function Free(s: Session, e: Interference): Session {
    if s.state == Stopped then Acts(s, e.beforeUnused).(state := Unused) else s
  }

  /** The stop function of this kind, once the runner is gone. */
  function Stopper(kind: Kind, s: Session, e: Interference): Session {
    var r := Acts(s, e.beforeRead);
    Acts(r, e.beforeStopped).(state := Outcome(kind, r))
  }

  /** Cancels and joins the runner, stops the session, and frees the slot if that left it stopped. */
  function Stop(s: Session, e: Interference): Session {
    var j := Acts(s.(thread := NoThread), e.beforeStopper);
    Free(Acts(Stopper(j.kind, Release(j), e), e.beforeFree), e)
  }

  /** Creates the thread that was decided on. */
  function Create(s: Session, e: Interference): Session {
    var c := Acts(s.(creating := e.spawned), e.beforeCreate).(creating := false);
    if e.spawned then c.(thread := Fresh, orphans := c.orphans + Present(c.thread)) else c
  }

  function Spawn(s: Session, e: Interference): Session {
    if s.state == Starting then Create(s, e) else s
  }

  function OrderAbort(s: Session, e: Interference): Session {
    if s.state != Stopped && s.state != Aborting then Acts(s, e.beforeAbort).(state := Abort) else s
  }

  /** The session passed the test for supervision; its descriptor is read next. */
  function CheckFd(s: Session, e: Interference): Session {
    if s.fd > LAST_STANDARD_FD && !e.open
    then
      Acts(s.(earlyCloses := s.earlyCloses + One(!e.closing && Engaged(s))), e.beforeTerminate).(state := Terminate)
    else s
  }

  function CheckDescriptor(s: Session, e: Interference): Session {
    if s.supervised then CheckFd(Acts(s, e.beforeFd), e) else s
  }

  /** The switch over states: it reads the state once, then writes and acts. */
  function Transition(s: Session, e: Interference): Session {
    var w := Acts(s, e.beforeWrite);
    match s.state
    case Unused | Stopped | Running => s
    case Start => Spawn(Acts(w.(state := Starting, counter := 0), e.beforeJoin), e)
    case Starting =>
      if w.counter >= TRANSITION_INTERVALS
      then Acts(w, e.beforeJoin).(state := Terminate)
      else w.(counter := w.counter + 1)
    case Terminate => Stop(Acts(w.(state := Terminating, counter := 0), e.beforeJoin), e)
    case Abort => Stop(Acts(w.(state := Aborting, counter := 0), e.beforeJoin), e)
    case Terminating | Aborting =>
      if w.counter >= TRANSITION_INTERVALS
      then Stop(Acts(w.(state := Stopped), e.beforeJoin), e)
      else w.(counter := w.counter + 1)
  }

  /** The slot after the test for closing, when the state was not UNUSED. */
  function Ordered(s: Session, e: Interference): Session {
    if e.closing then OrderAbort(Acts(s, e.beforeTest), e) else s
  }

  /** The slot as the switch finds it. */
  function AtSwitch(s: Session, e: Interference): Session {
    Acts(CheckDescriptor(Acts(Ordered(s, e), e.beforeCheck), e), e.beforeSwitch)
  }

  /** One visit of the supervisor to one slot. */
  function Visit(s: Session, e: Interference): Session {
    var a := Acts(s, e.first);
    if a.state == Unused then a else Transition(AtSwitch(a, e), e)
  }

  function Visits(s: Session, es: seq<Interference>): Session {
    if es == [] then s else Visit(Visits(s, es[..|es| - 1]), es[|es| - 1])
  }

  lemma VisitsSnoc(s: Session, es: seq<Interference>, e: Interference)
    ensures Visits(s, es + [e]) == Visit(Visits(s, es), e)
    ensures Visits(s, []) == s
  {
    assert (es + [e])[..|es|] == es;
  }

  // ----- the invariant

  predicate Sound(s: Session) {
    && (s.state in {Unused, Stopped, Start} ==> s.thread == NoThread)
    && (s.state == Starting ==> s.thread == NoThread || s.thread == Fresh)
    && (s.creating ==> s.state == Starting && s.thread == NoThread)
    && s.state != Terminating && s.state != Aborting
    && s.counter <= TRANSITION_INTERVALS && s.orphans == 0
  }

  /** Between the supervisor's visits: a slot that is free, stopped or waiting to start has no
      thread, no runner was ever lost, and no order is pending. */
  predicate Inv(s: Session) {
    Sound(s) && s.state != Abort && !s.creating
  }

  /** Openers write the state without looking at it. Such a write is harmless exactly when the
      slot has no thread and none is about to be created; every other one is a breach. */
  lemma OpenerWriteIff(s: Session, k: nat, step: OpenStep)
    requires Sound(s) && k < |s.openers|
    requires match step
             case Wipe(_) => s.openers[k] == Found
             case Claim => s.openers[k] == Wiped
             case Abandon => s.openers[k] == Claimed
             case Add => s.openers[k] == Configured
             case _ => false
    ensures Sound(Open(s, k, step)) <==> !Manned(s)
    ensures Open(s, k, step).breaches == s.breaches <==> !Manned(s)
  {
    assert Present(s.thread) == 0 <==> s.thread == NoThread;
    assert One(Manned(s)) == 0 <==> !Manned(s);
  }

  /** The counts only grow. */
  predicate Grew(s: Session, t: Session) {
    s.breaches <= t.breaches && s.clashes <= t.clashes && s.earlyCloses <= t.earlyCloses
  }

  /** What every step keeps, also on a slot that is in the middle of being stopped. */
  predicate Onward(s: Session, t: Session) {
    && Grew(s, t) && s.orphans <= t.orphans && |t.openers| == |s.openers|
    && t.creating == s.creating && t.earlyCloses == s.earlyCloses
    && (t.breaches == s.breaches ==> t.orphans == s.orphans)
    && (s.counter <= TRANSITION_INTERVALS ==> t.counter <= TRANSITION_INTERVALS)
    && (s.thread == NoThread ==> t.thread == NoThread)
    && (s.state != Abort ==> t.state != Abort)
    && (t.state in {Terminating, Aborting} ==> t.state == s.state)
  }

  lemma WrittenOnward(s: Session, k: nat, state: State, pc: Opener)
    requires k < |s.openers| && state in {Unused, Stopped, Start}
    ensures var t := Written(s, k, state, pc);
            Onward(s, t) && (Sound(s) && t.breaches == s.breaches ==> Sound(t) && s.thread == NoThread)
  {
  }

  lemma OpenOnward(s: Session, k: nat, step: OpenStep)
    requires k < |s.openers|
    ensures Onward(s, Open(s, k, step))
    ensures Sound(s) && Open(s, k, step).breaches == s.breaches ==> Sound(Open(s, k, step))
  {
    WrittenOnward(s, k, Unused, Wiped);
    WrittenOnward(s, k, Stopped, Claimed);
    WrittenOnward(s, k, Unused, Looking);
    WrittenOnward(s, k, Start, Looking);
    hide Written, Engaged;
    match (s.openers[k], step)
    case (Found, Wipe(_)) => WipeOnward(s, k, step);
    case _ =>
  }

  lemma WipeOnward(s: Session, k: nat, step: OpenStep)
    requires k < |s.openers| && s.openers[k] == Found && step.Wipe?
    ensures Onward(s, Open(s, k, step))
    ensures Sound(s) && Open(s, k, step).breaches == s.breaches ==> Sound(Open(s, k, step))
  {
    hide Engaged;
  }

  lemma ActOnward(s: Session, a: Action)
    ensures Onward(s, Act(s, a))
    ensures Sound(s) && Act(s, a).breaches == s.breaches ==> Sound(Act(s, a))
  {
    if a.Opens? && a.k < |s.openers| {
      OpenOnward(s, a.k, a.step);
    }
    hide Open;
  }

  lemma {:induction false} ActsOnward(s: Session, actions: seq<Action>)
    ensures Onward(s, Acts(s, actions))
    ensures Sound(s) && Acts(s, actions).breaches == s.breaches ==> Sound(Acts(s, actions))
  {
    if actions != [] {
      var n := |actions| - 1;
      ActsOnward(s, actions[..n]);
      ActOnward(Acts(s, actions[..n]), actions[n]);
      hide Act, Sound;
    }
  }

  /** Sound, as long as no opener wrote to a slot with a thread. */
  predicate Kept(s: Session) {
    s.breaches == 0 ==> Sound(s)
  }

  lemma ActsKeep(s: Session, actions: seq<Action>)
    requires Kept(s)
    ensures Kept(Acts(s, actions)) && Onward(s, Acts(s, actions))
  {
    ActsOnward(s, actions);
    hide Acts, Sound;
  }

  lemma ActsGrow(s: Session, actions: seq<Action>)
    ensures Grew(s, Acts(s, actions)) && Acts(s, actions).creating == s.creating
  {
    ActsOnward(s, actions);
    hide Acts, Sound;
  }

  lemma OrderedKeeps(s: Session, e: Interference)
    requires Kept(s) && !s.creating
    ensures var t := Ordered(s, e); Kept(t) && !t.creating && Grew(s, t)
  {
    ActsKeep(s, e.beforeTest);
    var t := Acts(s, e.beforeTest);
    ActsKeep(t, e.beforeAbort);
    hide Acts;
  }

  lemma CheckKeeps(s: Session, e: Interference)
    requires Kept(s) && !s.creating
    ensures var t := CheckDescriptor(s, e); Kept(t) && !t.creating && Grew(s, t)
  {
    ActsKeep(s, e.beforeFd);
    hide Acts, CheckFd, Sound;
    if s.supervised {
      CheckFdKeeps(Acts(s, e.beforeFd), e);
    }
  }

  lemma CheckFdKeeps(s: Session, e: Interference)
    requires Kept(s) && !s.creating
    ensures var t := CheckFd(s, e); Kept(t) && !t.creating && Grew(s, t)
  {
    hide Acts, Engaged;
    var f := s.(earlyCloses := s.earlyCloses + One(!e.closing && Engaged(s)));
    assert Kept(f) && Grew(s, f);
    ActsKeep(f, e.beforeTerminate);
  }

  lemma AtSwitchKeeps(s: Session, e: Interference)
    requires Kept(s) && !s.creating
    ensures var t := AtSwitch(s, e); Kept(t) && !t.creating && Grew(s, t)
  {
    OrderedKeeps(s, e);
    var a := Ordered(s, e);
    ActsKeep(a, e.beforeCheck);
    var b := Acts(a, e.beforeCheck);
    CheckKeeps(b, e);
    ActsKeep(CheckDescriptor(b, e), e.beforeSwitch);
    hide Acts, Ordered, CheckDescriptor, Kept;
  }

  lemma StopperKeeps(kind: Kind, s: Session, e: Interference)
    requires s.thread == NoThread
    ensures var t := Stopper(kind, s, e);
            && Grew(s, t) && t.creating == s.creating && t.thread == NoThread && t.state in {Stopped, Start}
            && (t.breaches == s.breaches ==> t.orphans == s.orphans)
            && (s.counter <= TRANSITION_INTERVALS ==> t.counter <= TRANSITION_INTERVALS)
  {
    ActsOnward(s, e.beforeRead);
    ActsOnward(Acts(s, e.beforeRead), e.beforeStopped);
    hide Acts, Sound;
  }

  lemma StopKeeps(s: Session, e: Interference)
    ensures Grew(s, Stop(s, e)) && Stop(s, e).creating == s.creating
    ensures (s.counter <= TRANSITION_INTERVALS && s.orphans == 0 && !s.creating
             && Stop(s, e).breaches == s.breaches) ==> Inv(Stop(s, e))
  {
    ActsOnward(s.(thread := NoThread), e.beforeStopper);
    var j := Acts(s.(thread := NoThread), e.beforeStopper);
    StopperKeeps(j.kind, Release(j), e);
    var t := Stopper(j.kind, Release(j), e);
    ActsOnward(t, e.beforeFree);
    ActsOnward(Acts(t, e.beforeFree), e.beforeUnused);
    hide Acts, Stopper;
  }

  lemma CreateKeeps(s: Session, e: Interference)
    requires !s.creating
    ensures Grew(s, Create(s, e)) && !Create(s, e).creating
    ensures (Sound(s) && s.state == Starting && s.thread == NoThread
             && Create(s, e).breaches == s.breaches) ==> Inv(Create(s, e))
  {
    ActsOnward(s.(creating := e.spawned), e.beforeCreate);
    hide Acts;
  }

  lemma StoppingKeeps(s: Session, e: Interference)
    requires !s.creating
    ensures var t := Stop(Acts(s, e.beforeJoin), e);
            && Grew(s, t) && !t.creating
            && (s.counter <= TRANSITION_INTERVALS && s.orphans == 0 && t.breaches == s.breaches ==> Inv(t))
  {
    ActsOnward(s, e.beforeJoin);
    hide Sound, Acts, Stop;
    StopKeeps(Acts(s, e.beforeJoin), e);
  }

  lemma StartKeeps(s: Session, e: Interference)
    requires !s.creating
    ensures var t := Spawn(Acts(s, e.beforeJoin), e);
            && Grew(s, t) && !t.creating
            && (Sound(s) && s.thread == NoThread && s.state != Abort && t.breaches == s.breaches ==> Inv(t))
  {
    ActsOnward(s, e.beforeJoin);
    hide Acts, Create;
    CreateKeeps(Acts(s, e.beforeJoin), e);
  }

  /** The counts grow through every branch of the switch. */
  lemma TransitionGrows(s: Session, e: Interference)
    requires !s.creating
    ensures Grew(s, Transition(s, e)) && !Transition(s, e).creating
    ensures s.state !in {Unused, Stopped, Running} ==> Grew(Acts(s, e.beforeWrite), Transition(s, e))
  {
    ActsGrow(s, e.beforeWrite);
    var w := Acts(s, e.beforeWrite);
    hide Acts, Stop, Spawn, Sound;
    match s.state
    case Unused | Stopped | Running =>
    case Start => StartKeeps(w.(state := Starting, counter := 0), e);
    case Starting => ActsGrow(w, e.beforeJoin);
    case Terminate => StoppingKeeps(w.(state := Terminating, counter := 0), e);
    case Abort => StoppingKeeps(w.(state := Aborting, counter := 0), e);
    case Terminating | Aborting => StoppingKeeps(w.(state := Stopped), e);
  }

  lemma TransitionKeeps(s: Session, e: Interference)
    requires Kept(s) && !s.creating
    ensures Transition(s, e).breaches == 0 ==> Inv(Transition(s, e))
  {
    TransitionGrows(s, e);
    if s.state in {Unused, Stopped, Running} || Transition(s, e).breaches > 0 {
      return;
    }
    ActsKeep(s, e.beforeWrite);
    var w := Acts(s, e.beforeWrite);
    hide Acts, Stop, Spawn;
    match s.state
    case Start => StartKeeps(w.(state := Starting, counter := 0), e);
    case Starting => ActsOnward(w, e.beforeJoin);
    case Terminate => StoppingKeeps(w.(state := Terminating, counter := 0), e);
    case Abort => StoppingKeeps(w.(state := Aborting, counter := 0), e);
    case _ =>
  }

  /** A visit keeps the invariant whatever runner and openers do meanwhile, short of a breach. */
  lemma VisitKeepsInv(s: Session, e: Interference)
    requires !s.creating && (s.breaches == 0 ==> Inv(s))
    ensures Visit(s, e).breaches == 0 ==> Inv(Visit(s, e))
    ensures !Visit(s, e).creating && Grew(s, Visit(s, e))
  {
    ActsKeep(s, e.first);
    var a := Acts(s, e.first);
    hide Acts, AtSwitch, Transition;
    if a.state != Unused {
      AtSwitchKeeps(a, e);
      TransitionKeeps(AtSwitch(a, e), e);
      TransitionGrows(AtSwitch(a, e), e);
    }
  }

  /** The switch never meets a session in state TERMINATING or ABORTING: stopping is done within
      the visit that starts it, so its time-out is never taken. */
  lemma StoppingNeverPends(s: Session, e: Interference)
    requires Inv(s) && AtSwitch(Acts(s, e.first), e).breaches == 0
    ensures AtSwitch(Acts(s, e.first), e).state !in {Terminating, Aborting}
  {
    ActsKeep(s, e.first);
    hide AtSwitch, Acts;
    AtSwitchKeeps(Acts(s, e.first), e);
  }
}
