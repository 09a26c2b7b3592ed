/** The UDP example server: a receiving thread adds each datagram to two shared counters
    and a monitoring thread takes and clears them, both under one mutex. Every load and
    every store of a shared counter is a step of its own, and the threads interleave
    arbitrarily between steps. */
module UdpStats {
  const BUFLEN: int := 65536

  /** Where the receiving thread is: the statement it executes next. */
  datatype ReceiverPc =
    | Receive | Lock | LoadPackets | StorePackets | LoadBytes | StoreBytes | Unlock | Exited

  datatype MonitorPc =
    | Acquire | ReadPackets | ReadBytes | ZeroPackets | ZeroBytes | Release | Print

  datatype Owner = Nobody | TheReceiver | TheMonitor

  /** One line of output; also the count and byte total of any block of datagrams. */
  datatype Report = Report(packets: int, bytes: int)

  datatype State = State(
    packets: int, bytes: int, owner: Owner,
    rpc: ReceiverPc, received: int, temp: int,
    mpc: MonitorPc, period: Report,
    history: seq<int>, // sizes of the datagrams received, in order
    reports: seq<Report>)

  /** Which thread moves; a receive call returns a size, or -1 on failure. */
  datatype Action = Recv(n: int) | ReceiverMoves | MonitorMoves

  const INIT := State(0, 0, Nobody, Receive, 0, 0, Acquire, Report(0, 0), [], [])

  predicate Enabled(s: State, a: Action) {
    match a
    case Recv(n) => s.rpc == Receive && -1 <= n <= BUFLEN
    // after a failed receive only the monitor moves, until the process has exited
    case ReceiverMoves => s.rpc != Receive && s.rpc != Exited && (s.rpc == Lock ==> s.owner == Nobody)
    case MonitorMoves => s.mpc == Acquire ==> s.owner == Nobody
  }

  function Step(s: State, a: Action): State
    requires Enabled(s, a)
  {
    match a
    case Recv(n) =>
      if n == -1 then s.(rpc := Exited)
      else s.(received := n, rpc := Lock, history := s.history + [n])
    case ReceiverMoves => (
      match s.rpc
      case Lock => s.(owner := TheReceiver, rpc := LoadPackets)
      case LoadPackets => s.(temp := s.packets, rpc := StorePackets)
      case StorePackets => s.(packets := s.temp + 1, rpc := LoadBytes)
      case LoadBytes => s.(temp := s.bytes, rpc := StoreBytes)
      case StoreBytes => s.(bytes := s.temp + s.received, rpc := Unlock)
      case Unlock => s.(owner := Nobody, rpc := Receive))
    case MonitorMoves =>
      match s.mpc
      case Acquire => s.(owner := TheMonitor, mpc := ReadPackets)
      case ReadPackets => s.(period := s.period.(packets := s.packets), mpc := ReadBytes)
      case ReadBytes => s.(period := s.period.(bytes := s.bytes), mpc := ZeroPackets)
      case ZeroPackets => s.(packets := 0, mpc := ZeroBytes)
      case ZeroBytes => s.(bytes := 0, mpc := Release)
      case Release => s.(owner := Nobody, mpc := Print)
      case Print => s.(reports := s.reports + [s.period], mpc := Acquire)
  }

  // ----- blocks of datagrams

  function Sum(h: seq<int>): int {
    if h == [] then 0 else Sum(h[..|h| - 1]) + h[|h| - 1]
  }

  /** blocks cut h, from the end backwards, into consecutive pieces with the stated
      counts and byte sums, leaving nothing over. */
  predicate Partitions(h: seq<int>, blocks: seq<Report>)
    decreases |blocks|
  {
    if blocks == [] then h == []
    else
      var last := blocks[|blocks| - 1];
      && 0 <= last.packets <= |h|
      && Sum(h[|h| - last.packets..]) == last.bytes
      && Partitions(h[..|h| - last.packets], blocks[..|blocks| - 1])
  }

  /** The number of datagrams in the first i blocks. */
  function Offset(blocks: seq<Report>, i: nat): int
    requires i <= |blocks|
  {
    if i == 0 then 0 else Offset(blocks, i - 1) + blocks[i - 1].packets
  }

  lemma {:induction false} SumConcat(g: seq<int>, h: seq<int>)
    ensures Sum(g + h) == Sum(g) + Sum(h)
  {
    if h == [] {
      assert g + h == g;
    } else {
      var n := |h| - 1;
      assert (g + h)[..|g + h| - 1] == g + h[..n];
      SumConcat(g, h[..n]);
    }
  }

  lemma PartitionsSnoc(h: seq<int>, blocks: seq<Report>, tail: seq<int>, r: Report)
    requires Partitions(h, blocks) && r.packets == |tail| && r.bytes == Sum(tail)
    ensures Partitions(h + tail, blocks + [r])
  {
    hide Sum;
    var all := blocks + [r];
    assert (h + tail)[|h|..] == tail && (h + tail)[..|h|] == h;
    assert all[|all| - 1] == r && all[..|all| - 1] == blocks;
  }

  /** The converse: a last block can be split off. */
  lemma PartitionsInit(h: seq<int>, blocks: seq<Report>, r: Report)
    requires Partitions(h, blocks + [r])
    ensures 0 <= r.packets <= |h| && Sum(h[|h| - r.packets..]) == r.bytes
    ensures Partitions(h[..|h| - r.packets], blocks)
  {
    hide Sum;
    var all := blocks + [r];
    assert all[|all| - 1] == r && all[..|all| - 1] == blocks;
  }

  /** Two adjacent final blocks may be counted as one. */
  lemma PartitionsMerge(h: seq<int>, blocks: seq<Report>, q: Report, r: Report)
    requires Partitions(h, blocks + [q] + [r])
    ensures Partitions(h, blocks + [Report(q.packets + r.packets, q.bytes + r.bytes)])
  {
    hide Partitions, Sum;
    PartitionsInit(h, blocks + [q], r);
    var g := h[..|h| - r.packets];
    PartitionsInit(g, blocks, q);
    var left, mid, right := g[..|g| - q.packets], g[|g| - q.packets..], h[|h| - r.packets..];
    SumConcat(mid, right);
    PartitionsSnoc(left, blocks, mid + right, Report(q.packets + r.packets, q.bytes + r.bytes));
    assert left + (mid + right) == h;
  }

  /** An empty block may be inserted before at most one final block. */
  lemma InsertEmptyBlock(h: seq<int>, blocks: seq<Report>, rest: seq<Report>)
    requires |rest| <= 1 && Partitions(h, blocks + rest)
    ensures Partitions(h, blocks + [Report(0, 0)] + rest)
  {
    hide Partitions;
    var zero := Report(0, 0);
    var k := |h|;
    assert Sum([]) == 0;
    hide Sum;
    if rest != [] {
      assert rest == [rest[0]];
      PartitionsInit(h, blocks, rest[0]);
      k := |h| - rest[0].packets;
    }
    assert h[..|h|] == h && blocks + [] == blocks;
    PartitionsSnoc(h[..k], blocks, [], zero);
    assert h[..k] + [] == h[..k] && h[..k] + h[k..] == h;
    if rest != [] {
      PartitionsSnoc(h[..k], blocks + [zero], h[k..], rest[0]);
    } else {
      assert blocks + [zero] + [] == blocks + [zero];
    }
  }

  lemma {:induction false} PartitionsLength(h: seq<int>, blocks: seq<Report>)
    requires Partitions(h, blocks)
    ensures Offset(blocks, |blocks|) == |h|
    decreases |blocks|
  {
    if blocks != [] {
      var n := |blocks| - 1;
      PartitionsLength(h[..|h| - blocks[n].packets], blocks[..n]);
      OffsetPrefix(blocks, n, n);
    }
  }

  lemma {:induction false} OffsetPrefix(blocks: seq<Report>, n: nat, i: nat)
    requires i <= n <= |blocks|
    ensures Offset(blocks[..n], i) == Offset(blocks, i)
  {
    if i > 0 {
      OffsetPrefix(blocks, n, i - 1);
    }
  }

  /** Block i is the stretch of h that starts after the blocks before it. */
  lemma {:induction false} BlockAt(h: seq<int>, blocks: seq<Report>, i: nat)
    requires Partitions(h, blocks) && i < |blocks|
    ensures 0 <= Offset(blocks, i) <= Offset(blocks, i + 1) <= |h|
    ensures Offset(blocks, i + 1) - Offset(blocks, i) == blocks[i].packets
    ensures Sum(h[Offset(blocks, i)..Offset(blocks, i + 1)]) == blocks[i].bytes
    decreases |blocks|
  {
    var n := |blocks| - 1;
    var g := h[..|h| - blocks[n].packets];
    PartitionsLength(h, blocks);
    PartitionsLength(g, blocks[..n]);
    OffsetPrefix(blocks, n, i);
    if i < n {
      BlockAt(g, blocks[..n], i);
      OffsetPrefix(blocks, n, i + 1);
      assert g[Offset(blocks, i)..Offset(blocks, i + 1)] == h[Offset(blocks, i)..Offset(blocks, i + 1)];
    } else {
      OffsetPrefix(blocks, n, n);
      assert h[Offset(blocks, n)..|h|] == h[|h| - blocks[n].packets..];
    }
  }

  lemma {:induction false} SumBounds(h: seq<int>)
    requires forall k :: 0 <= k < |h| ==> 0 <= h[k] <= BUFLEN
    ensures 0 <= Sum(h) <= BUFLEN * |h|
  {
    if h != [] {
      SumBounds(h[..|h| - 1]);
    }
  }

  // ----- what every reachable state satisfies

  predicate ReceiverInside(s: State) {
    s.rpc in {LoadPackets, StorePackets, LoadBytes, StoreBytes, Unlock}
  }

  predicate MonitorInside(s: State) {
    s.mpc in {ReadPackets, ReadBytes, ZeroPackets, ZeroBytes, Release}
  }

  /** A snapshot exists from the first clearing store until it is printed. */
  function Pending(s: State): seq<Report> {
    if s.mpc in {ZeroBytes, Release, Print} then [s.period] else []
  }

  /** What the shared counters stand for while one thread is half-way through them. */
  function Shared(s: State): Report {
    if s.mpc == ZeroBytes then Report(0, 0)
    else if s.rpc in {LoadBytes, StoreBytes} then Report(s.packets - 1, s.bytes)
    else Report(s.packets, s.bytes)
  }

  function InProgress(s: State): seq<Report> {
    if s.rpc in {Lock, LoadPackets, StorePackets, LoadBytes, StoreBytes}
    then [Report(1, s.received)] else []
  }

  function Blocks(s: State): seq<Report> {
    s.reports + Pending(s) + [Shared(s)] + InProgress(s)
  }

  predicate Inv(s: State) {
    && (s.owner == TheReceiver <==> ReceiverInside(s))
    && (s.owner == TheMonitor <==> MonitorInside(s))
    && (s.rpc == StorePackets ==> s.temp == s.packets)
    && (s.rpc == StoreBytes ==> s.temp == s.bytes)
    && (s.mpc == ReadBytes ==> s.period.packets == s.packets)
    && (s.mpc == ZeroPackets ==> s.period == Report(s.packets, s.bytes))
    && (s.mpc == ZeroBytes ==> s.packets == 0)
    && (s.mpc == Release ==> s.packets == 0 && s.bytes == 0)
    && (forall k :: 0 <= k < |s.history| ==> 0 <= s.history[k] <= BUFLEN)
    && Partitions(s.history, Blocks(s))
  }

  lemma InitInv()
    ensures Inv(INIT)
  {
    assert Partitions([], []);
    PartitionsSnoc([], [], [], Report(0, 0));
    assert Blocks(INIT) == [] + [Report(0, 0)];
  }

  lemma SumOne(n: int)
    ensures Sum([n]) == n
  {
    assert [n][..0] == [];
  }

  lemma RecvKeepsBlocks(s: State, n: int)
    requires Inv(s) && Enabled(s, Recv(n)) && n != -1
    ensures Inv(Step(s, Recv(n)))
  {
    hide Partitions, Sum;
    var t := Step(s, Recv(n));
    SumOne(n);
    PartitionsSnoc(s.history, Blocks(s), [n], Report(1, n));
    assert Blocks(t) == Blocks(s) + [Report(1, n)];
  }

  lemma StoreBytesKeepsBlocks(s: State)
    requires Inv(s) && Enabled(s, ReceiverMoves) && s.rpc == StoreBytes
    ensures Inv(Step(s, ReceiverMoves))
  {
    hide Partitions, Sum;
    var t := Step(s, ReceiverMoves);
    var front := s.reports + Pending(s);
    PartitionsMerge(s.history, front, Shared(s), Report(1, s.received));
    assert Blocks(s) == front + [Shared(s)] + [Report(1, s.received)];
    assert Blocks(t) == front + [Report(s.packets, s.bytes + s.received)];
  }

  /** The first clearing store turns the counters into a snapshot and starts a new, empty block. */
  lemma ZeroPacketsKeepsBlocks(s: State)
    requires Inv(s) && Enabled(s, MonitorMoves) && s.mpc == ZeroPackets
    ensures Inv(Step(s, MonitorMoves))
  {
    hide Partitions, Sum;
    var t := Step(s, MonitorMoves);
    assert Blocks(s) == s.reports + [s.period] + InProgress(s);
    InsertEmptyBlock(s.history, s.reports + [s.period], InProgress(s));
    assert Blocks(t) == s.reports + [s.period] + [Report(0, 0)] + InProgress(s);
  }

  /** No other step moves a datagram from one block to another. */
  lemma OtherStepsKeepBlocks(s: State, a: Action)
    requires Inv(s) && Enabled(s, a)
    requires a.Recv? ==> a.n == -1
    requires a == ReceiverMoves ==> s.rpc != StoreBytes
    requires a == MonitorMoves ==> s.mpc != ZeroPackets
    ensures Inv(Step(s, a))
  {
    hide Partitions, Sum;
    var t := Step(s, a);
    if a == MonitorMoves && s.mpc == Print {
      assert Pending(t) == [] && t.reports == s.reports + Pending(s);
      assert Blocks(t) == Blocks(s);
    } else {
      assert t.reports == s.reports && Pending(t) == Pending(s);
      assert Shared(t) == Shared(s) && InProgress(t) == InProgress(s);
    }
  }

  /** Every step of every thread keeps the invariant. */
  lemma StepKeepsInv(s: State, a: Action)
    requires Inv(s) && Enabled(s, a)
    ensures Inv(Step(s, a))
  {
    if a.Recv? && a.n != -1 {
      RecvKeepsBlocks(s, a.n);
    } else if a == ReceiverMoves && s.rpc == StoreBytes {
      StoreBytesKeepsBlocks(s);
    } else if a == MonitorMoves && s.mpc == ZeroPackets {
      ZeroPacketsKeepsBlocks(s);
    } else {
      OtherStepsKeepBlocks(s, a);
    }
  }

  // ----- runs

  /** The state after a schedule of actions; None when the schedule is not possible. */
  datatype Outcome = Stuck | At(state: State)

  function Run(schedule: seq<Action>): Outcome {
    if schedule == [] then At(INIT)
    else
      var n := |schedule| - 1;
      match Run(schedule[..n])
      case Stuck => Stuck
      case At(s) => if Enabled(s, schedule[n]) then At(Step(s, schedule[n])) else Stuck
  }

  lemma {:induction false} ReachableInv(schedule: seq<Action>)
    ensures Run(schedule).At? ==> Inv(Run(schedule).state)
  {
    if schedule == [] {
      InitInv();
    } else {
      var n := |schedule| - 1;
      ReachableInv(schedule[..n]);
      var before := Run(schedule[..n]);
      if before.At? && Enabled(before.state, schedule[n]) {
        StepKeepsInv(before.state, schedule[n]);
      }
    }
  }

  /** The two threads are never both between lock and unlock. */
  lemma MutualExclusion(schedule: seq<Action>)
    requires Run(schedule).At?
    ensures !(ReceiverInside(Run(schedule).state) && MonitorInside(Run(schedule).state))
  {
    ReachableInv(schedule);
  }

  // ----- the datagrams of a schedule

  /** The sizes that the receive calls of a schedule return, in order, without the failure. */
  function Sizes(schedule: seq<Action>): seq<int> {
    if schedule == [] then []
    else
      var n := |schedule| - 1;
      match schedule[n]
      case Recv(size) => if size == -1 then Sizes(schedule[..n]) else Sizes(schedule[..n]) + [size]
      case _ => Sizes(schedule[..n])
  }

  /** Every datagram received is recorded with its size, and nothing else is. */
  lemma {:induction false} HistoryIsSizes(schedule: seq<Action>)
    requires Run(schedule).At?
    ensures Run(schedule).state.history == Sizes(schedule)
  {
    if schedule != [] {
      HistoryIsSizes(schedule[..|schedule| - 1]);
    }
  }

  lemma ReportIsBlock(s: State, i: nat)
    requires Inv(s) && i < |s.reports|
    ensures var r := s.reports[i]; var start := Offset(s.reports, i);
            && 0 <= start <= start + r.packets <= |s.history|
            && Sum(s.history[start..start + r.packets]) == r.bytes
            && 0 <= r.bytes <= BUFLEN * r.packets
  {
    hide Partitions, Sum;
    var n := |s.reports|;
    assert Blocks(s)[..n] == s.reports;
    BlockAt(s.history, Blocks(s), i);
    OffsetPrefix(Blocks(s), n, i);
    OffsetPrefix(Blocks(s), n, i + 1);
    SumBounds(s.history[Offset(s.reports, i)..Offset(s.reports, i + 1)]);
  }

  /** Printed reports are the counts and byte sums of consecutive stretches of the
      datagrams received, starting with the first; none is skipped or counted twice. */
  lemma ReportsAreConsecutiveBlocks(schedule: seq<Action>, i: nat)
    requires Run(schedule).At? && i < |Run(schedule).state.reports|
    ensures var s := Run(schedule).state; var r := s.reports[i]; var start := Offset(s.reports, i);
            && 0 <= start <= start + r.packets <= |Sizes(schedule)|
            && Sum(Sizes(schedule)[start..start + r.packets]) == r.bytes
            && 0 <= r.bytes <= 65536 * r.packets
  {
    hide Partitions, Sum, Offset, Run, Sizes, Step, Inv;
    HistoryIsSizes(schedule);
    ReachableInv(schedule);
    ReportIsBlock(Run(schedule).state, i);
  }

  /** The same range for a snapshot not printed yet, although its two numbers come from
      counters that are updated by separate statements. */
  lemma SnapshotRange(schedule: seq<Action>)
    requires Run(schedule).At? && Run(schedule).state.mpc in {ZeroBytes, Release, Print}
    ensures var p := Run(schedule).state.period;
            0 <= p.packets && 0 <= p.bytes <= BUFLEN * p.packets
  {
    ReachableInv(schedule);
    var s := Run(schedule).state;
    var n := |s.reports|;
    assert Blocks(s)[n] == s.period;
    BlockAt(s.history, Blocks(s), n);
    SumBounds(s.history[Offset(Blocks(s), n)..Offset(Blocks(s), n + 1)]);
  }

  function Total(rs: seq<Report>): Report {
    if rs == [] then Report(0, 0)
    else
      var t := Total(rs[..|rs| - 1]);
      Report(t.packets + rs[|rs| - 1].packets, t.bytes + rs[|rs| - 1].bytes)
  }

  lemma {:induction false} PartitionsTotal(h: seq<int>, blocks: seq<Report>)
    requires Partitions(h, blocks)
    ensures Total(blocks) == Report(|h|, Sum(h))
    decreases |blocks|
  {
    if blocks != [] {
      var k := |h| - blocks[|blocks| - 1].packets;
      PartitionsTotal(h[..k], blocks[..|blocks| - 1]);
      SumConcat(h[..k], h[k..]);
      assert h[..k] + h[k..] == h;
    }
  }

  /** Conservation: whenever both threads are between their critical sections and nothing
      is pending, reports plus counters account for every datagram and every byte. */
  lemma NothingLost(schedule: seq<Action>)
    requires Run(schedule).At?
    requires Run(schedule).state.rpc in {Receive, Exited} && Run(schedule).state.mpc == Acquire
    ensures var s := Run(schedule).state; var t := Total(s.reports);
            t.packets + s.packets == |Sizes(schedule)| && t.bytes + s.bytes == Sum(Sizes(schedule))
  {
    HistoryIsSizes(schedule);
    ReachableInv(schedule);
    var s := Run(schedule).state;
    assert Blocks(s) == s.reports + [Report(s.packets, s.bytes)];
    assert Blocks(s)[..|s.reports|] == s.reports;
    PartitionsTotal(s.history, Blocks(s));
  }

  /** Some thread can always move, also after a failed receive, and the mutex owner always can. */
  lemma NoDeadlock(schedule: seq<Action>)
    requires Run(schedule).At?
    ensures var s := Run(schedule).state;
            && (Enabled(s, Recv(0)) || Enabled(s, ReceiverMoves) || Enabled(s, MonitorMoves))
            && (s.owner == TheReceiver ==> Enabled(s, ReceiverMoves))
            && (s.owner == TheMonitor ==> Enabled(s, MonitorMoves))
  {
    ReachableInv(schedule);
  }

  // ----- one round of each thread, undisturbed

  /** The threads of a state between rounds, with the mutex free. */
  predicate Between(s: State) {
    s.rpc == Receive && s.mpc == Acquire && s.owner == Nobody
  }

  /** The given actions from a state; Stuck when one of them is not possible. */
  function RunFrom(s: State, schedule: seq<Action>): Outcome
    decreases |schedule|
  {
    if schedule == [] then At(s)
    else if Enabled(s, schedule[0]) then RunFrom(Step(s, schedule[0]), schedule[1..])
    else Stuck
  }

  /** Any size that a receive call can return is taken, and six more statements count it. */
  lemma ReceiverRound(s: State, n: int)
    requires Between(s) && 0 <= n <= 65536
    ensures var round := [Recv(n)] + seq(6, i => ReceiverMoves);
            RunFrom(s, round)
            == At(s.(packets := s.packets + 1, bytes := s.bytes + n, history := s.history + [n],
                     received := n, temp := s.bytes))
  {
    var rest := seq(6, i => ReceiverMoves);
    var s1 := s.(received := n, rpc := Lock, history := s.history + [n]);
    assert ([Recv(n)] + rest)[1..] == rest;
    SixMoves(s1);
    hide Enabled, Step;
  }

  /** A failed receive counts nothing, and the receiving thread never moves again. */
  lemma FailedReceive(s: State, a: Action)
    requires s.rpc == Receive
    ensures RunFrom(s, [Recv(-1)]) == At(s.(rpc := Exited))
    ensures RunFrom(s, [Recv(-1), a]).At? ==> a == MonitorMoves
  {
    assert [Recv(-1)][1..] == [] && [Recv(-1), a][1..] == [a];
    assert RunFrom(s.(rpc := Exited), []) == At(s.(rpc := Exited));
    assert RunFrom(s.(rpc := Exited), [a]).At? ==> Enabled(s.(rpc := Exited), a);
  }

  lemma SixMoves(s: State)
    requires s.rpc == Lock && s.owner == Nobody
    ensures RunFrom(s, seq(6, i => ReceiverMoves))
            == At(s.(packets := s.packets + 1, bytes := s.bytes + s.received, temp := s.bytes, rpc := Receive))
  {
    hide RunFrom;
    RepeatStep(s, 6, ReceiverMoves);
    var s1 := s.(owner := TheReceiver, rpc := LoadPackets);
    RepeatStep(s1, 5, ReceiverMoves);
    var s2 := s1.(temp := s.packets, rpc := StorePackets);
    RepeatStep(s2, 4, ReceiverMoves);
    var s3 := s2.(packets := s.packets + 1, rpc := LoadBytes);
    RepeatStep(s3, 3, ReceiverMoves);
    var s4 := s3.(temp := s.bytes, rpc := StoreBytes);
    RepeatStep(s4, 2, ReceiverMoves);
    var s5 := s4.(bytes := s.bytes + s.received, rpc := Unlock);
    RepeatStep(s5, 1, ReceiverMoves);
    assert Step(s5, ReceiverMoves) == s5.(owner := Nobody, rpc := Receive);
  }

  lemma RepeatStep(s: State, n: nat, a: Action)
    requires n > 0 && Enabled(s, a)
    ensures RunFrom(s, seq(n, i => a)) == RunFrom(Step(s, a), seq(n - 1, i => a))
    ensures RunFrom(s, seq(0, i => a)) == At(s) && RunFrom(Step(s, a), seq(0, i => a)) == At(Step(s, a))
  {
    assert seq(n, i => a)[1..] == seq(n - 1, i => a);
    assert seq(0, i => a) == [];
    hide Step, Enabled;
  }

  /** Seven statements of the monitor report what the counters held and clear them. */
  lemma MonitorRound(s: State)
    requires Between(s)
    ensures RunFrom(s, seq(7, i => MonitorMoves))
            == At(s.(packets := 0, bytes := 0, period := Report(s.packets, s.bytes),
                     reports := s.reports + [Report(s.packets, s.bytes)]))
  {
    hide RunFrom;
    RepeatStep(s, 7, MonitorMoves);
    var s1 := s.(owner := TheMonitor, mpc := ReadPackets);
    RepeatStep(s1, 6, MonitorMoves);
    var s2 := s1.(period := Report(s.packets, s.period.bytes), mpc := ReadBytes);
    RepeatStep(s2, 5, MonitorMoves);
    var s3 := s2.(period := Report(s.packets, s.bytes), mpc := ZeroPackets);
    RepeatStep(s3, 4, MonitorMoves);
    var s4 := s3.(packets := 0, mpc := ZeroBytes);
    RepeatStep(s4, 3, MonitorMoves);
    var s5 := s4.(bytes := 0, mpc := Release);
    RepeatStep(s5, 2, MonitorMoves);
    var s6 := s5.(owner := Nobody, mpc := Print);
    RepeatStep(s6, 1, MonitorMoves);
    assert Step(s6, MonitorMoves) == s6.(reports := s.reports + [s3.period], mpc := Acquire);
  }

  // ----- the program's globals and the locals of its two threads

  class Server {
    var packets: int
    var bytes: int
    var owner: Owner
    var rpc: ReceiverPc
    var received: int
    var temp: int
    var mpc: MonitorPc
    var period: Report
    var reports: seq<Report>
    ghost var history: seq<int>

    ghost function View(): State
      reads this
    {
      State(packets, bytes, owner, rpc, received, temp, mpc, period, history, reports)
    }

    constructor ()
      ensures View() == INIT
    {
      packets, bytes, owner := 0, 0, Nobody;
      rpc, received, temp := Receive, 0, 0;
      mpc, period, reports := Acquire, Report(0, 0), [];
      history := [];
    }

    method ReceiveDatagram(n: int)
      requires Enabled(View(), Recv(n))
      modifies this
      ensures View() == Step(old(View()), Recv(n))
    {
      if n == -1 {
        rpc := Exited;
        return;
      }
      received := n;
      history := history + [n];
      rpc := Lock;
    }

    /** The next statement of the receiving loop after the receive call. */
    method ReceiverStep()
      requires Enabled(View(), ReceiverMoves)
      modifies this
      ensures View() == Step(old(View()), ReceiverMoves)
    {
      match rpc {
        case Lock =>
          owner := TheReceiver;
          rpc := LoadPackets;
        case LoadPackets =>
          temp := packets;
          rpc := StorePackets;
        case StorePackets =>
          packets := temp + 1;
          rpc := LoadBytes;
        case LoadBytes =>
          temp := bytes;
          rpc := StoreBytes;
        case StoreBytes =>
          bytes := temp + received;
          rpc := Unlock;
        case Unlock =>
          owner := Nobody;
          rpc := Receive;
      }
    }

    /** The next statement of the monitoring loop. */
    method MonitorStep()
      requires Enabled(View(), MonitorMoves)
      modifies this
      ensures View() == Step(old(View()), MonitorMoves)
    {
      match mpc {
        case Acquire =>
          owner := TheMonitor;
          mpc := ReadPackets;
        case ReadPackets =>
          period := period.(packets := packets);
          mpc := ReadBytes;
        case ReadBytes =>
          period := period.(bytes := bytes);
          mpc := ZeroPackets;
        case ZeroPackets =>
          packets := 0;
          mpc := ZeroBytes;
        case ZeroBytes =>
          bytes := 0;
          mpc := Release;
        case Release =>
          owner := Nobody;
          mpc := Print;
        case Print =>
          reports := reports + [period];
          mpc := Acquire;
      }
    }

    /** Drives both threads through any possible schedule. */
    method Execute(schedule: seq<Action>)
      requires View() == INIT && Run(schedule).At?
      modifies this
      ensures View() == Run(schedule).state && Inv(View())
    {
      for i := 0 to |schedule|
        invariant Run(schedule[..i]) == At(View())
      {
        assert schedule[..i + 1][..i] == schedule[..i];
        PossiblePrefix(schedule, i + 1);
        match schedule[i] {
          case Recv(n) => ReceiveDatagram(n);
          case ReceiverMoves => ReceiverStep();
          case MonitorMoves => MonitorStep();
        }
      }
      assert schedule[..|schedule|] == schedule;
      ReachableInv(schedule);
    }
  }

  lemma {:induction false} PossiblePrefix(schedule: seq<Action>, i: nat)
    requires i <= |schedule| && Run(schedule).At?
    ensures Run(schedule[..i]).At?
    decreases |schedule| - i
  {
    if i == |schedule| {
      assert schedule[..i] == schedule;
    } else {
      PossiblePrefix(schedule, i + 1);
      assert schedule[..i + 1][..i] == schedule[..i];
    }
  }
}
