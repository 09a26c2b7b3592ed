/** Traffic monitors: each accumulates seven counters and reports and clears them when the
    output epoch, which all monitors share, has moved past the monitor's own record of it. */
module TrafficMonitor {
  import opened Wrappers

  const OUTPUT_INTERVAL: int := 10
  const INT_MAX: int := 0x7FFF_FFFF

  datatype Which = Packets | Bytes | GtpPackets | GtpBytes | GtpExt | GtpSeqno | GtpNpdu

  datatype Counters = Counters(
    packets: int, bytes: int,
    gtpPackets: int, gtpBytes: int, gtpExt: int, gtpSeqno: int, gtpNpdu: int)
  {
    function Get(w: Which): int {
      match w
      case Packets => packets
      case Bytes => bytes
      case GtpPackets => gtpPackets
      case GtpBytes => gtpBytes
      case GtpExt => gtpExt
      case GtpSeqno => gtpSeqno
      case GtpNpdu => gtpNpdu
    }
  }

  const ZERO := Counters(0, 0, 0, 0, 0, 0, 0)

  datatype Record = Record(id: int, counters: Counters, last: int)

  /** What one report writes out, with the epoch it belongs to. */
  datatype Report = Report(epoch: int, seconds: int, counters: Counters, packetRate: int, byteRate: int)

  // ----- one call

  function ExtFlag(options: bv32): bv32 { (options & 0x04) >> 2 }
  function SeqFlag(options: bv32): bv32 { (options & 0x02) >> 1 }
  function NpduFlag(options: bv32): bv32 { options & 0x01 }

  /** The first monitor opened starts the epoch; every monitor starts at the epoch. */
  function OpenEpoch(epoch: int, now: int): int {
    if epoch == 0 then now else epoch
  }

  function Increment(r: Record, packets: int, bytes: int): Record {
    r.(counters := r.counters.(packets := r.counters.packets + packets, bytes := r.counters.bytes + bytes))
  }

  function IncrementGtp(r: Record, packets: int, bytes: int, options: bv32): Record {
    var c := r.counters;
    r.(counters := c.(gtpPackets := c.gtpPackets + packets,
                      gtpBytes := c.gtpBytes + bytes,
                      gtpExt := c.gtpExt + ExtFlag(options) as int,
                      gtpSeqno := c.gtpSeqno + SeqFlag(options) as int,
                      gtpNpdu := c.gtpNpdu + NpduFlag(options) as int))
  }

  /** The epoch that a call at this time works with: moved up once it is 10 seconds old. */
  function Advance(epoch: int, now: int): int {
    if now - epoch >= OUTPUT_INTERVAL then now else epoch
  }

  function Rate(count: int, seconds: int): int
    requires seconds > 0
  {
    if count > 0 then count / seconds else 0
  }

  function ReportOf(epoch: int, r: Record, now: int): Option<Report>
    requires epoch <= now
  {
    var e := Advance(epoch, now);
    if e <= r.last then None
    else
      var seconds := now - r.last;
      Some(Report(e, seconds, r.counters, Rate(r.counters.packets, seconds), Rate(r.counters.bytes, seconds)))
  }

  function AfterHandle(epoch: int, r: Record, now: int): Record {
    var e := Advance(epoch, now);
    if e <= r.last then r else Record(r.id, ZERO, e)
  }

  // ----- runs

  datatype Target = Null | Monitor(index: nat)

  datatype Event =
    | Open(id: int, now: int)
    | Inc(target: Target, packets: int, bytes: int)
    | IncGtp(target: Target, packets: int, bytes: int, options: bv32)
    | Handle(index: nat, now: int)

  /** openedAt is the epoch the monitor started at. */
  datatype Log = Log(openedAt: int, reports: seq<Report>)

  datatype System = System(
    epoch: int, clock: int, monitors: seq<Record>, logs: seq<Log>,
    epochs: seq<int>) // every value the shared epoch has had since it was set

  const INIT := System(0, 1, [], [], [])

  /** Times never go back, are positive and fit a C int; null is tolerated by the increments only. */
  predicate Enabled(s: System, e: Event) {
    match e
    case Open(_, now) => s.clock <= now <= INT_MAX
    case Inc(target, _, _) => target.Monitor? ==> target.index < |s.monitors|
    case IncGtp(target, _, _, _) => target.Monitor? ==> target.index < |s.monitors|
    case Handle(i, now) => i < |s.monitors| && s.clock <= now <= INT_MAX
  }

  function AppendEpoch(epochs: seq<int>, epoch: int): seq<int> {
    if epochs != [] && epochs[|epochs| - 1] == epoch then epochs else epochs + [epoch]
  }

  function Step(s: System, e: Event): System
    requires Enabled(s, e) && |s.logs| == |s.monitors| && s.epoch <= s.clock
  {
    match e
    case Open(id, now) =>
      var epoch := OpenEpoch(s.epoch, now);
      System(epoch, now, s.monitors + [Record(id, ZERO, epoch)], s.logs + [Log(epoch, [])],
             AppendEpoch(s.epochs, epoch))
    case Inc(target, p, b) =>
      if target.Null? then s
      else s.(monitors := s.monitors[target.index := Increment(s.monitors[target.index], p, b)])
    case IncGtp(target, p, b, o) =>
      if target.Null? then s
      else s.(monitors := s.monitors[target.index := IncrementGtp(s.monitors[target.index], p, b, o)])
    case Handle(i, now) =>
      var report := ReportOf(s.epoch, s.monitors[i], now);
      System(Advance(s.epoch, now), now,
             s.monitors[i := AfterHandle(s.epoch, s.monitors[i], now)],
             if report.None? then s.logs
             else s.logs[i := s.logs[i].(reports := s.logs[i].reports + [report.value])],
             AppendEpoch(s.epochs, Advance(s.epoch, now)))
  }

  // ----- the timing invariant

  /** Successive epochs are at least an output interval apart. */
  predicate Spaced(times: seq<int>) {
    forall i, j :: 0 <= i < j < |times| ==> times[i] + OUTPUT_INTERVAL <= times[j]
  }

  /** The times a monitor has recorded: the epoch at opening, then one per report. */
  function Times(log: Log): seq<int> {
    [log.openedAt] + seq(|log.reports|, i requires 0 <= i < |log.reports| => log.reports[i].epoch)
  }

  predicate MonitorInv(s: System, r: Record, log: Log) {
    && r.last in s.epochs
    && Times(log)[|log.reports|] == r.last
    && Spaced(Times(log))
    && forall k :: 0 <= k < |log.reports| ==> log.reports[k].seconds >= OUTPUT_INTERVAL
  }

  predicate Inv(s: System) {
    && |s.logs| == |s.monitors|
    && s.epoch <= s.clock && s.clock >= 1
    && (s.epochs == [] ==> s.epoch == 0 && s.monitors == [])
    && (s.epochs != [] ==> s.epochs[|s.epochs| - 1] == s.epoch && s.epochs[0] >= 1)
    && Spaced(s.epochs)
    && forall i :: 0 <= i < |s.monitors| ==> MonitorInv(s, s.monitors[i], s.logs[i])
  }

  /** A past epoch is the current one or at least an interval older. */
  lemma PastEpoch(s: System, last: int)
    requires Inv(s) && last in s.epochs
    ensures last == s.epoch || last + OUTPUT_INTERVAL <= s.epoch
  {
    var i :| 0 <= i < |s.epochs| && s.epochs[i] == last;
  }

  /** The two tests in the code (epoch due, then monitor behind the epoch) amount to one:
      a call reports exactly when 10 seconds have passed since the monitor's recorded time,
      whichever monitors moved the epoch in between. */
  lemma ReportsIffDue(s: System, i: nat, now: int)
    requires Inv(s) && Enabled(s, Handle(i, now))
    ensures ReportOf(s.epoch, s.monitors[i], now).Some? <==> now - s.monitors[i].last >= OUTPUT_INTERVAL
  {
    assert MonitorInv(s, s.monitors[i], s.logs[i]);
    PastEpoch(s, s.monitors[i].last);
  }

  /** The divisor of a report is at least 10 and the printed rates are the whole quotients. */
  lemma ReportRates(s: System, i: nat, now: int)
    requires Inv(s) && Enabled(s, Handle(i, now))
    requires ReportOf(s.epoch, s.monitors[i], now).Some?
    ensures var r := ReportOf(s.epoch, s.monitors[i], now).value; var c := s.monitors[i].counters;
            && r.seconds >= OUTPUT_INTERVAL && r.counters == c
            && (c.packets > 0 ==> r.packetRate * r.seconds <= c.packets < (r.packetRate + 1) * r.seconds)
            && (c.bytes > 0 ==> r.byteRate * r.seconds <= c.bytes < (r.byteRate + 1) * r.seconds)
            && (c.packets <= 0 ==> r.packetRate == 0) && (c.bytes <= 0 ==> r.byteRate == 0)
  {
    ReportsIffDue(s, i, now);
    var seconds := now - s.monitors[i].last;
    WholeQuotient(s.monitors[i].counters.packets, seconds);
    WholeQuotient(s.monitors[i].counters.bytes, seconds);
  }

  lemma WholeQuotient(n: int, d: int)
    requires d > 0
    ensures (n / d) * d <= n < (n / d + 1) * d
  {
    assert (n / d + 1) * d == (n / d) * d + d;
  }

  lemma EpochsGrow(s: System, epoch: int)
    requires Inv(s) && epoch >= 1 && (s.epochs == [] || epoch == s.epoch || epoch >= s.epoch + OUTPUT_INTERVAL)
    ensures var es := AppendEpoch(s.epochs, epoch);
            && es != [] && es[|es| - 1] == epoch && es[0] >= 1 && Spaced(es)
            && forall x :: x in s.epochs ==> x in es
  {
  }

  lemma OpenKeepsInv(s: System, id: int, now: int)
    requires Inv(s) && Enabled(s, Open(id, now))
    ensures Inv(Step(s, Open(id, now)))
  {
    var t := Step(s, Open(id, now));
    EpochsGrow(s, OpenEpoch(s.epoch, now));
    forall i | 0 <= i < |t.monitors| ensures MonitorInv(t, t.monitors[i], t.logs[i]) {
      if i < |s.monitors| {
        assert MonitorInv(s, s.monitors[i], s.logs[i]);
      }
    }
  }

  lemma IncrementKeepsInv(s: System, e: Event)
    requires Inv(s) && Enabled(s, e) && (e.Inc? || e.IncGtp?)
    ensures Inv(Step(s, e))
  {
    var t := Step(s, e);
    forall i | 0 <= i < |t.monitors| ensures MonitorInv(t, t.monitors[i], t.logs[i]) {
      assert MonitorInv(s, s.monitors[i], s.logs[i]);
    }
  }

  lemma HandleKeepsInv(s: System, m: nat, now: int)
    requires Inv(s) && Enabled(s, Handle(m, now))
    ensures Inv(Step(s, Handle(m, now)))
  {
    var t := Step(s, Handle(m, now));
    EpochsGrow(s, Advance(s.epoch, now));
    forall i | 0 <= i < |t.monitors| ensures MonitorInv(t, t.monitors[i], t.logs[i]) {
      assert MonitorInv(s, s.monitors[i], s.logs[i]);
      if i == m {
        HandledMonitorInv(s, m, now, t.epochs);
        MonitorInvDependsOnEpochs(System(0, 0, [], [], t.epochs), t, t.monitors[i], t.logs[i]);
      } else {
        MonitorInvDependsOnEpochs(s, t, t.monitors[i], t.logs[i]);
      }
    }
    hide MonitorInv, Spaced, AppendEpoch;
  }

  lemma MonitorInvDependsOnEpochs(s: System, t: System, r: Record, log: Log)
    requires MonitorInv(s, r, log) && forall x :: x in s.epochs ==> x in t.epochs
    ensures MonitorInv(t, r, log)
  {
  }

  /** The handled monitor, against the epochs after the call. */
  lemma HandledMonitorInv(s: System, m: nat, now: int, epochs: seq<int>)
    requires Inv(s) && Enabled(s, Handle(m, now)) && Advance(s.epoch, now) in epochs
    requires forall x :: x in s.epochs ==> x in epochs
    ensures var t := Step(s, Handle(m, now));
            MonitorInv(System(0, 0, [], [], epochs), t.monitors[m], t.logs[m])
  {
    assert MonitorInv(s, s.monitors[m], s.logs[m]);
    if ReportOf(s.epoch, s.monitors[m], now).Some? {
      PastEpoch(s, s.monitors[m].last);
      ReportsIffDue(s, m, now);
      TimesGrow(s.logs[m], ReportOf(s.epoch, s.monitors[m], now).value);
    }
    hide Spaced, AppendEpoch, Times;
  }

  lemma TimesGrow(log: Log, r: Report)
    requires Spaced(Times(log)) && Times(log)[|log.reports|] + OUTPUT_INTERVAL <= r.epoch
    ensures Times(log.(reports := log.reports + [r])) == Times(log) + [r.epoch]
    ensures Spaced(Times(log) + [r.epoch])
  {
  }

  lemma StepKeepsInv(s: System, e: Event)
    requires Inv(s) && Enabled(s, e)
    ensures Inv(Step(s, e))
  {
    match e {
      case Open(id, now) => OpenKeepsInv(s, id, now);
      case Handle(i, now) => HandleKeepsInv(s, i, now);
      case _ => IncrementKeepsInv(s, e);
    }
  }

  /** The system after a run; Stuck when some event of it was not enabled. */
  datatype Outcome = Stuck | At(system: System)

  function Run(run: seq<Event>): (o: Outcome)
    ensures o.At? ==> Inv(o.system)
  {
    if run == [] then At(INIT)
    else
      match Run(run[..|run| - 1])
      case Stuck => Stuck
      case At(s) =>
        if Enabled(s, run[|run| - 1]) then
          StepKeepsInv(s, run[|run| - 1]);
          At(Step(s, run[|run| - 1]))
        else Stuck
  }

  /** Over any run, every monitor's recorded time is a past value of the shared epoch and
      not ahead of it, and the epoch only moves by 10 seconds or more at a time. */
  lemma RecordedTimes(run: seq<Event>, i: nat)
    requires Run(run).At? && i < |Run(run).system.monitors|
    ensures var s := Run(run).system;
            && s.monitors[i].last in s.epochs && s.monitors[i].last <= s.epoch <= s.clock
            && Spaced(s.epochs)
  {
    var s := Run(run).system;
    assert MonitorInv(s, s.monitors[i], s.logs[i]);
    PastEpoch(s, s.monitors[i].last);
  }

  /** Over any run, a monitor reports at most once per epoch, so at most once per 10
      seconds of the time from the epoch it was opened at. */
  lemma ReportCount(run: seq<Event>, i: nat)
    requires Run(run).At? && i < |Run(run).system.monitors|
    ensures var s := Run(run).system; var log := s.logs[i];
            && (forall j, k :: 0 <= j < k < |log.reports| ==> log.reports[j].epoch < log.reports[k].epoch)
            && |log.reports| <= (s.clock - log.openedAt) / OUTPUT_INTERVAL
  {
    ReportCountAt(Run(run).system, i);
  }

  lemma ReportCountAt(s: System, i: nat)
    requires Inv(s) && i < |s.monitors|
    ensures var log := s.logs[i];
            && (forall j, k :: 0 <= j < k < |log.reports| ==> log.reports[j].epoch < log.reports[k].epoch)
            && |log.reports| <= (s.clock - log.openedAt) / OUTPUT_INTERVAL
  {
    var log := s.logs[i];
    assert MonitorInv(s, s.monitors[i], log);
    PastEpoch(s, s.monitors[i].last);
    SpacedSpan(Times(log));
    forall j, k | 0 <= j < k < |log.reports| ensures log.reports[j].epoch < log.reports[k].epoch {
      assert Times(log)[j + 1] + OUTPUT_INTERVAL <= Times(log)[k + 1];
    }
  }

  /** Two monitors opened at time 1; one call for the first moves the epoch to 11, and the
      second reports at 20 and again at 21. */
  function CloseReports(): seq<Event> {
    [Open(0, 1), Open(1, 1), Handle(0, 11), Handle(1, 20), Handle(1, 21)]
  }

  /** So although a monitor reports at most once per epoch, its reports may be a second apart. */
  lemma ReportsMayBeClose()
    ensures var run := CloseReports();
            && Run(run[..4]).At? && Run(run).At?
            && Run(run[..4]).system.clock == 20 && |Run(run[..4]).system.logs[1].reports| == 1
            && Run(run).system.clock == 21 && |Run(run).system.logs[1].reports| == 2
  {
    hide Inv, MonitorInv, Spaced, Run;
    var run := CloseReports();
    var r := Report(11, 19, ZERO, 0, 0);
    var s4 := System(11, 20, [Record(0, ZERO, 11), Record(1, ZERO, 11)],
                     [Log(1, [Report(11, 10, ZERO, 0, 0)]), Log(1, [r])], [1, 11]);
    FirstReports(run, s4);
    RunSnoc(run, 4);
    assert run[..5] == run;
    assert ReportOf(11, s4.monitors[1], 21) == Some(Report(21, 10, ZERO, 0, 0));
  }

  lemma FirstReports(run: seq<Event>, s4: System)
    requires run == CloseReports()
    requires s4 == System(11, 20, [Record(0, ZERO, 11), Record(1, ZERO, 11)],
                          [Log(1, [Report(11, 10, ZERO, 0, 0)]), Log(1, [Report(11, 19, ZERO, 0, 0)])], [1, 11])
    ensures Run(run[..4]) == At(s4)
  {
    hide Inv, MonitorInv, Spaced, Run;
    var r0, r1 := Record(0, ZERO, 1), Record(1, ZERO, 1);
    var s2 := System(1, 1, [r0, r1], [Log(1, []), Log(1, [])], [1]);
    TwoOpened(run, s2);
    RunSnoc(run, 2);
    var r := Report(11, 10, ZERO, 0, 0);
    assert ReportOf(1, r0, 11) == Some(r);
    var s3 := System(11, 11, [Record(0, ZERO, 11), r1], [Log(1, [r]), Log(1, [])], [1, 11]);
    assert Step(s2, run[2]) == s3 by {
      assert [] + [r] == [r] && [1] + [11] == [1, 11];
      assert s2.monitors[0 := Record(0, ZERO, 11)] == s3.monitors && s2.logs[0 := Log(1, [r])] == s3.logs;
    }
    RunSnoc(run, 3);
    var q := Report(11, 19, ZERO, 0, 0);
    assert ReportOf(11, r1, 20) == Some(q);
    assert Step(s3, run[3]) == s4 by {
      assert [] + [q] == [q];
      assert s3.monitors[1 := Record(1, ZERO, 11)] == s4.monitors && s3.logs[1 := Log(1, [q])] == s4.logs;
    }
  }

  lemma TwoOpened(run: seq<Event>, s2: System)
    requires run == CloseReports()
    requires s2 == System(1, 1, [Record(0, ZERO, 1), Record(1, ZERO, 1)], [Log(1, []), Log(1, [])], [1])
    ensures Run(run[..2]) == At(s2)
  {
    hide Inv, MonitorInv, Spaced, Run;
    RunEmpty();
    assert run[..0] == [];
    RunSnoc(run, 0);
    assert Step(INIT, run[0]) == System(1, 1, [Record(0, ZERO, 1)], [Log(1, [])], [1]);
    RunSnoc(run, 1);
  }

  lemma RunEmpty()
    ensures Run([]) == At(INIT)
  {
  }

  lemma RunSnoc(run: seq<Event>, n: nat)
    requires n < |run| && Run(run[..n]).At? && Enabled(Run(run[..n]).system, run[n])
    ensures Run(run[..n + 1]) == At(Step(Run(run[..n]).system, run[n]))
  {
    assert run[..n + 1][..n] == run[..n];
  }

  lemma {:induction false} SpacedSpan(times: seq<int>)
    requires Spaced(times) && times != []
    ensures times[0] + OUTPUT_INTERVAL * (|times| - 1) <= times[|times| - 1]
  {
    if |times| > 1 {
      SpacedSpan(times[..|times| - 1]);
    }
  }

  // ----- what calls do to a run's epoch, monitors and reports

  lemma RunExtended(run: seq<Event>, e: Event)
    requires Run(run).At?
    ensures Run(run + [e]) == if Enabled(Run(run).system, e) then At(Step(Run(run).system, e)) else Stuck
  {
    assert (run + [e])[..|run|] == run;
  }

  /** The clock reading of a call, if it takes one. */
  function TimeOf(e: Event): Option<int> {
    match e
    case Open(_, now) => Some(now)
    case Handle(_, now) => Some(now)
    case _ => None
  }

  /** A run goes on with any call at a time not before the last one, on a monitor that exists;
      an increment may also be given no monitor. */
  lemma RunGoesOn(run: seq<Event>, e: Event)
    requires Run(run).At?
    ensures var s := Run(run).system;
            Run(run + [e]).At? <==>
              && (TimeOf(e).Some? ==> s.clock <= TimeOf(e).value <= 0x7FFF_FFFF)
              && (match e
                  case Open(_, _) => true
                  case Inc(target, _, _) => target == Null || target.index < |s.monitors|
                  case IncGtp(target, _, _, _) => target == Null || target.index < |s.monitors|
                  case Handle(i, _) => i < |s.monitors|)
  {
    RunExtended(run, e);
    hide Run;
  }

  /** Opening a monitor: the first one sets the epoch, later ones leave it alone; the new
      monitor is zero and stands at the epoch, and no other changes. */
  lemma OpenedRun(run: seq<Event>, id: int, now: int)
    requires Run(run).At? && Run(run + [Open(id, now)]).At?
    ensures var s, t := Run(run).system, Run(run + [Open(id, now)]).system;
            && t.epoch == (if s.epochs == [] then now else s.epoch)
            && t.monitors == s.monitors + [Record(id, Counters(0, 0, 0, 0, 0, 0, 0), t.epoch)]
            && t.logs == s.logs + [Log(t.epoch, [])] && t.clock == now
  {
    RunExtended(run, Open(id, now));
    var s := Run(run).system;
    assert s.epochs != [] ==> s.epoch >= s.epochs[0] >= 1 by {
      if s.epochs != [] && |s.epochs| > 1 {
        assert s.epochs[0] + OUTPUT_INTERVAL <= s.epochs[|s.epochs| - 1];
      }
    }
    hide Run, MonitorInv, Spaced;
  }

  /** Handling monitor i: the epoch moves to the time of the call if it was 10 seconds old and
      stays otherwise. A report is made exactly when 10 seconds have passed since the monitor's
      recorded time; it covers that time and the counters, which start again from zero, and the
      monitor stands at the epoch afterwards. */
  lemma HandledRun(run: seq<Event>, i: nat, now: int)
    requires Run(run).At? && i < |Run(run).system.monitors| && Run(run + [Handle(i, now)]).At?
    ensures var s, t := Run(run).system, Run(run + [Handle(i, now)]).system;
            var m := s.monitors[i];
            && |t.monitors| == |t.logs| == |s.monitors| == |s.logs|
            && t.epoch == (if now - s.epoch >= 10 then now else s.epoch) && now - t.epoch < 10
            && (if now - m.last < 10 then t.monitors == s.monitors && t.logs == s.logs
                else
                  && t.monitors == s.monitors[i := Record(m.id, Counters(0, 0, 0, 0, 0, 0, 0), t.epoch)]
                  && (exists r: Report ::
                        && t.logs == s.logs[i := s.logs[i].(reports := s.logs[i].reports + [r])]
                        && r.epoch == t.epoch && r.seconds == now - m.last && r.counters == m.counters))
  {
    var s := Run(run).system;
    RunExtended(run, Handle(i, now));
    hide Run;
    ReportsIffDue(s, i, now);
    var t := Step(s, Handle(i, now));
    hide Inv, MonitorInv, Spaced;
    if now - s.monitors[i].last >= 10 {
      var r := ReportOf(s.epoch, s.monitors[i], now).value;
      assert t.logs == s.logs[i := s.logs[i].(reports := s.logs[i].reports + [r])];
    } else {
      assert t.monitors == s.monitors;
    }
  }

  /** Counting packets on monitor i changes two of its counters, and nothing else. */
  lemma CountedRun(run: seq<Event>, i: nat, n: int, bytes: int)
    requires Run(run).At? && i < |Run(run).system.monitors|
    ensures var s := Run(run).system; var m := s.monitors[i]; var c := m.counters;
            Run(run + [Inc(Monitor(i), n, bytes)])
            == At(s.(monitors := s.monitors[i := m.(
                 counters := c.(packets := c.packets + n, bytes := c.bytes + bytes))]))
  {
    hide *;
    RunShape(run);
    StepCounts(Run(run).system, i, n, bytes, 0);
    RunExtended(run, Inc(Monitor(i), n, bytes));
  }

  /** Counting tunnelled packets changes the other five, the last three by their option bits. */
  lemma GtpCountedRun(run: seq<Event>, i: nat, n: int, bytes: int, o: bv32)
    requires Run(run).At? && i < |Run(run).system.monitors|
    ensures var s := Run(run).system; var m := s.monitors[i]; var c := m.counters;
            Run(run + [IncGtp(Monitor(i), n, bytes, o)])
            == At(s.(monitors := s.monitors[i := m.(
                 counters := c.(gtpPackets := c.gtpPackets + n, gtpBytes := c.gtpBytes + bytes,
                                gtpExt := c.gtpExt + One(o & 4 != 0),
                                gtpSeqno := c.gtpSeqno + One(o & 2 != 0),
                                gtpNpdu := c.gtpNpdu + One(o & 1 != 0)))]))
  {
    hide *;
    RunShape(run);
    StepCounts(Run(run).system, i, n, bytes, o);
    RunExtended(run, IncGtp(Monitor(i), n, bytes, o));
  }

  lemma RunShape(run: seq<Event>)
    requires Run(run).At?
    ensures var s := Run(run).system; |s.monitors| == |s.logs| && s.epoch <= s.clock
  {
    hide Run, MonitorInv, Spaced;
  }

  lemma StepCounts(s: System, i: nat, n: int, bytes: int, o: bv32)
    requires i < |s.monitors| == |s.logs| && s.epoch <= s.clock
    ensures Enabled(s, Inc(Monitor(i), n, bytes)) && Enabled(s, IncGtp(Monitor(i), n, bytes, o))
    ensures var m := s.monitors[i]; var c := m.counters;
            && Step(s, Inc(Monitor(i), n, bytes))
               == s.(monitors := s.monitors[i := m.(
                    counters := c.(packets := c.packets + n, bytes := c.bytes + bytes))])
            && Step(s, IncGtp(Monitor(i), n, bytes, o))
               == s.(monitors := s.monitors[i := m.(
                    counters := c.(gtpPackets := c.gtpPackets + n, gtpBytes := c.gtpBytes + bytes,
                                   gtpExt := c.gtpExt + One(o & 4 != 0),
                                   gtpSeqno := c.gtpSeqno + One(o & 2 != 0),
                                   gtpNpdu := c.gtpNpdu + One(o & 1 != 0)))])
  {
    GtpRecord(s.monitors[i], n, bytes, o);
    hide IncrementGtp, One;
  }

  lemma GtpRecord(r: Record, n: int, bytes: int, o: bv32)
    ensures var c := r.counters;
            IncrementGtp(r, n, bytes, o)
            == r.(counters := c.(gtpPackets := c.gtpPackets + n, gtpBytes := c.gtpBytes + bytes,
                                 gtpExt := c.gtpExt + One(o & 4 != 0),
                                 gtpSeqno := c.gtpSeqno + One(o & 2 != 0),
                                 gtpNpdu := c.gtpNpdu + One(o & 1 != 0)))
  {
    FlagsAreBits(o);
    hide ExtFlag, SeqFlag, NpduFlag, One;
  }

  /** Without a monitor nothing is counted. */
  lemma NobodyCounts(run: seq<Event>, n: int, bytes: int, o: bv32)
    requires Run(run).At?
    ensures Run(run + [Inc(Null, n, bytes)]) == Run(run + [IncGtp(Null, n, bytes, o)]) == Run(run)
  {
    RunExtended(run, Inc(Null, n, bytes));
    RunExtended(run, IncGtp(Null, n, bytes, o));
    hide Run, Inv;
  }

  /** Every epoch of a run is the time of one of its calls. */
  lemma {:induction false} EpochsAreTimes(run: seq<Event>, epoch: int)
    requires Run(run).At? && epoch in Run(run).system.epochs
    ensures exists n :: 0 <= n < |run| && TimeOf(run[n]) == Some(epoch)
  {
    if run != [] {
      var n := |run| - 1;
      var front, e := run[..n], run[n];
      assert run == front + [e] && Run(front).At?;
      RunExtended(front, e);
      var s := Run(front).system;
      hide Run, Inv, Spaced;
      if epoch in s.epochs {
        EpochsAreTimes(front, epoch);
        var m :| 0 <= m < |front| && TimeOf(front[m]) == Some(epoch);
        assert TimeOf(run[m]) == Some(epoch);
      } else {
        NewEpoch(s, e, epoch);
        assert TimeOf(run[n]) == Some(epoch);
      }
    }
  }

  lemma NewEpoch(s: System, e: Event, epoch: int)
    requires Inv(s) && Enabled(s, e) && epoch in Step(s, e).epochs && epoch !in s.epochs
    ensures TimeOf(e) == Some(epoch)
  {
    hide MonitorInv, Spaced, ReportOf, AfterHandle;
  }

  // ----- conservation

  function Reported(reports: seq<Report>, w: Which): int {
    if reports == [] then 0 else Reported(reports[..|reports| - 1], w) + reports[|reports| - 1].counters.Get(w)
  }

  function One(b: bool): int {
    if b then 1 else 0
  }

  /** What an event adds to a counter of monitor i; the flag counters count the calls with
      option bit 2, 1 or 0 set. */
  function Contribution(e: Event, i: nat, w: Which): int {
    match e
    case Inc(target, p, b) =>
      if target != Monitor(i) then 0
      else if w == Packets then p else if w == Bytes then b else 0
    case IncGtp(target, p, b, o) => (
      if target != Monitor(i) then 0
      else
        match w
        case GtpPackets => p
        case GtpBytes => b
        case GtpExt => One(o & 4 != 0)
        case GtpSeqno => One(o & 2 != 0)
        case GtpNpdu => One(o & 1 != 0)
        case _ => 0)
    case _ => 0
  }

  function Received(run: seq<Event>, i: nat, w: Which): int {
    if run == [] then 0 else Received(run[..|run| - 1], i, w) + Contribution(run[|run| - 1], i, w)
  }

  lemma FlagsAreBits(o: bv32)
    ensures ExtFlag(o) as int == One(o & 4 != 0)
    ensures SeqFlag(o) as int == One(o & 2 != 0)
    ensures NpduFlag(o) as int == One(o & 1 != 0)
  {
    assert ExtFlag(o) == if o & 4 != 0 then 1 else 0;
    assert SeqFlag(o) == if o & 2 != 0 then 1 else 0;
    assert NpduFlag(o) == if o & 1 != 0 then 1 else 0;
  }

  /** Everything that monitor i has ever counted, reported or not; zero before it exists. */
  function Balance(s: System, i: nat, w: Which): int
    requires |s.monitors| == |s.logs|
  {
    if i < |s.monitors| then Reported(s.logs[i].reports, w) + s.monitors[i].counters.Get(w) else 0
  }

  lemma OpenBalance(s: System, id: int, now: int, i: nat, w: Which)
    requires Inv(s) && Enabled(s, Open(id, now))
    ensures var t := Step(s, Open(id, now)); |t.monitors| == |t.logs| && Balance(t, i, w) == Balance(s, i, w)
  {
    hide MonitorInv, Spaced, AppendEpoch;
    var t := Step(s, Open(id, now));
    assert t.logs[|s.monitors|].reports == [] && t.monitors[|s.monitors|].counters == ZERO;
  }

  lemma HandleBalance(s: System, m: nat, now: int, i: nat, w: Which)
    requires Inv(s) && Enabled(s, Handle(m, now))
    ensures var t := Step(s, Handle(m, now)); |t.monitors| == |t.logs| && Balance(t, i, w) == Balance(s, i, w)
  {
    hide MonitorInv, Spaced, AppendEpoch;
    var t := Step(s, Handle(m, now));
    var report := ReportOf(s.epoch, s.monitors[m], now);
    if m == i && report.Some? {
      var rs := s.logs[i].reports;
      assert t.logs[i].reports == rs + [report.value];
      assert (rs + [report.value])[..|rs|] == rs;
      assert t.monitors[i].counters == ZERO;
    } else if i < |s.monitors| {
      assert t.logs[i] == s.logs[i] && t.monitors[i] == s.monitors[i];
    }
  }

  lemma IncrementBalance(s: System, e: Event, i: nat, w: Which)
    requires Inv(s) && Enabled(s, e) && (e.Inc? || e.IncGtp?)
    ensures var t := Step(s, e);
            |t.monitors| == |t.logs| && Balance(t, i, w) == Balance(s, i, w) + Contribution(e, i, w)
  {
    hide MonitorInv, Spaced, Reported, ExtFlag, SeqFlag, NpduFlag;
    if e.IncGtp? {
      FlagsAreBits(e.options);
      GtpBalance(s, e, i, w);
    }
  }

  lemma GtpBalance(s: System, e: Event, i: nat, w: Which)
    requires Inv(s) && Enabled(s, e) && e.IncGtp?
    ensures var t := Step(s, e);
            |t.monitors| == |t.logs| && Balance(t, i, w) == Balance(s, i, w) + Contribution(e, i, w)
  {
    FlagsAreBits(e.options);
    hide Inv, Reported, ExtFlag, SeqFlag, NpduFlag, One;
    if e.target == Monitor(i) {
      var r := s.monitors[i];
      assert Step(s, e).monitors[i] == IncrementGtp(r, e.packets, e.bytes, e.options);
      assert IncrementGtp(r, e.packets, e.bytes, e.options).counters.Get(w)
             == r.counters.Get(w) + Contribution(e, i, w);
    }
  }

  lemma StepBalance(s: System, e: Event, i: nat, w: Which)
    requires Inv(s) && Enabled(s, e)
    ensures var t := Step(s, e);
            |t.monitors| == |t.logs| && Balance(t, i, w) == Balance(s, i, w) + Contribution(e, i, w)
  {
    match e {
      case Open(id, now) => OpenBalance(s, id, now, i, w);
      case Handle(m, now) => HandleBalance(s, m, now, i, w);
      case _ => IncrementBalance(s, e, i, w);
    }
    hide MonitorInv, Spaced, Reported, Step, Balance;
  }

  /** For each monitor and each counter, reported values plus the current value are exactly
      what the calls added, over any run. */
  lemma {:induction false} Conservation(run: seq<Event>, i: nat, w: Which)
    requires Run(run).At?
    ensures Balance(Run(run).system, i, w) == Received(run, i, w)
  {
    if run != [] {
      Conservation(run[..|run| - 1], i, w);
      StepBalance(Run(run[..|run| - 1]).system, run[|run| - 1], i, w);
    }
  }

  // ----- the structures the program updates

  /** The epoch variable that all monitors share. */
  class Epoch {
    var time: int

    constructor ()
      ensures time == 0
    {
      time := 0;
    }
  }

  class MonitorStruct {
    var id: int
    var packets: int
    var bytes: int
    var gtpPackets: int
    var gtpBytes: int
    var gtpExt: int
    var gtpSeqno: int
    var gtpNpdu: int
    var lastOutputTime: int

    ghost function View(): Record
      reads this
    {
      Record(id, Counters(packets, bytes, gtpPackets, gtpBytes, gtpExt, gtpSeqno, gtpNpdu), lastOutputTime)
    }

    constructor (id: int, shared: Epoch, now: int)
      modifies shared
      ensures shared.time == OpenEpoch(old(shared.time), now)
      ensures View() == Record(id, ZERO, shared.time)
    {
      this.id := id;
      packets, bytes := 0, 0;
      gtpPackets, gtpBytes, gtpExt, gtpSeqno, gtpNpdu := 0, 0, 0, 0, 0;
      lastOutputTime := 0;
      new;
      if shared.time == 0 {
        shared.time := now;
      }
      lastOutputTime := shared.time;
    }
  }

  method MonitorIncrement(monitor: MonitorStruct?, packets: int, bytes: int)
    modifies monitor
    ensures monitor != null ==> monitor.View() == Increment(old(monitor.View()), packets, bytes)
  {
    if monitor == null {
      return;
    }
    monitor.packets := monitor.packets + packets;
    monitor.bytes := monitor.bytes + bytes;
  }

  method MonitorIncrementGtp(monitor: MonitorStruct?, packets: int, bytes: int, options: bv32)
    modifies monitor
    ensures monitor != null ==> monitor.View() == IncrementGtp(old(monitor.View()), packets, bytes, options)
  {
    if monitor == null {
      return;
    }
    monitor.gtpPackets := monitor.gtpPackets + packets;
    monitor.gtpBytes := monitor.gtpBytes + bytes;
    monitor.gtpExt := monitor.gtpExt + ExtFlag(options) as int;
    monitor.gtpSeqno := monitor.gtpSeqno + SeqFlag(options) as int;
    monitor.gtpNpdu := monitor.gtpNpdu + NpduFlag(options) as int;
  }

  /** Returns what it writes to the log, if anything. */
  method HandleMonitor(monitor: MonitorStruct, shared: Epoch, now: int) returns (report: Option<Report>)
    requires shared.time <= now
    modifies monitor, shared
    ensures report == ReportOf(old(shared.time), old(monitor.View()), now)
    ensures shared.time == Advance(old(shared.time), now)
    ensures monitor.View() == AfterHandle(old(shared.time), old(monitor.View()), now)
  {
    if now - shared.time >= OUTPUT_INTERVAL {
      shared.time := now;
    }
    if shared.time <= monitor.lastOutputTime {
      return None;
    }
    var seconds := now - monitor.lastOutputTime;
    var packetRate := if monitor.packets > 0 then monitor.packets / seconds else 0;
    var byteRate := if monitor.bytes > 0 then monitor.bytes / seconds else 0;
    var counters := Counters(monitor.packets, monitor.bytes, monitor.gtpPackets, monitor.gtpBytes,
                             monitor.gtpExt, monitor.gtpSeqno, monitor.gtpNpdu);
    report := Some(Report(shared.time, seconds, counters, packetRate, byteRate));
    monitor.lastOutputTime := shared.time;
    monitor.bytes := 0;
    monitor.packets := 0;
    monitor.gtpBytes := 0;
    monitor.gtpPackets := 0;
    monitor.gtpExt := 0;
    monitor.gtpSeqno := 0;
    monitor.gtpNpdu := 0;
  }

  // ----- a program that uses them

  /** The structures stand for the run's system. */
  ghost predicate Represents(shared: Epoch, monitors: seq<MonitorStruct>, logs: seq<seq<Report>>, s: System)
    reads shared, monitors
  {
    && shared.time == s.epoch && |monitors| == |s.monitors| == |s.logs| == |logs|
    && (forall i :: 0 <= i < |monitors| ==> monitors[i].View() == s.monitors[i] && logs[i] == s.logs[i].reports)
    && (forall i, j :: 0 <= i < j < |monitors| ==> monitors[i] != monitors[j])
  }

  lemma {:induction false} RunPrefix(run: seq<Event>, i: nat)
    requires i <= |run| && Run(run).At?
    ensures Run(run[..i]).At?
    decreases |run| - i
  {
    if i == |run| {
      assert run[..i] == run;
    } else {
      RunPrefix(run, i + 1);
      assert run[..i + 1][..i] == run[..i];
    }
  }

  /** Any possible run, carried out on one epoch and as many monitors as it opens. */
  method Execute(run: seq<Event>) returns (shared: Epoch, monitors: seq<MonitorStruct>, logs: seq<seq<Report>>)
    requires Run(run).At?
    ensures Represents(shared, monitors, logs, Run(run).system)
  {
    shared := new Epoch();
    monitors, logs := [], [];
    for n := 0 to |run|
      invariant Run(run[..n]).At? && Represents(shared, monitors, logs, Run(run[..n]).system)
      invariant fresh(shared) && forall i :: 0 <= i < |monitors| ==> fresh(monitors[i])
    {
      RunPrefix(run, n + 1);
      assert run[..n + 1][..n] == run[..n];
      ghost var s := Run(run[..n]).system;
      hide Run;
      monitors, logs := Perform(shared, monitors, logs, run[n], s);
    }
    assert run[..|run|] == run;
  }

  /** One event on the structures. */
  method Perform(shared: Epoch, monitors: seq<MonitorStruct>, logs: seq<seq<Report>>, e: Event, ghost s: System)
    returns (monitors': seq<MonitorStruct>, logs': seq<seq<Report>>)
    requires Inv(s) && Enabled(s, e) && Represents(shared, monitors, logs, s)
    modifies shared, monitors
    ensures Represents(shared, monitors', logs', Step(s, e))
    ensures forall i :: 0 <= i < |monitors'| ==> (i < |monitors| && monitors'[i] == monitors[i]) || fresh(monitors'[i])
  {
    monitors', logs' := monitors, logs;
    hide MonitorInv, Spaced, AppendEpoch, ReportOf, AfterHandle, Advance, OpenEpoch, Increment, IncrementGtp;
    match e
    case Open(id, now) =>
      var m := new MonitorStruct(id, shared, now);
      monitors', logs' := monitors + [m], logs + [[]];
    case Inc(target, packets, bytes) =>
      MonitorIncrement(if target.Null? then null else monitors[target.index], packets, bytes);
    case IncGtp(target, packets, bytes, options) =>
      MonitorIncrementGtp(if target.Null? then null else monitors[target.index], packets, bytes, options);
    case Handle(i, now) =>
      var report := HandleMonitor(monitors[i], shared, now);
      if report.Some? {
        logs' := logs[i := logs[i] + [report.value]];
      }
  }
}
