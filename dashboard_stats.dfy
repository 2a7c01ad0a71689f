/**
 * The server-sent statistics stream of src/app/api/dashboard/stats/route.ts: the refresh
 * interval chosen by the `interval` query parameter, CPU usage from the difference of two
 * per-core tick samples, the memory figures, and the `closed` flag that silences the stream.
 * The samples themselves (`os.cpus()`, `os.totalmem()`, ...) are inputs.
 */
module DashboardStats {
  import opened Wrappers
  import opened Text

  const DefaultInterval: string := "realtime"

  /** `getIntervalMs`. */
  function IntervalMs(interval: string): (ms: nat)
    ensures interval == "1min" ==> ms == 60000
    ensures interval == "5min" ==> ms == 300000
    ensures interval == "10min" ==> ms == 600000
    ensures interval !in {"1min", "5min", "10min"} ==> ms == 1000
  {
    match interval
    case "1min" => 60000
    case "5min" => 300000
    case "10min" => 600000
    case _ => 1000
  }

  /** `searchParams.get("interval") || "realtime"`. */
  function IntervalOf(param: Option<string>): string {
    if Truthy(param) then param.value else DefaultInterval
  }

  /** Without a usable `interval` parameter the stream refreshes every second, and never more often than that. */
  lemma IntervalDefaults(param: Option<string>)
    ensures !Truthy(param) ==> IntervalMs(IntervalOf(param)) == 1000
    ensures IntervalMs(IntervalOf(param)) >= 1000
  {
  }

  /** One core's cumulative tick counters (`cpus[i].times`). */
  datatype CpuTimes = CpuTimes(user: int, nice: int, sys: int, idle: int, irq: int)

  /** The idle ticks and all ticks one core spent between two samples. */
  function IdleDelta(a: CpuTimes, b: CpuTimes): int {
    b.idle - a.idle
  }

  function TickDelta(a: CpuTimes, b: CpuTimes): int {
    (b.user - a.user) + (b.nice - a.nice) + (b.sys - a.sys) + (b.idle - a.idle) + (b.irq - a.irq)
  }

  /** `totalIdle` over the first `n` cores. */
  function TotalIdle(before: seq<CpuTimes>, after: seq<CpuTimes>, n: nat): int
    requires n <= |after| <= |before|
  {
    if n == 0 then 0 else TotalIdle(before, after, n - 1) + IdleDelta(before[n - 1], after[n - 1])
  }

  /** `totalTick` over the first `n` cores. */
  function TotalTick(before: seq<CpuTimes>, after: seq<CpuTimes>, n: nat): int
    requires n <= |after| <= |before|
  {
    if n == 0 then 0 else TotalTick(before, after, n - 1) + TickDelta(before[n - 1], after[n - 1])
  }

  /** The busy share of all ticks, as a percentage; 0 when no tick elapsed. */
  function CpuOf(before: seq<CpuTimes>, after: seq<CpuTimes>): real
    requires |after| <= |before|
  {
    var idle := TotalIdle(before, after, |after|);
    var tick := TotalTick(before, after, |after|);
    if tick > 0 then (1.0 - idle as real / tick as real) * 100.0 else 0.0
  }

  /** The loop of `getCpuUsage` over the cores of the second sample. */
  method CpuUsage(before: seq<CpuTimes>, after: seq<CpuTimes>) returns (cpu: real)
    requires |after| <= |before|
    ensures cpu == CpuOf(before, after)
  {
    var totalIdle := 0;
    var totalTick := 0;
    var i := 0;
    while i < |after|
      invariant 0 <= i <= |after|
      invariant totalIdle == TotalIdle(before, after, i)
      invariant totalTick == TotalTick(before, after, i)
    {
      var c1, c2 := before[i], after[i];
      var idle := c2.idle - c1.idle;
      var total := (c2.user - c1.user) + (c2.nice - c1.nice) + (c2.sys - c1.sys) + (c2.idle - c1.idle) + (c2.irq - c1.irq);
      totalIdle := totalIdle + idle;
      totalTick := totalTick + total;
      i := i + 1;
    }
    cpu := if totalTick > 0 then (1.0 - totalIdle as real / totalTick as real) * 100.0 else 0.0;
  }

  /** No counter of any core went backwards between the two samples. */
  predicate CountersGrow(before: seq<CpuTimes>, after: seq<CpuTimes>)
    requires |after| <= |before|
  {
    forall i :: 0 <= i < |after| ==>
      && after[i].user >= before[i].user && after[i].nice >= before[i].nice && after[i].sys >= before[i].sys
      && after[i].idle >= before[i].idle && after[i].irq >= before[i].irq
  }

  /** With growing counters the idle ticks are a non-negative part of all ticks. */
  lemma {:induction false} IdleWithinTicks(before: seq<CpuTimes>, after: seq<CpuTimes>, n: nat)
    requires n <= |after| <= |before| && CountersGrow(before, after)
    ensures 0 <= TotalIdle(before, after, n) <= TotalTick(before, after, n)
  {
    if n > 0 {
      IdleWithinTicks(before, after, n - 1);
    }
  }

  /** With growing counters the usage is a percentage: between 0 and 100. */
  lemma CpuIsPercentage(before: seq<CpuTimes>, after: seq<CpuTimes>)
    requires |after| <= |before| && CountersGrow(before, after)
    ensures 0.0 <= CpuOf(before, after) <= 100.0
  {
    var idle := TotalIdle(before, after, |after|);
    var tick := TotalTick(before, after, |after|);
    IdleWithinTicks(before, after, |after|);
    if tick > 0 {
      var share := idle as real / tick as real;
      assert share * tick as real == idle as real;
      assert 0.0 <= share <= 1.0;
    }
  }

  /** A fully idle interval reads 0; one with no idle tick reads 100. */
  lemma CpuExtremes(before: seq<CpuTimes>, after: seq<CpuTimes>)
    requires |after| <= |before| && TotalTick(before, after, |after|) > 0
    ensures TotalIdle(before, after, |after|) == TotalTick(before, after, |after|) ==> CpuOf(before, after) == 0.0
    ensures TotalIdle(before, after, |after|) == 0 ==> CpuOf(before, after) == 100.0
  {
  }

  datatype Memory = Memory(used: int, total: int, percent: real)

  /** The memory figures from `os.totalmem()` and `os.freemem()`. */
  function MemoryOf(totalMem: nat, freeMem: nat): (m: Memory)
    requires totalMem > 0
    ensures m.used + freeMem == m.total == totalMem
    ensures m.percent * totalMem as real == m.used as real * 100.0
    ensures freeMem <= totalMem ==> 0.0 <= m.percent <= 100.0
  {
    var used := totalMem - freeMem;
    Memory(used, totalMem, used as real / totalMem as real * 100.0)
  }

  /** What one tick of `sendStats` reads from the system; `None` when reading it failed. */
  datatype Sample = Sample(timestamp: string, before: seq<CpuTimes>, after: seq<CpuTimes>,
                           totalMem: nat, freeMem: nat, uptime: real)

  predicate Readable(sample: Sample) {
    |sample.after| <= |sample.before| && sample.totalMem > 0
  }

  /** One `data:` event of the stream. */
  datatype StatsEvent = StatsEvent(timestamp: string, cpu: real, memory: Memory, uptime: real)

  function EventOf(sample: Sample): StatsEvent
    requires Readable(sample)
  {
    StatsEvent(sample.timestamp, CpuOf(sample.before, sample.after), MemoryOf(sample.totalMem, sample.freeMem), sample.uptime)
  }

  /** The stream of one request: whether it is closed, and the events enqueued so far. */
  class StatsStream {
    var closed: bool
    var sent: seq<StatsEvent>

    constructor ()
      ensures !closed && sent == []
    {
      closed := false;
      sent := [];
    }

    /** `sendStats`: nothing once closed; a failed reading closes the stream; otherwise one event is enqueued. */
    method SendStats(sample: Option<Sample>)
      requires sample.Some? ==> Readable(sample.value)
      modifies this
      ensures old(closed) ==> closed && sent == old(sent)
      ensures !old(closed) && sample.None? ==> closed && sent == old(sent)
      ensures !old(closed) && sample.Some? ==> !closed && sent == old(sent) + [EventOf(sample.value)]
    {
      if closed {
        return;
      }
      match sample {
        case None =>
          closed := true;
        case Some(s) =>
          var cpu := CpuUsage(s.before, s.after);
          var memory := MemoryOf(s.totalMem, s.freeMem);
          sent := sent + [StatsEvent(s.timestamp, cpu, memory, s.uptime)];
      }
    }

    /** The request's `abort` listener. */
    method Abort()
      modifies this
      ensures closed && sent == old(sent)
    {
      closed := true;
    }
  }
}
