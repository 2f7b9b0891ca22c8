/**
 The reading of `container.stats(stream=False)` in
 backend/core/docker_executor.py: `calculate_cpu_percent` and the memory
 figure. Every level of the stats document may be missing and falls back
 to the default the source passes to `dict.get`.
 */
module ContainerStats {
  import opened Wrappers

  datatype CpuUsage = CpuUsage(totalUsage: Option<int>)

  datatype CpuStats = CpuStats(cpuUsage: Option<CpuUsage>, systemCpuUsage: Option<int>)

  datatype MemoryStats = MemoryStats(usage: Option<int>)

  /** The stats document: `cpu_stats`, `precpu_stats` and `memory_stats`. */
  datatype Stats = Stats(cpuStats: Option<CpuStats>, precpuStats: Option<CpuStats>, memoryStats: Option<MemoryStats>)

  /** `.get("cpu_usage", {}).get("total_usage", 0)`. */
  function TotalUsage(cs: Option<CpuStats>): int
  {
    if cs.Some? && cs.value.cpuUsage.Some? && cs.value.cpuUsage.value.totalUsage.Some?
    then cs.value.cpuUsage.value.totalUsage.value
    else 0
  }

  /** `.get("system_cpu_usage", 1)`. */
  function SystemUsage(cs: Option<CpuStats>): int
  {
    if cs.Some? && cs.value.systemCpuUsage.Some? then cs.value.systemCpuUsage.value else 1
  }

  function CpuDelta(stats: Stats): int
  {
    TotalUsage(stats.cpuStats) - TotalUsage(stats.precpuStats)
  }

  function SystemDelta(stats: Stats): int
  {
    SystemUsage(stats.cpuStats) - SystemUsage(stats.precpuStats)
  }

  /**
   `calculate_cpu_percent`: the container's share of the system CPU time
   between the two samples, in percent; 0 when the system time did not
   advance. Rounding to two places is not modelled.
   */
  function CalculateCpuPercent(stats: Stats): (r: real)
    ensures SystemDelta(stats) <= 0 ==> r == 0.0
    ensures SystemDelta(stats) > 0 ==> r * (SystemDelta(stats) as real) == (CpuDelta(stats) as real) * 100.0
    ensures 0 <= CpuDelta(stats) <= SystemDelta(stats) ==> 0.0 <= r <= 100.0
    ensures r < 0.0 ==> CpuDelta(stats) < 0
  {
    var cpu := CpuDelta(stats) as real;
    var system := SystemDelta(stats) as real;
    if SystemDelta(stats) > 0 then
      ShareBounds(cpu, system);
      (cpu / system) * 100.0
    else 0.0
  }

  lemma ShareBounds(cpu: real, system: real)
    requires system > 0.0
    ensures (cpu / system) * system == cpu
    ensures 0.0 <= cpu ==> 0.0 <= cpu / system
    ensures cpu <= system ==> cpu / system <= 1.0
    ensures cpu / system < 0.0 ==> cpu < 0.0
  {
    var share := cpu / system;
    assert share * system == cpu;
    if share > 1.0 {
      assert (share - 1.0) * system > 0.0;
    }
    if share < 0.0 {
      assert (0.0 - share) * system > 0.0;
    }
  }

  /** Stats with no CPU counters, or no system counters, in either sample read as 0%. */
  lemma MissingCpuDataGivesZero(stats: Stats)
    requires (TotalUsage(stats.cpuStats) == 0 && TotalUsage(stats.precpuStats) == 0)
             || (SystemUsage(stats.cpuStats) == SystemUsage(stats.precpuStats))
    ensures CalculateCpuPercent(stats) == 0.0
  {
  }

  /** `stats.get("memory_stats", {}).get("usage", 0)`. */
  function MemoryUsage(stats: Stats): (r: int)
    ensures stats.memoryStats.None? || stats.memoryStats.value.usage.None? ==> r == 0
    ensures stats.memoryStats.Some? && stats.memoryStats.value.usage.Some? ==> r == stats.memoryStats.value.usage.value
  {
    if stats.memoryStats.Some? && stats.memoryStats.value.usage.Some? then stats.memoryStats.value.usage.value else 0
  }

  /** An empty stats document reports no memory and no CPU use. */
  lemma EmptyStatsReadAsZero()
    ensures MemoryUsage(Stats(None, None, None)) == 0
    ensures CalculateCpuPercent(Stats(None, None, None)) == 0.0
  {
  }
}
