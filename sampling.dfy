/** Sampling arithmetic of the monitoring tasks: the CPU clamp, the memory alert and the uptime. */
module Sampling {
  import opened Wrappers

  /** Delay between two CPU ticks, in seconds (MONITORING_CPU_DELAY). */
  const MonitoringCpuDelay: real := 60.0
  /** Delay between two memory ticks, in seconds (MONITORING_MEMORY_DELAY). */
  const MonitoringMemoryDelay: real := 300.0
  /** Memory usage percent from which an alert is sent (THRESHOLD_MEMORY). */
  const ThresholdMemory: real := 80.0

  datatype CpuUsage = CpuUsage(system: real, cleep: real)

  /** `min(reading, 100.0)`: the upper clamp applied to a CPU reading. */
  function ClampPercent(reading: real): (clamped: real)
    ensures clamped <= 100.0
    ensures reading <= 100.0 <==> clamped == reading
  {
    if 100.0 < reading then 100.0 else reading
  }

  /** `get_cpu_usage` on the two instrument readings (system-wide, then the application process). */
  function GetCpuUsage(systemReading: real, cleepReading: real): (usage: CpuUsage)
    ensures usage.system <= 100.0 && usage.cleep <= 100.0
  {
    CpuUsage(ClampPercent(systemReading), ClampPercent(cleepReading))
  }

  /**
   * Both values are at most 100; a reading at or below 100 passes unchanged, one above
   * becomes 100, and nothing clamps from below.
   */
  lemma CpuUsageClamp(systemReading: real, cleepReading: real)
    ensures GetCpuUsage(systemReading, cleepReading).system <= 100.0
    ensures GetCpuUsage(systemReading, cleepReading).cleep <= 100.0
    ensures systemReading <= 100.0 <==> GetCpuUsage(systemReading, cleepReading).system == systemReading
    ensures cleepReading <= 100.0 <==> GetCpuUsage(systemReading, cleepReading).cleep == cleepReading
    ensures systemReading > 100.0 ==> GetCpuUsage(systemReading, cleepReading).system == 100.0
    ensures cleepReading > 100.0 ==> GetCpuUsage(systemReading, cleepReading).cleep == 100.0
  {
  }

  /** `(total - available) / total * 100`; Python raises ZeroDivisionError when total is 0. */
  function UsedPercent(total: nat, available: nat): (r: Result<real>)
    ensures r.Err? <==> total == 0
    ensures r.Err? ==> r.error == ZeroDivisionError
  {
    if total == 0 then Err(ZeroDivisionError)
    else Ok(((total as real) - (available as real)) / (total as real) * 100.0)
  }

  /** The memory tick sends an alert when the used percent reaches the threshold. */
  predicate MemoryAlertDue(total: nat, available: nat)
    ensures MemoryAlertDue(total, available) ==> total > 0
  {
    UsedPercent(total, available).Ok? && UsedPercent(total, available).value >= ThresholdMemory
  }

  /** With a non-zero total the alert rule is the integer test 100*(total-available) >= 80*total. */
  lemma MemoryAlertIntegerCriterion(total: nat, available: nat)
    requires total > 0
    ensures MemoryAlertDue(total, available) <==> 100 * (total - available) >= 80 * total
  {
    var t := total as real;
    var used := (total as real) - (available as real);
    var p := used / t * 100.0;
    assert p * t == used * 100.0;
    SignOfProduct(p - 80.0, t);
    assert (p - 80.0) * t == p * t - 80.0 * t;
    assert (100 * (total - available)) as real == used * 100.0;
    assert (80 * total) as real == 80.0 * t;
  }

  lemma SignOfProduct(a: real, t: real)
    requires t > 0.0
    ensures a >= 0.0 <==> a * t >= 0.0
  {
    if a < 0.0 {
      assert (-a) * t > 0.0;
    }
  }

  /** The two ticks exercised by the application's tests: 90 % alerts, 50 % does not. */
  lemma MemoryAlertExamples()
    ensures UsedPercent(500, 50) == Ok(90.0) && MemoryAlertDue(500, 50)
    ensures UsedPercent(512, 256) == Ok(50.0) && !MemoryAlertDue(512, 256)
  {
  }

  /** Python's `int(x)` on a float: truncation toward zero. */
  function Truncate(x: real): (n: int)
    ensures x >= 0.0 ==> n as real <= x < n as real + 1.0
    ensures x < 0.0 ==> n as real - 1.0 < x <= n as real
  {
    if x >= 0.0 then x.Floor else -((-x).Floor)
  }

  /** `get_uptime`: whole seconds elapsed since boot. */
  function Uptime(now: real, bootTime: real): (seconds: int)
    ensures now >= bootTime ==> seconds >= 0 && seconds as real <= now - bootTime < seconds as real + 1.0
  {
    Truncate(now - bootTime)
  }
}
