/**
 The per-tick logic of the four monitor loops (`monitor_cpu`, `monitor_gpu`,
 `monitor_memory`, `monitor_tasks`): the alert predicate, the log message and
 the row handed to `insert_mysql`. A tick that fires yields a `Dispatch`; the
 loop then starts one `write_log` and one `insert_mysql` with it. No loop
 sends a Telegram message.
 */
module Collectors {
  import opened Options
  import opened Text
  import opened Sensors

  /** CPU and GPU alert threshold, in degrees Celsius. */
  const TempThreshold: real := 70.0
  /** Memory alert threshold, in percent. */
  const MemoryThreshold: real := 80.0
  /** Number of process names the task report lists. */
  const MaxTasks: nat := 5

  /** Python truthiness of an optional number: `None` and zero are false. */
  predicate Truthy(r: Option<real>)
  {
    r.Some? && r.value != 0.0
  }

  /**
   `cpu_temp and cpu_temp > 70`, and the same test on `gpu_temp`: fires exactly
   for a present reading strictly above the threshold.
   */
  function TemperatureAlert(reading: Option<real>): (b: bool)
    ensures b <==> reading.Some? && reading.value > TempThreshold
  {
    Truthy(reading) && reading.value > TempThreshold
  }

  /** The metric a monitor loop reports. */
  datatype Metric = CpuTemp | GpuTemp | MemUsage | TaskList

  /** The text before the value in a message. */
  function Label(m: Metric): string
  {
    match m
    case CpuTemp => "CPU Temp: "
    case GpuTemp => "GPU Temp: "
    case MemUsage => "Mem Usage: "
    case TaskList => "Tasks: "
  }

  /** The text after the value in a message. */
  function Unit(m: Metric): string
  {
    match m
    case CpuTemp => "\U{B0}C"
    case GpuTemp => "\U{B0}C"
    case MemUsage => "%"
    case TaskList => ""
  }

  /** `f"{timestamp} | <Label>: {value}<unit> | IP: {ip}"`, with the timestamp and value already rendered. */
  function FormatMessage(ts: string, m: Metric, valueText: string, ip: string): (s: string)
    ensures |s| == |ts| + 3 + |Label(m)| + |valueText| + |Unit(m)| + 7 + |ip|
    ensures s[..|ts|] == ts && s[|ts|..|ts| + 3] == " | "
    ensures s[|ts| + 3..|ts| + 3 + |Label(m)|] == Label(m)
    ensures s[|ts| + 3 + |Label(m)|..|s| - |ip| - 7] == valueText + Unit(m)
    ensures s[|s| - |ip|..] == ip && s[|s| - |ip| - 7..|s| - |ip|] == " | IP: "
  {
    var head := ts + " | " + Label(m);
    var tail := " | IP: " + ip;
    head + (valueText + Unit(m)) + tail
  }

  /** Reads back which metric a log line reports, given the length of its timestamp. */
  function MetricOfMessage(s: string, tsLen: nat): Option<Metric>
  {
    if |s| < tsLen + 3 then None
    else
      var rest := s[tsLen + 3..];
      if Label(CpuTemp) <= rest then Some(CpuTemp)
      else if Label(GpuTemp) <= rest then Some(GpuTemp)
      else if Label(MemUsage) <= rest then Some(MemUsage)
      else if Label(TaskList) <= rest then Some(TaskList)
      else None
  }

  /** Every message names its metric unambiguously: reading it back after the timestamp gives the metric it was built for. */
  lemma MetricOfFormatMessage(ts: string, m: Metric, valueText: string, ip: string)
    ensures MetricOfMessage(FormatMessage(ts, m, valueText, ip), |ts|) == Some(m)
  {
    var s := FormatMessage(ts, m, valueText, ip);
    var rest := s[|ts| + 3..];
    assert rest[..|Label(m)|] == Label(m);
    assert rest[0] == Label(m)[0];
  }

  /** The row `insert_mysql` stores: its six parameters, with the task list joined by `", "`. */
  datatype Row = Row(timestamp: string, cpuTemp: real, gpuTemp: real, memoryUsage: real, ip: string, tasks: string)

  /** `insert_mysql(timestamp, cpu_temp, gpu_temp, memory_usage, ip, tasks)`: the tuple bound to the INSERT. */
  function InsertRow(ts: string, cpu: real, gpu: real, mem: real, ip: string, tasks: seq<string>): (row: Row)
    ensures row.timestamp == ts && row.ip == ip
    ensures row.cpuTemp == cpu && row.gpuTemp == gpu && row.memoryUsage == mem
    ensures row.tasks == Join(tasks, ", ")
    ensures |tasks| == 0 ==> row.tasks == ""
    ensures |tasks| == 1 ==> row.tasks == tasks[0]
  {
    Row(ts, cpu, gpu, mem, ip, Join(tasks, ", "))
  }

  /** What a firing tick hands to its two sink threads: the log line and the row. */
  datatype Dispatch = Dispatch(message: string, row: Row)

  /** One tick of `monitor_cpu`; `show` renders a reading the way the f-string does. */
  function CpuTick(reading: Option<real>, ts: string, ip: string, show: real -> string): (d: Option<Dispatch>)
    ensures d.Some? <==> reading.Some? && reading.value > TempThreshold
    ensures d.Some? ==> d.value.row == Row(ts, reading.value, 0.0, 0.0, ip, "")
    ensures d.Some? ==> d.value.message == FormatMessage(ts, CpuTemp, show(reading.value), ip)
  {
    if TemperatureAlert(reading) then
      var t := reading.value;
      Some(Dispatch(FormatMessage(ts, CpuTemp, show(t), ip), InsertRow(ts, t, 0.0, 0.0, ip, [])))
    else None
  }

  /** One tick of `monitor_gpu`. */
  function GpuTick(reading: Option<real>, ts: string, ip: string, show: real -> string): (d: Option<Dispatch>)
    ensures d.Some? <==> reading.Some? && reading.value > TempThreshold
    ensures d.Some? ==> d.value.row == Row(ts, 0.0, reading.value, 0.0, ip, "")
    ensures d.Some? ==> d.value.message == FormatMessage(ts, GpuTemp, show(reading.value), ip)
  {
    if TemperatureAlert(reading) then
      var t := reading.value;
      Some(Dispatch(FormatMessage(ts, GpuTemp, show(t), ip), InsertRow(ts, 0.0, t, 0.0, ip, [])))
    else None
  }

  /** One tick of `monitor_memory`; the memory percentage is always available. */
  function MemoryTick(usage: real, ts: string, ip: string, show: real -> string): (d: Option<Dispatch>)
    ensures d.Some? <==> usage > MemoryThreshold
    ensures d.Some? ==> d.value.row == Row(ts, 0.0, 0.0, usage, ip, "")
    ensures d.Some? ==> d.value.message == FormatMessage(ts, MemUsage, show(usage), ip)
  {
    if usage > MemoryThreshold then
      Some(Dispatch(FormatMessage(ts, MemUsage, show(usage), ip), InsertRow(ts, 0.0, 0.0, usage, ip, [])))
    else None
  }

  /** `[p.info["name"] for p in list(psutil.process_iter(...))[:5]]`: the first names, in enumeration order. */
  function TaskNames(processes: seq<string>): (names: seq<string>)
    ensures |names| <= MaxTasks
    ensures |names| == if |processes| < MaxTasks then |processes| else MaxTasks
    ensures names <= processes
  {
    if |processes| <= MaxTasks then processes else processes[..MaxTasks]
  }

  /** One tick of `monitor_tasks`: a report on every tick, whatever the process list holds. */
  function TasksTick(processes: seq<string>, ts: string, ip: string): (d: Dispatch)
    ensures d.row.timestamp == ts && d.row.ip == ip
    ensures d.row.cpuTemp == 0.0 && d.row.gpuTemp == 0.0 && d.row.memoryUsage == 0.0
    ensures d.row.tasks == Join(TaskNames(processes), ", ")
    ensures d.message == FormatMessage(ts, TaskList, d.row.tasks, ip)
  {
    var names := TaskNames(processes);
    Dispatch(FormatMessage(ts, TaskList, Join(names, ", "), ip), InsertRow(ts, 0.0, 0.0, 0.0, ip, names))
  }

  /** Each of the first five process names appears in the task column, after the names and separators before it. */
  lemma TaskRowListsEachName(processes: seq<string>, ts: string, ip: string, i: nat)
    requires i < |processes| && i < MaxTasks
    ensures var text := TasksTick(processes, ts, ip).row.tasks;
            var k := JoinOffset(processes, ", ", i);
            k + |processes[i]| <= |text| && text[k..k + |processes[i]|] == processes[i]
  {
    var names := TaskNames(processes);
    JoinElementAt(names, ", ", i);
    assert names[..i] == processes[..i];
  }

  /** On Windows the CPU alert fires exactly from 3432 tenths of a kelvin (70.05 degrees Celsius) upward. */
  lemma WindowsCpuAlertBoundary(d: nat, otherZones: seq<nat>)
    ensures TemperatureAlert(CpuTemperature(Windows([d] + otherZones))) <==> d >= 3432
  {
  }

  /** A reading of exactly 70 does not fire; 70.1 fires and stores 70.1 with zero GPU and memory. */
  lemma CpuThresholdScenario(ts: string, ip: string, show: real -> string)
    ensures CpuTick(Some(70.0), ts, ip, show).None?
    ensures CpuTick(Some(70.1), ts, ip, show) == Some(Dispatch(FormatMessage(ts, CpuTemp, show(70.1), ip), Row(ts, 70.1, 0.0, 0.0, ip, "")))
  {
  }

  /** With the GPU sensor unavailable and memory at 85%, only the memory monitor dispatches. */
  lemma GpuDownMemoryHighScenario(ts: string, ip: string, show: real -> string)
    ensures GpuTick(None, ts, ip, show).None?
    ensures MemoryTick(85.0, ts, ip, show).Some?
    ensures MemoryTick(85.0, ts, ip, show).value.row.memoryUsage == 85.0
  {
  }

  /** Memory usage of exactly 80 does not fire; 80.1 fires and stores 80.1 with both temperatures zero. */
  lemma MemoryThresholdScenario(ts: string, ip: string, show: real -> string)
    ensures MemoryTick(80.0, ts, ip, show).None?
    ensures MemoryTick(80.1, ts, ip, show) == Some(Dispatch(FormatMessage(ts, MemUsage, show(80.1), ip), Row(ts, 0.0, 0.0, 80.1, ip, "")))
  {
  }
}
