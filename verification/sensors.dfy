/**
 The pure part of `get_cpu_temperature`: which probe result yields a reading,
 and the conversion of the Windows thermal-zone value from tenths of a kelvin
 to degrees Celsius. The WMI and psutil calls themselves are inputs.
 */
module Sensors {
  import opened Options

  /** What `get_cpu_temperature` observes on the running system. */
  datatype CpuProbe =
    /** `CurrentTemperature` of each `MSAcpi_ThermalZoneTemperature` instance, in tenths of a kelvin. */
    | Windows(zones: seq<nat>)
    /** `psutil.sensors_temperatures()`: the `current` value of each sensor, per chip name. */
    | Linux(chips: map<string, seq<real>>)
    /** Any other value of `platform.system()`. */
    | OtherSystem
    /** The WMI or psutil call raised. */
    | ProbeError

  /** `d / 10 - 273.15`: tenths of a kelvin to degrees Celsius. */
  function DecikelvinToCelsius(d: int): (c: real)
    ensures (c + 273.15) * 10.0 == d as real
  {
    d as real / 10.0 - 273.15
  }

  /** The conversion is strictly increasing, so it preserves the order of raw readings. */
  lemma DecikelvinToCelsiusMonotonic(d1: int, d2: int)
    requires d1 < d2
    ensures DecikelvinToCelsius(d1) < DecikelvinToCelsius(d2)
  {
  }

  /**
   `get_cpu_temperature()`: the first thermal zone on Windows, the first
   `coretemp` sensor on Linux, `None` otherwise. An empty zone or sensor list
   raises `IndexError` in `get_cpu_temperature`, which the `except` turns into `None`.
   */
  function CpuTemperature(p: CpuProbe): (r: Option<real>)
    ensures r.Some? <==>
              || (p.Windows? && |p.zones| > 0)
              || (p.Linux? && "coretemp" in p.chips && |p.chips["coretemp"]| > 0)
    ensures r.Some? && p.Windows? ==> r.value >= -273.15 && (r.value + 273.15) * 10.0 == p.zones[0] as real
    ensures r.Some? && p.Linux? ==> r.value == p.chips["coretemp"][0]
  {
    match p
    case Windows(zones) =>
      if |zones| == 0 then None else Some(DecikelvinToCelsius(zones[0]))
    case Linux(chips) =>
      if "coretemp" !in chips then None
      else if |chips["coretemp"]| == 0 then None
      else Some(chips["coretemp"][0])
    case OtherSystem => None
    case ProbeError => None
  }
}
