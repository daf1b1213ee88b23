/** What the chartable monitoring events return to the charts: named values, and the two-decimal rounding they use. */
module Charts {
  import opened Wrappers

  /** One `{field, value}` entry of a chart. */
  datatype ChartValue = ChartValue(field: string, value: real)

  /** Round half to even of an exact value, the rule Python's formatting applies. */
  function RoundHalfEven(y: real): (n: int)
    ensures -0.5 <= n as real - y <= 0.5
    ensures y - y.Floor as real != 0.5 ==> -0.5 < n as real - y < 0.5
    ensures y - y.Floor as real == 0.5 ==> n % 2 == 0
  {
    var f := y.Floor;
    var frac := y - f as real;
    if frac < 0.5 then f
    else if frac > 0.5 then f + 1
    else if f % 2 == 0 then f
    else f + 1
  }

  /** A value with at most two decimals. */
  predicate TwoDecimals(x: real)
  {
    (x * 100.0).Floor as real == x * 100.0
  }

  /** `float('{0:.2f}'.format(x))` on exact values: the nearest multiple of 0.01. */
  function Round2(x: real): (r: real)
    ensures -0.005 <= r - x <= 0.005
    ensures TwoDecimals(r)
  {
    RoundHalfEven(x * 100.0) as real / 100.0
  }

  /** Rounding a value that already has two decimals changes nothing. */
  lemma Round2Exact(x: real)
    requires TwoDecimals(x)
    ensures Round2(x) == x
  {
  }

  /** Rounding keeps the sign of its input, up to zero. */
  lemma Round2Sign(x: real)
    ensures x >= 0.0 ==> Round2(x) >= 0.0
    ensures x <= 0.0 ==> Round2(x) <= 0.0
  {
    var y := x * 100.0;
    var f := y.Floor;
    if x >= 0.0 {
      assert f >= 0;
    } else {
      assert f < 0;
    }
  }

  /** The `float(params[key])` reads of a chart, in the order the code makes them; a missing key raises. */
  function Lookup(params: map<string, real>, key: string): (r: Result<real>)
    ensures r.Ok? <==> key in params
    ensures r.Ok? ==> r.value == params[key]
    ensures r.Err? ==> r.error == KeyError(key)
  {
    if key in params then Ok(params[key]) else Err(KeyError(key))
  }
}

/** `get_chart_values` of backend/systemMonitoringCpuEvent.py: the CPU sample split into cleep, others and idle. */
module CpuChart {
  import opened Wrappers
  import opened Charts

  function GetChartValues(params: map<string, real>): (r: Result<seq<ChartValue>>)
    ensures r.Ok? <==> "cleep" in params && "system" in params
    ensures "cleep" !in params ==> r == Err(KeyError("cleep"))
    ensures "cleep" in params && "system" !in params ==> r == Err(KeyError("system"))
    ensures r.Ok? ==>
      && |r.value| == 3
      && r.value[0].field == "cleep" && r.value[1].field == "others" && r.value[2].field == "idle"
      && r.value[0].value == params["cleep"]
      && r.value[1].value >= 0.0
      && r.value[0].value + r.value[1].value + r.value[2].value == 100.0
  {
    match Lookup(params, "cleep")
    case Err(e) => Err(e)
    case Ok(cleep) =>
      match Lookup(params, "system")
      case Err(e) => Err(e)
      case Ok(system) =>
        var rounded := Round2(system - cleep);
        var others := if rounded < 0.0 then 0.0 else rounded;
        var idle := 100.0 - cleep - others;
        Ok([ChartValue("cleep", cleep), ChartValue("others", others), ChartValue("idle", idle)])
  }

  /**
   * Others is the rounded difference when the system usage is the larger, and zero
   * otherwise; with two-decimal readings it is exactly max(system - cleep, 0).
   */
  lemma OthersIsRoundedDifference(cleep: real, system: real)
    ensures var v := GetChartValues(map["cleep" := cleep, "system" := system]).value;
      && (system >= cleep ==> v[1].value == Round2(system - cleep))
      && (system <= cleep ==> v[1].value == 0.0)
      && (TwoDecimals(system - cleep) ==> v[1].value == if system >= cleep then system - cleep else 0.0)
  {
    Round2Sign(system - cleep);
    if TwoDecimals(system - cleep) {
      Round2Exact(system - cleep);
    }
  }

  /**
   * With readings between 0 and 100 idle is never below -0.005, and never negative
   * when the difference has two decimals; the rounding alone can push it below zero.
   */
  lemma IdleBounds(cleep: real, system: real)
    requires 0.0 <= cleep <= 100.0 && 0.0 <= system <= 100.0
    ensures GetChartValues(map["cleep" := cleep, "system" := system]).value[2].value >= -0.005
    ensures TwoDecimals(system - cleep) ==> GetChartValues(map["cleep" := cleep, "system" := system]).value[2].value >= 0.0
  {
    OthersIsRoundedDifference(cleep, system);
  }

  /** Rounding makes idle negative: cleep 0.004 and system 100 leave idle at -0.004. */
  lemma NegativeIdle()
    ensures GetChartValues(map["cleep" := 0.004, "system" := 100.0]).value[2].value == -0.004
  {
    assert Round2(99.996) == 100.0 by {
      assert (99.996 * 100.0).Floor == 9999;
    }
  }
}

/** `get_chart_values` of backend/systemmonitoringcpuevent.py, the second copy of the CPU split. */
module CpuChartCopy {
  import opened Wrappers
  import opened Charts
  import CpuChart

  function GetChartValues(params: map<string, real>): (r: Result<seq<ChartValue>>)
    ensures r.Ok? <==> "cleep" in params && "system" in params
    ensures "cleep" !in params ==> r == Err(KeyError("cleep"))
    ensures "cleep" in params && "system" !in params ==> r == Err(KeyError("system"))
    ensures r.Ok? ==>
      && |r.value| == 3
      && r.value[0].field == "cleep" && r.value[1].field == "others" && r.value[2].field == "idle"
      && r.value[0].value == params["cleep"]
      && r.value[1].value >= 0.0
      && r.value[0].value + r.value[1].value + r.value[2].value == 100.0
  {
    match Lookup(params, "cleep")
    case Err(e) => Err(e)
    case Ok(cleep) =>
      match Lookup(params, "system")
      case Err(e) => Err(e)
      case Ok(system) =>
        var rounded := Round2(system - cleep);
        var others := if rounded < 0.0 then 0.0 else rounded;
        var idle := 100.0 - cleep - others;
        Ok([ChartValue("cleep", cleep), ChartValue("others", others), ChartValue("idle", idle)])
  }

  /** The copy computes exactly what the capitalised file computes, errors included. */
  lemma SameAsCpuChart(params: map<string, real>)
    ensures GetChartValues(params) == CpuChart.GetChartValues(params)
  {
  }
}

/** `get_chart_values` of backend/systemMonitoringMemoryEvent.py: the memory sample split into cleep, others and available. */
module MemoryChart {
  import opened Wrappers
  import opened Charts

  function GetChartValues(params: map<string, real>): (r: Result<seq<ChartValue>>)
    ensures r.Ok? <==> "cleep" in params && "total" in params && "available" in params
    ensures "cleep" !in params ==> r == Err(KeyError("cleep"))
    ensures "cleep" in params && "total" !in params ==> r == Err(KeyError("total"))
    ensures "cleep" in params && "total" in params && "available" !in params ==> r == Err(KeyError("available"))
    ensures r.Ok? ==>
      && |r.value| == 3
      && r.value[0].field == "cleep" && r.value[1].field == "others" && r.value[2].field == "available"
      && r.value[0].value == params["cleep"] && r.value[2].value == params["available"]
      && r.value[0].value + r.value[1].value + r.value[2].value == params["total"]
      && (r.value[1].value < 0.0 <==> params["cleep"] > params["total"] - params["available"])
  {
    match Lookup(params, "cleep")
    case Err(e) => Err(e)
    case Ok(cleep) =>
      match Lookup(params, "total")
      case Err(e) => Err(e)
      case Ok(total) =>
        match Lookup(params, "available")
        case Err(e) => Err(e)
        case Ok(available) =>
          var others := total - available - cleep;
          Ok([ChartValue("cleep", cleep), ChartValue("others", others), ChartValue("available", available)])
  }
}

/** `get_chart_values` of backend/systemmonitoringmemoryevent.py, the second copy of the memory split. */
module MemoryChartCopy {
  import opened Wrappers
  import opened Charts
  import MemoryChart

  function GetChartValues(params: map<string, real>): (r: Result<seq<ChartValue>>)
    ensures r.Ok? <==> "cleep" in params && "total" in params && "available" in params
    ensures "cleep" !in params ==> r == Err(KeyError("cleep"))
    ensures "cleep" in params && "total" !in params ==> r == Err(KeyError("total"))
    ensures "cleep" in params && "total" in params && "available" !in params ==> r == Err(KeyError("available"))
    ensures r.Ok? ==>
      && |r.value| == 3
      && r.value[0].field == "cleep" && r.value[1].field == "others" && r.value[2].field == "available"
      && r.value[0].value == params["cleep"] && r.value[2].value == params["available"]
      && r.value[0].value + r.value[1].value + r.value[2].value == params["total"]
      && (r.value[1].value < 0.0 <==> params["cleep"] > params["total"] - params["available"])
  {
    match Lookup(params, "cleep")
    case Err(e) => Err(e)
    case Ok(cleep) =>
      match Lookup(params, "total")
      case Err(e) => Err(e)
      case Ok(total) =>
        match Lookup(params, "available")
        case Err(e) => Err(e)
        case Ok(available) =>
          var others := total - available - cleep;
          Ok([ChartValue("cleep", cleep), ChartValue("others", others), ChartValue("available", available)])
  }

  /** The copy computes exactly what the capitalised file computes, errors included. */
  lemma SameAsMemoryChart(params: map<string, real>)
    ensures GetChartValues(params) == MemoryChart.GetChartValues(params)
  {
  }
}
