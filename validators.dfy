/**
 * The parameter checks of the system events: each accepts a parameter dictionary
 * exactly when every one of its keys is on the event's list. No key is required and
 * the values are never looked at.
 */
module ParamsCheck {

  /** `all(key in keys for key in params.keys())`. */
  predicate KeysListed<V>(params: map<string, V>, keys: seq<string>)
  {
    forall k | k in params :: k in keys
  }

  /** Only the keys matter: two dictionaries with the same keys get the same verdict. */
  lemma ValuesIgnored<V, W>(p: map<string, V>, q: map<string, W>, keys: seq<string>)
    requires p.Keys == q.Keys
    ensures KeysListed(p, keys) == KeysListed(q, keys)
  {
    assert forall k :: k in p <==> k in q;
  }

  /** Dropping keys from accepted parameters keeps them accepted; in particular no key is required. */
  lemma FewerKeysAccepted<V>(p: map<string, V>, q: map<string, V>, keys: seq<string>)
    requires KeysListed(p, keys) && q.Keys <= p.Keys
    ensures KeysListed(q, keys)
    ensures KeysListed<V>(map[], keys)
  {
    assert forall k :: k in q ==> k in p;
  }
}

/** `_check_params` of backend/systemTimeNowEvent.py. */
module TimeNowEvent {
  import opened ParamsCheck

  const Keys: seq<string> := ["timestamp", "iso", "year", "month", "day", "hour", "minute",
                              "weekday", "weekday_literal", "sunset", "sunrise"]

  function CheckParams<V>(params: map<string, V>): (r: bool)
    ensures r <==> params.Keys <= {"timestamp", "iso", "year", "month", "day", "hour", "minute",
                                   "weekday", "weekday_literal", "sunset", "sunrise"}
  {
    KeysListed(params, Keys)
  }

  /** A tick carrying the time of day is accepted, one carrying seconds is not. */
  lemma SecondIsRejected<V>(v: V)
    ensures CheckParams(map["hour" := v, "minute" := v])
    ensures !CheckParams(map["hour" := v, "second" := v])
  {
    assert "second" in map["hour" := v, "second" := v].Keys;
  }
}

/** `_check_params` of backend/systemModuleInstallEvent.py. */
module ModuleInstallEvent {
  import opened ParamsCheck

  const Keys: seq<string> := ["module", "status", "stdout", "stderr", "updateprocess", "process"]

  function CheckParams<V>(params: map<string, V>): (r: bool)
    ensures r <==> params.Keys <= {"module", "status", "stdout", "stderr", "updateprocess", "process"}
  {
    KeysListed(params, Keys)
  }
}

/** `_check_params` of backend/systemModuleUninstallEvent.py. */
module ModuleUninstallEvent {
  import opened ParamsCheck
  import ModuleInstallEvent

  const Keys: seq<string> := ["module", "status", "stdout", "stderr", "updateprocess"]

  function CheckParams<V>(params: map<string, V>): (r: bool)
    ensures r <==> params.Keys <= {"module", "status", "stdout", "stderr", "updateprocess"}
  {
    KeysListed(params, Keys)
  }

  /** The uninstall check is the install check without `process`. */
  lemma InstallWithoutProcess<V>(params: map<string, V>)
    ensures CheckParams(params) <==> ModuleInstallEvent.CheckParams(params) && "process" !in params
  {
  }
}

/** `_check_params` of backend/systemCountryUpdateEvent.py. */
module CountryUpdateEvent {
  import opened ParamsCheck

  const Keys: seq<string> := ["country", "alpha2"]

  function CheckParams<V>(params: map<string, V>): (r: bool)
    ensures r <==> params.Keys <= {"country", "alpha2"}
  {
    KeysListed(params, Keys)
  }

  /** At most two keys are ever accepted, so any third key is rejected. */
  lemma AtMostTwoKeys<V>(params: map<string, V>)
    requires CheckParams(params)
    ensures |params| <= 2
  {
    assert params.Keys <= {"country", "alpha2"};
    SubsetCardinality(params.Keys, {"country", "alpha2"});
  }

  lemma SubsetCardinality(a: set<string>, b: set<string>)
    requires a <= b
    ensures |a| <= |b|
  {
    assert b == a + (b - a);
  }
}

/** `_check_params` of backend/systemdriveruninstallevent.py. */
module DriverUninstallEvent {
  import opened ParamsCheck

  const Keys: seq<string> := ["drivertype", "drivername", "uninstalling", "success", "message"]

  function CheckParams<V>(params: map<string, V>): (r: bool)
    ensures r <==> params.Keys <= {"drivertype", "drivername", "uninstalling", "success", "message"}
    ensures "installing" in params ==> !r
  {
    KeysListed(params, Keys)
  }
}

/** `_check_params` of backend/systemRaspiotUpdateEvent.py. */
module RaspiotUpdateEvent {
  import opened Wrappers
  import opened ParamsCheck

  const Keys: seq<string> := ["status"]

  /** What the check can be handed: a dictionary, or another object that may or may not have `keys()`. */
  datatype Params<V> = Dict(entries: map<string, V>) | NotDict(keys: Option<set<string>>)

  /**
   * A non-dictionary is only logged as an error; the check then goes on with its keys,
   * and an object without `keys()` raises.
   */
  function CheckParams<V>(params: Params<V>): (r: (bool, Result<bool>))
    ensures r.0 <==> params.NotDict?
    ensures params.Dict? ==> r.1 == Ok(params.entries.Keys <= {"status"})
    ensures params.NotDict? && params.keys.Some? ==> r.1 == Ok(params.keys.value <= {"status"})
    ensures r.1 == Err(AttributeError) <==> params.NotDict? && params.keys.None?
  {
    var logged := params.NotDict?;
    match params
    case Dict(entries) => (logged, Ok(KeysListed(entries, Keys)))
    case NotDict(None) => (logged, Err(AttributeError))
    case NotDict(Some(keys)) => (logged, Ok(forall k | k in keys :: k in Keys))
  }
}
