/**
 * The typed view of one configuration item (config/config.go, and its twin
 * pkg/config/tconf/config.go, which differs only in the type's name): a map
 * from keys to dynamically typed values, decoded from the item's data, with
 * getters that check the value's dynamic type.  A nil *Config is None.
 */
module TsfConfig {
  import opened Wrappers
  import GoErrors
  import ConfigData

  /**
   * A value of the interface{} map: the six types the getters ask for, the
   * nil interface, and any other dynamic type (e.g. Go's int, which is not
   * int64).  Durations are nanoseconds; times are instants, 0 standing for
   * the zero time.Time.
   */
  datatype Value =
    | Nil
    | Str(s: string)
    | Bool(b: bool)
    | Int64(i: int)
    | Float64(f: real)
    | Duration(ns: int)
    | Time(instant: int)
    | Dynamic(typeName: string)

  /** The configuration: the decoded map and the item's data (nil when absent). */
  datatype Config = Config(v: map<string, Value>, data: Option<ConfigData.Data>)

  /** A getter's two results: the value and ok. */
  datatype Got<T> = Got(v: T, ok: bool)

  /** get and Get: (nil, false) on a nil config or a missing key, else the stored value and true. */
  function Get(c: Option<Config>, key: string): (r: Got<Value>)
    ensures r.ok <==> c.Some? && key in c.value.v
    ensures r.ok ==> r.v == c.value.v[key]
    ensures !r.ok ==> r.v == Nil
  {
    if c.None? then Got(Nil, false)
    else if key in c.value.v then Got(c.value.v[key], true)
    else Got(Nil, false)
  }

  /** GetString: ok iff the key holds a string; otherwise "" and false. */
  function GetString(c: Option<Config>, key: string): (r: Got<string>)
    ensures r.ok <==> Get(c, key).ok && Get(c, key).v.Str?
    ensures r.ok ==> r.v == Get(c, key).v.s
    ensures !r.ok ==> r.v == ""
  {
    var res := Get(c, key);
    if res.ok then (match res.v case Str(s) => Got(s, true) case _ => Got("", false)) else Got("", res.ok)
  }

  /** GetBool: ok iff the key holds a bool; otherwise false and false. */
  function GetBool(c: Option<Config>, key: string): (r: Got<bool>)
    ensures r.ok <==> Get(c, key).ok && Get(c, key).v.Bool?
    ensures r.ok ==> r.v == Get(c, key).v.b
    ensures !r.ok ==> !r.v
  {
    var res := Get(c, key);
    if res.ok then (match res.v case Bool(b) => Got(b, true) case _ => Got(false, false)) else Got(false, res.ok)
  }

  /** GetInt: ok iff the key holds an int64; otherwise 0 and false. */
  function GetInt(c: Option<Config>, key: string): (r: Got<int>)
    ensures r.ok <==> Get(c, key).ok && Get(c, key).v.Int64?
    ensures r.ok ==> r.v == Get(c, key).v.i
    ensures !r.ok ==> r.v == 0
  {
    var res := Get(c, key);
    if res.ok then (match res.v case Int64(i) => Got(i, true) case _ => Got(0, false)) else Got(0, res.ok)
  }

  /** GetFloat: ok iff the key holds a float64; otherwise 0 and false. */
  function GetFloat(c: Option<Config>, key: string): (r: Got<real>)
    ensures r.ok <==> Get(c, key).ok && Get(c, key).v.Float64?
    ensures r.ok ==> r.v == Get(c, key).v.f
    ensures !r.ok ==> r.v == 0.0
  {
    var res := Get(c, key);
    if res.ok then (match res.v case Float64(f) => Got(f, true) case _ => Got(0.0, false)) else Got(0.0, res.ok)
  }

  /** GetDuration: ok iff the key holds a time.Duration; otherwise 0 and false. */
  function GetDuration(c: Option<Config>, key: string): (r: Got<int>)
    ensures r.ok <==> Get(c, key).ok && Get(c, key).v.Duration?
    ensures r.ok ==> r.v == Get(c, key).v.ns
    ensures !r.ok ==> r.v == 0
  {
    var res := Get(c, key);
    if res.ok then (match res.v case Duration(d) => Got(d, true) case _ => Got(0, false)) else Got(0, res.ok)
  }

  /** GetTime: ok iff the key holds a time.Time; otherwise the zero time and false. */
  function GetTime(c: Option<Config>, key: string): (r: Got<int>)
    ensures r.ok <==> Get(c, key).ok && Get(c, key).v.Time?
    ensures r.ok ==> r.v == Get(c, key).v.instant
    ensures !r.ok ==> r.v == 0
  {
    var res := Get(c, key);
    if res.ok then (match res.v case Time(t) => Got(t, true) case _ => Got(0, false)) else Got(0, res.ok)
  }

  /** A nil configuration answers every getter with the zero value and false. */
  lemma NilConfigHasNothing(key: string)
    ensures Get(None, key) == Got(Nil, false)
    ensures GetString(None, key) == Got("", false) && GetBool(None, key) == Got(false, false)
    ensures GetInt(None, key) == Got(0, false) && GetFloat(None, key) == Got(0.0, false)
    ensures GetDuration(None, key) == Got(0, false) && GetTime(None, key) == Got(0, false)
  {
  }

  /** The number of typed getters that succeed for a key. */
  function Successes(c: Option<Config>, key: string): nat
  {
    (if GetString(c, key).ok then 1 else 0) + (if GetBool(c, key).ok then 1 else 0)
    + (if GetInt(c, key).ok then 1 else 0) + (if GetFloat(c, key).ok then 1 else 0)
    + (if GetDuration(c, key).ok then 1 else 0) + (if GetTime(c, key).ok then 1 else 0)
  }

  /**
   * At most one typed getter succeeds for a key, and exactly one when the
   * stored value has one of the six types; a nil value, or one of another
   * type (a Go int, say), is found by Get but by no typed getter.
   */
  lemma AtMostOneGetter(c: Option<Config>, key: string)
    ensures Successes(c, key) <= 1
    ensures Successes(c, key) == 1 <==>
      Get(c, key).ok && !Get(c, key).v.Nil? && !Get(c, key).v.Dynamic?
  {
  }

  /** Unmarshal: nil for a nil configuration or nil data, else what decoding the data into the target gives. */
  function Unmarshal(c: Option<Config>, decode: ConfigData.Data -> Option<GoErrors.Error>): (err: Option<GoErrors.Error>)
    ensures c.None? || c.value.data.None? ==> err.None?
    ensures c.Some? && c.value.data.Some? ==> err == decode(c.value.data.value)
  {
    if c.None? || c.value.data.None? then None else decode(c.value.data.value)
  }

  /** Raw: nil for a nil configuration or nil data, else the data's raw payload. */
  function Raw(c: Option<Config>): (b: Option<string>)
    ensures b.None? <==> c.None? || c.value.data.None?
    ensures b.Some? ==> b.value == c.value.data.value.raw
  {
    if c.None? || c.value.data.None? then None else Some(c.value.data.value.raw)
  }
}
