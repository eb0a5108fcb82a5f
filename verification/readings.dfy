/**
  One entry of the telemetry source's JSON array, and the script's
  name-based lookup over the array (`get_sensor_value`).
*/
module Readings {
  import opened Wrappers

  /**
    An already-parsed JSON object of the response array.
    - `name` is `None` when `SensorName` is absent (`item.get` then yields
      `None`, which equals no query string).
    - `cls` is `""` when `SensorClass` is absent, the default the script
      passes to `item.get`.
    - `value` is what `float(item.get("SensorValue", 0))` yields: an absent
      field reads as `Some(0.0)`, a value `float()` rejects as `None`.
  */
  datatype Reading = Reading(name: Option<string>, cls: string, value: Option<real>)

  /** The `try: float(...) except: 0.0` step applied to a matching reading. */
  function FieldValue(r: Reading): real {
    r.value.GetOr(0.0)
  }

  predicate Named(r: Reading, name: string) {
    r.name == Some(name)
  }

  /** `i` is the position of the first reading whose name is exactly `name`. */
  ghost predicate FirstNamed(data: seq<Reading>, name: string, i: int) {
    0 <= i < |data| && Named(data[i], name)
    && forall j :: 0 <= j < i ==> !Named(data[j], name)
  }

  /**
    `get_sensor_value(data, name)`: the value of the first reading named
    exactly `name`; later readings with that name are never consulted, and
    0.0 stands in when no reading has the name.
  */
  function SensorValue(data: seq<Reading>, name: string): (v: real)
    ensures (forall i :: 0 <= i < |data| ==> !Named(data[i], name)) ==> v == 0.0
    ensures forall i :: FirstNamed(data, name, i) ==> v == FieldValue(data[i])
  {
    if |data| == 0 then
      0.0
    else if Named(data[0], name) then
      FieldValue(data[0])
    else
      var v := SensorValue(data[1..], name);
      assert forall i :: FirstNamed(data, name, i) ==> FirstNamed(data[1..], name, i - 1);
      v
  }

  /**
    When the first reading with the name carries a value `float()` rejects,
    the lookup yields 0.0 even if a later reading with that name parses.
  */
  lemma UnparsableFirstMatch(name: string, cls: string, later: real)
    ensures SensorValue([Reading(Some(name), cls, None), Reading(Some(name), cls, Some(later))], name) == 0.0
  {
    assert FirstNamed([Reading(Some(name), cls, None), Reading(Some(name), cls, Some(later))], name, 0);
  }

  /** Python's `int()` on a float: truncation toward zero (not flooring). */
  function Trunc(x: real): (r: int)
    ensures 0.0 <= x ==> 0 <= r && r as real <= x < r as real + 1.0
    ensures x < 0.0 ==> r <= 0 && r as real - 1.0 < x <= r as real
  {
    if x >= 0.0 then x.Floor else -((-x).Floor)
  }

  /** `int(-2.5)` is -2, where flooring would give -3. */
  lemma TruncNegative()
    ensures Trunc(-2.5) == -2 && Trunc(42.7) == 42
  {
  }
}
