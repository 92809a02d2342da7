/**
 * The application settings store and its two helpers: `set_default_setting`
 * (store a value only when the key is absent) and `bool_setting` (read a
 * stored value as a boolean, accepting the strings the settings backend may
 * hand back for booleans).
 */
module Settings {
  import opened Wrappers

  /** A stored setting value, by its Python type. */
  datatype Value =
    | BoolValue(b: bool)
    | StringValue(s: string)
    | IntValue(i: int)
    | RealValue(r: real)
    | NoneValue

  /** The map after `set_default_setting(key, value)`: insert-if-absent. */
  function WithDefault(m: map<string, Value>, key: string, value: Value): (r: map<string, Value>)
    ensures r.Keys == m.Keys + {key}
    ensures key !in m ==> r[key] == value
    ensures forall k :: k in m ==> r[k] == m[k]
  {
    if key in m then m else m[key := value]
  }

  /** Applying the default twice, even with another value the second time, is the same as once. */
  lemma WithDefaultIdempotent(m: map<string, Value>, key: string, value: Value, other: Value)
    ensures WithDefault(WithDefault(m, key, value), key, other) == WithDefault(m, key, value)
  {
  }

  /** Defaults for different keys do not interfere: their order does not matter. */
  lemma WithDefaultCommutes(m: map<string, Value>, k1: string, v1: Value, k2: string, v2: Value)
    requires k1 != k2
    ensures WithDefault(WithDefault(m, k1, v1), k2, v2) == WithDefault(WithDefault(m, k2, v2), k1, v1)
  {
  }

  /** ASCII lower-casing of one character. */
  function LowerChar(c: char): char {
    if 'A' <= c <= 'Z' then (c as int - 'A' as int + 'a' as int) as char else c
  }

  /** `s.lower()` on ASCII letters. */
  function Lower(s: string): (r: string)
    ensures |r| == |s|
    ensures forall i :: 0 <= i < |s| ==> r[i] == LowerChar(s[i])
  {
    if s == [] then [] else [LowerChar(s[0])] + Lower(s[1..])
  }

  /** "true" spelled with any mix of upper- and lower-case letters. */
  predicate SpellsTrue(s: string) {
    |s| == 4 && forall i :: 0 <= i < 4 ==> s[i] == "true"[i] || s[i] == "TRUE"[i]
  }

  /** `bool_setting` applied to the looked-up value (`None` when the key is missing). */
  function AsBool(v: Option<Value>): bool {
    match v
    case Some(BoolValue(b)) => b
    case Some(StringValue(s)) => Lower(s) == "true"
    case _ => false
  }

  /** `bool_setting` is true exactly for the stored boolean true and for the strings spelling
      "true" in any case; a missing value, any other string and any other type read as false. */
  lemma AsBoolTrueExactly(v: Option<Value>)
    ensures AsBool(v) <==> v == Some(BoolValue(true)) || (v.Some? && v.value.StringValue? && SpellsTrue(v.value.s))
  {
    if v.Some? && v.value.StringValue? {
      var s := v.value.s;
      if Lower(s) == "true" {
        assert |s| == 4;
        forall i | 0 <= i < 4
          ensures s[i] == "true"[i] || s[i] == "TRUE"[i]
        {
          assert LowerChar(s[i]) == "true"[i];
        }
      }
      if SpellsTrue(s) {
        assert Lower(s) == "true";
      }
    }
  }

  /** The settings store, a map updated in place. */
  class SettingsStore {
    var values: map<string, Value>

    constructor (initial: map<string, Value>)
      ensures values == initial
    {
      values := initial;
    }

    /** `settings.value(key)`. */
    function Get(key: string): (r: Option<Value>)
      reads this
      ensures r.Some? <==> key in values
      ensures r.Some? ==> r.value == values[key]
    {
      if key in values then Some(values[key]) else None
    }

    method SetDefaultSetting(key: string, value: Value)
      modifies this
      ensures values == WithDefault(old(values), key, value)
    {
      if key !in values {
        values := values[key := value];
      }
    }

    function BoolSetting(key: string): (r: bool)
      reads this
      ensures r <==> key in values && (values[key] == BoolValue(true) ||
                                      (values[key].StringValue? && SpellsTrue(values[key].s)))
    {
      AsBoolTrueExactly(Get(key));
      AsBool(Get(key))
    }
  }
}
