/** Values as the PHP controllers see them: optional (null or missing)
    values, and the truthiness rules behind `empty()`, `?:` and
    `array_filter()`. */
module Php {

  /** A value that may be null or missing from an array. */
  datatype Option<+T> = None | Some(value: T)

  /** A string is truthy in PHP unless it is "" or "0". */
  predicate Truthy(s: string)
  {
    s != "" && s != "0"
  }

  /** `empty($x)` on an optional string: missing, null, "" or "0". */
  predicate Empty(v: Option<string>)
  {
    v.None? || !Truthy(v.value)
  }

  /** `isset($a[$k])`: the key is there and its value is not null. */
  predicate Isset<K>(a: map<K, Option<string>>, k: K)
  {
    k in a && a[k].Some?
  }

  /** `$a[$k] ?? null`. */
  function Lookup<K>(a: map<K, Option<string>>, k: K): (v: Option<string>)
    ensures v.Some? <==> Isset(a, k)
    ensures v.Some? ==> v == a[k]
  {
    if k in a then a[k] else None
  }

  /** `$a ?: $b` on strings. */
  function Elvis(a: Option<string>, b: string): (r: string)
    ensures a.Some? && Truthy(a.value) ==> r == a.value
    ensures Empty(a) ==> r == b
  {
    if a.Some? && Truthy(a.value) then a.value else b
  }
}
