// Failure values and sequence helpers shared by every component.
module Wrappers {
  datatype Option<+T> = None | Some(value: T)

  datatype Result<+T, +E> = Ok(value: T) | Err(error: E)

  // Python's `value or default` for optional strings: empty counts as absent.
  function OrElse(value: Option<string>, default: string): string {
    if value.Some? && value.value != "" then value.value else default
  }

  // Python's text[:limit].
  function Clip(text: string, limit: nat): string {
    if |text| <= limit then text else text[..limit]
  }

  function ClipError(error: Option<string>): Option<string> {
    if error.Some? then Some(Clip(error.value, 4096)) else None
  }

  function Lookup<K, V>(m: map<K, V>, k: K): Option<V> {
    if k in m then Some(m[k]) else None
  }

  function Min(a: int, b: int): int { if a <= b then a else b }

  function Max(a: int, b: int): int { if a <= b then b else a }

  lemma EmptySides<T>(s: seq<T>)
    ensures [] + s == s && s + [] == s
  {
  }

  lemma SplitLast<T>(s: seq<T>)
    requires s != []
    ensures s == s[..|s| - 1] + [s[|s| - 1]]
  {
  }
}
