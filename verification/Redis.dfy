/**
 * The part of Redis the services rely on: string keys with a deadline.
 *
 * A key is readable strictly before its deadline; the deadline
 * instant itself counts as expired, which is the earliest moment at which a key may be gone.
 * Every function below is one command, so a script built from them is one atomic step.
 */
module Redis {
  import opened Options

  datatype Timed<+V> = Timed(value: V, deadline: int)

  function Get<K, V>(m: map<K, Timed<V>>, key: K, now: int): Option<V> {
    if key in m && now < m[key].deadline then Some(m[key].value) else None
  }

  function SetEx<K, V>(m: map<K, Timed<V>>, key: K, value: V, ttl: int, now: int): map<K, Timed<V>> {
    m[key := Timed(value, now + ttl)]
  }

  /** `SET key value NX EX ttl`: a live key is left alone. */
  function SetNxEx<K, V>(m: map<K, Timed<V>>, key: K, value: V, ttl: int, now: int): map<K, Timed<V>> {
    if Get(m, key, now).Some? then m else SetEx(m, key, value, ttl, now)
  }

  function Expire<K, V>(m: map<K, Timed<V>>, key: K, ttl: int, now: int): map<K, Timed<V>> {
    if Get(m, key, now).Some? then m[key := Timed(m[key].value, now + ttl)] else m
  }

  function Del<K, V>(m: map<K, Timed<V>>, key: K): map<K, Timed<V>> {
    m - {key}
  }
}
