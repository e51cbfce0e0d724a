/** The Redis commands the program uses, each one atomic step on a keyspace whose keys may
    carry a deadline in milliseconds of the server's clock. */
module Redis {
  import opened Wrappers

  datatype Timed<T> = Timed(value: T, deadline: Option<nat>)

  type Keyspace<T> = map<string, Timed<T>>

  predicate Expired<T>(v: Timed<T>, now: nat) { v.deadline.Some? && v.deadline.value <= now }

  /** EXISTS */
  predicate Exists<T>(ks: Keyspace<T>, key: string, now: nat) { key in ks && !Expired(ks[key], now) }

  /** GET */
  function Get<T>(ks: Keyspace<T>, key: string, now: nat): Option<T> {
    if Exists(ks, key, now) then Some(ks[key].value) else None
  }

  /** SET: also clears any deadline the key had. */
  function Set<T>(ks: Keyspace<T>, key: string, value: T): Keyspace<T> {
    ks[key := Timed(value, None)]
  }

  /** SETEX, for a positive number of seconds */
  function SetEx<T>(ks: Keyspace<T>, key: string, value: T, secs: nat, now: nat): Keyspace<T> {
    ks[key := Timed(value, Some(now + 1000 * secs))]
  }

  /** SET NX EX: takes effect only if the key is absent. */
  function SetNxEx<T>(ks: Keyspace<T>, key: string, value: T, secs: nat, now: nat): Keyspace<T> {
    if Exists(ks, key, now) then ks else SetEx(ks, key, value, secs, now)
  }

  /** EXPIRE */
  function Expire<T>(ks: Keyspace<T>, key: string, secs: nat, now: nat): Keyspace<T> {
    if Exists(ks, key, now) then ks[key := Timed(ks[key].value, Some(now + 1000 * secs))] else ks
  }

  /** DEL, and eviction under memory pressure */
  function Del<T>(ks: Keyspace<T>, key: string): Keyspace<T> { ks - {key} }

  /** KEYS: the live keys, in any order. */
  ghost predicate IsKeyScan<T>(ks: Keyspace<T>, keys: seq<string>, now: nat) {
    && (forall k :: k in keys <==> Exists(ks, k, now))
    && (forall i, j :: 0 <= i < j < |keys| ==> keys[i] != keys[j])
  }
}
