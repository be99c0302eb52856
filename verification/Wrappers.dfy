/** The optional value used for attributes that may be absent from a stored item. */
module Wrappers {
  datatype Option<+T> = None | Some(value: T) {
    function GetOr(default: T): T {
      match this
      case Some(v) => v
      case None => default
    }

    function OrElse(other: Option<T>): Option<T> {
      if Some? then this else other
    }
  }

  /** The value of an attribute that may be missing from an item. */
  function Get<K, V>(m: map<K, V>, k: K): Option<V> {
    if k in m then Some(m[k]) else None
  }

  /** A clock reading that is `lag` old by the time it is used. */
  function ClockReading(clock: nat, lag: nat): (now: nat)
    ensures now <= clock
  {
    if lag <= clock then clock - lag else 0
  }
}
