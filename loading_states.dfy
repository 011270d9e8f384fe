/** The per-insight loading state and the error-cooldown rule applied when it is read
    (UpdatedServices/InsightService.swift, `loadingState(for:)`). Times are whole seconds. */
module LoadingStates {

  datatype LoadingState =
    | Idle
    | Loading
    | Finished(at: int)
    | Error(message: string, at: int)

  /** Seconds after which a recorded error no longer blocks a new retrieval. */
  const ERROR_COOLDOWN: int := 60

  /** What the table holds for `key`; a key never written reads as `Idle`. */
  function Stored<K>(table: map<K, LoadingState>, key: K): LoadingState
  {
    if key in table then table[key] else Idle
  }

  /** An error recorded strictly more than `ERROR_COOLDOWN` seconds before `now`. */
  predicate ErrorExpired(s: LoadingState, now: int)
  {
    s.Error? && s.at < now - ERROR_COOLDOWN
  }

  /** The state `loadingState(for:)` reports at time `now`. */
  function Effective<K>(table: map<K, LoadingState>, key: K, now: int): (s: LoadingState)
    ensures key !in table ==> s == Idle
    ensures s == Idle <==> Stored(table, key) == Idle || (Stored(table, key).Error? && now - Stored(table, key).at > ERROR_COOLDOWN)
    ensures s != Idle ==> s == Stored(table, key)
    ensures s.Error? ==> now - s.at <= ERROR_COOLDOWN
    ensures s == Loading <==> Stored(table, key) == Loading
  {
    var stored := Stored(table, key);
    if ErrorExpired(stored, now) then Idle else stored
  }

  /** The table after `loadingState(for:)` has run: an expired error is reset to
      `Idle`, and nothing else is written. */
  function AfterRead<K>(table: map<K, LoadingState>, key: K, now: int): (t: map<K, LoadingState>)
    ensures t.Keys == table.Keys
    ensures forall k :: k in table && k != key ==> t[k] == table[k]
    ensures Stored(t, key) == Effective(table, key, now)
    ensures !ErrorExpired(Stored(table, key), now) ==> t == table
  {
    if key in table && ErrorExpired(table[key], now) then table[key := Idle] else table
  }

  /** Reading the state twice at the same instant reports the same value and
      writes nothing the second time. */
  lemma ReadIsIdempotent<K>(table: map<K, LoadingState>, key: K, now: int)
    ensures Effective(AfterRead(table, key, now), key, now) == Effective(table, key, now)
    ensures AfterRead(AfterRead(table, key, now), key, now) == AfterRead(table, key, now)
  {
  }

  /** Once an error has expired it stays expired as time advances. */
  lemma ExpiryIsPermanent<K>(table: map<K, LoadingState>, key: K, now: int, later: int)
    requires now <= later
    requires Stored(table, key).Error? && Effective(table, key, now) == Idle
    ensures Effective(table, key, later) == Idle
  {
  }
}
