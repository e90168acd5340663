/** Types shared by every module: fixed-width integers, times and Option. */
module Common {

  datatype Option<+T> = None | Some(value: T)

  const U32_SIZE: int := 0x1_0000_0000

  type Byte = x: int | 0 <= x < 0x100
  type U16 = x: int | 0 <= x < 0x1_0000
  type U32 = x: int | 0 <= x < 0x1_0000_0000
  type U64 = x: int | 0 <= x < 0x1_0000_0000_0000_0000

  /** A point on the monotonic clock, or a length of time, in milliseconds. */
  type Time = int

  function Max(a: int, b: int): int {
    if a < b then b else a
  }

  function Min(a: int, b: int): int {
    if a < b then a else b
  }

  // ----- Renaming a session -----

  type SessionId = nat

  function Renamed(k: SessionId, from: SessionId, to: SessionId): SessionId {
    if k == from then to else k
  }

  /** The image of `m` when the key `from` is called `to`. */
  function RenameKey<V>(m: map<SessionId, V>, from: SessionId, to: SessionId): map<SessionId, V>
    requires to !in m
  {
    map k | k in m.Keys + {to} && k != from && Renamed(k, to, from) in m :: m[Renamed(k, to, from)]
  }

  lemma RenameKeyIs<V>(m: map<SessionId, V>, from: SessionId, to: SessionId)
    requires to !in m && from != to
    ensures RenameKey(m, from, to) == if from in m then (m - {from})[to := m[from]] else m
  {
    assert from in m ==> Renamed(from, from, to) == to;
    assert forall k :: k in m && k != from ==> Renamed(k, from, to) == k;
  }
}
