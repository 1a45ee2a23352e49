/** The records a broker stores. */
module Records {
  import opened RaftTypes

  type uint32 = x: int | 0 <= x < 0x1_0000_0000
  type uint64 = x: int | 0 <= x < 0x1_0000_0000_0000_0000

  datatype Record = Record(key: Bytes, value: Bytes, timestamp: uint64, offset: uint64)

  /** messageMaxSize: the store rejects a record with a longer value. */
  const MAX_VALUE := 1_000_000

  /** The store accepts the record. */
  predicate Fits(r: Record) {
    |r.value| <= MAX_VALUE
  }
}
