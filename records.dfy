/** The stored sample and the error replies every handler shares. */
module Records {

  /**
   * One row of the `data` table: position, rounded signal strength, raw
   * radio network-type code and carrier index.
   */
  datatype Sample = Sample(latitude: real, longitude: real, dbm: int, radioType: int, provider: int)

  /** `parameters` is answered with status 400, `database` with status 500. */
  datatype ErrorKind = Parameters | Database

  /** The `{ error, reason }` body of an error reply. */
  datatype Error = Error(kind: ErrorKind, reason: string)

  /** What `dbError` sends when the pool, the connection or the query fails. */
  const DatabaseError: Error := Error(Database, "Cannot connect to database")

  /** The store invariant: every row was written by the ingestion handler. */
  predicate WellFormed(s: Sample) {
    s.latitude >= 0.0 && s.longitude >= 0.0 && s.radioType >= 0 && 1 <= s.provider <= 5
  }
}
