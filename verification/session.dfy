/**
 * The database layer: the two tables and the constraints their DDL declares,
 * the errors PostgreSQL raises against them, and the global connection pool
 * with its "not initialised" guard.
 */
module Session {
  import opened Wrappers
  import opened Models

  /** The range of PostgreSQL `INTEGER` (and of `SERIAL`): 32-bit two's complement. */
  const Int4Min: int := -0x8000_0000
  const Int4Max: int := 0x7fff_ffff

  predicate Int4(n: int)
  {
    Int4Min <= n <= Int4Max
  }

  /** A row of table `mentorias`: exactly the six columns of its DDL. */
  datatype MentoriaRow = MentoriaRow(
    id: int,
    mentorEmail: string,
    dataHora: int,
    duracaoMinutos: int,
    status: string,
    topico: string)

  /** A row of table `mentoria_mentorados`. */
  datatype Enrollment = Enrollment(mentoriaId: int, mentoradoEmail: string)

  /** Both tables, and the next value of the SERIAL sequence behind `mentorias.id`. */
  datatype Tables = Tables(
    mentorias: map<int, MentoriaRow>,
    enrollments: set<Enrollment>,
    nextId: int)

  /** The CHECK constraint on `mentorias.status`, as the DDL spells it. */
  const StatusCheck: set<string> := {"agendada", "concluída", "cancelada", "disponível"}

  /**
   * The constraints of both tables:
   * - `id SERIAL PRIMARY KEY`: rows are keyed by their id, every id was drawn
   *   from the sequence, so it lies below the sequence's next value, and the
   *   sequence never passes the largest `INTEGER`;
   * - `duracao_minutos INTEGER`: the stored duration fits in 32 bits;
   * - the CHECK on `status`;
   * - `REFERENCES mentorias(id)`: every enrollment names an existing row.
   * NOT NULL holds by construction (no column is optional), and the primary key
   * on (mentoria_id, mentorado_email) holds because enrollments form a set.
   */
  ghost predicate Consistent(t: Tables)
  {
    && 1 <= t.nextId <= Int4Max + 1
    && (forall id :: id in t.mentorias ==>
          && t.mentorias[id].id == id && 1 <= id < t.nextId
          && Int4(t.mentorias[id].duracaoMinutos) && t.mentorias[id].status in StatusCheck)
    && (forall e :: e in t.enrollments ==> e.mentoriaId in t.mentorias)
  }

  /** The CHECK list on `status` is exactly the set of MentoriaStatus values. */
  lemma StatusCheckMatchesEnum()
    ensures forall v :: v in StatusCheck <==> ParseStatus(v).Some?
    ensures forall s :: StatusValue(s) in StatusCheck
  {
  }

  /** Errors the database side raises; each propagates as an exception. */
  datatype DbError =
    | PoolNotInitialized               // RuntimeError from get_db_connection
    | UndefinedColumn(column: string)  // SET names a column the table lacks
    | NotNullViolation(column: string) // NULL written into a NOT NULL column
    | CheckViolation(column: string)   // value outside the CHECK list
    | DatatypeMismatch(column: string) // value of the wrong type for the column
    | IntegerOutOfRange                // asyncpg DataError: an argument for an INTEGER parameter outside int4
    | SequenceExhausted                // nextval: the SERIAL sequence reached its maximum

  /**
   * The value of the global `db_pool`: never assigned, holding an open pool,
   * or holding a pool that `close_db` has closed (the variable is not reset).
   */
  datatype PoolState = Unset | Open | Closed

  /** The module-level pool handle and the three functions that use it. */
  class Database {
    var pool: PoolState

    constructor ()
      ensures pool == Unset
    {
      pool := Unset;
    }

    /**
     * `connect_db`: `created` says whether `asyncpg.create_pool` succeeded.
     * When it raises, the exception propagates and `db_pool` keeps its value.
     */
    method ConnectDb(created: bool) returns (ok: bool)
      modifies this
      ensures ok == created
      ensures pool == if created then Open else old(pool)
    {
      if created {
        pool := Open;
        ok := true;
      } else {
        ok := false;
      }
    }

    /** `close_db`: closes the pool if one was ever set; does nothing otherwise. */
    method CloseDb()
      modifies this
      ensures pool == if old(pool) == Unset then Unset else Closed
    {
      if pool != Unset {
        pool := Closed;
      }
    }

    /**
     * The guard of `get_db_connection`: RuntimeError while `db_pool` was never
     * set; otherwise a connection is requested from the pool.
     */
    method GetDbConnection() returns (err: Option<DbError>)
      ensures err.Some? <==> pool == Unset
      ensures err.Some? ==> err.value == PoolNotInitialized
    {
      if pool == Unset {
        err := Some(PoolNotInitialized);
      } else {
        err := None;
      }
    }
  }
}
