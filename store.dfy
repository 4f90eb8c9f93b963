/**
 * The `captcha_tokens` table, seen through the one write the issuing handler makes.
 * The table is keyed by token: the schema declares `token` UNIQUE, and `expires_at`
 * defaults to the insertion time plus 15 minutes.
 */
module Store {
  import opened Common

  /** Seconds since the epoch, as the database clock reads it. */
  type Time = int

  /** The database default for `expires_at`: 15 minutes after insertion. */
  const DefaultTtl: int := 15 * 60

  /** One row of `captcha_tokens`. */
  datatype Row = Row(
    id: string,
    token: string,
    ipAddress: Option<string>,
    userAgent: Option<string>,
    createdAt: Time,
    expiresAt: Time,
    solved: bool,
    solvedAt: Option<Time>)

  /** The columns the issuing handler supplies; the database fills in the rest. */
  datatype Payload = Payload(token: string, ipAddress: Option<string>, userAgent: Option<string>)

  /** An error's `message` property, which need not be a string. */
  datatype Message = MessageText(text: string) | NoMessageText

  datatype DbError = DbError(message: Message)

  /** What the database reports when an inserted token is already present. */
  const UniqueViolation: DbError :=
    DbError(MessageText("duplicate key" + " value violates unique constraint \"captcha_tokens_token_key\""))

  type Table = map<string, Row>

  /** Every row sits under its own token. */
  ghost predicate Keyed(t: Table) {
    forall k :: k in t ==> t[k].token == k
  }

  /** The row the database stores for `p`, with its column defaults applied at time `now`. */
  function NewRow(p: Payload, id: string, now: Time): Row {
    Row(id, p.token, p.ipAddress, p.userAgent, now, now + DefaultTtl, false, None)
  }

  /**
   * `insert(p).select(...).single()` against table `t`. `fault` is a failure the
   * database reports for a reason other than the token constraint (a lost connection,
   * a row-level security refusal, ...); the attempt then changes nothing. Otherwise the
   * row is added unless its token is taken, in which case the constraint refuses it.
   */
  function InsertRow(t: Table, p: Payload, id: string, now: Time, fault: Option<DbError>)
    : (r: (Result<Row, DbError>, Table))
    ensures r.0.Success? <==> fault == None && p.token !in t
    ensures r.0.Success? ==> r.0.value == NewRow(p, id, now) && r.1 == t[p.token := r.0.value]
    ensures r.0.Failure? ==> r.1 == t
    ensures fault == None && p.token in t ==> r.0 == Failure(UniqueViolation)
    ensures fault.Some? ==> r.0 == Failure(fault.value)
    ensures Keyed(t) ==> Keyed(r.1)
  {
    if fault.Some? then (Failure(fault.value), t)
    else if p.token in t then (Failure(UniqueViolation), t)
    else
      var row := NewRow(p, id, now);
      (Success(row), t[p.token := row])
  }

  /** The live table, which the issuing handler changes in place. */
  class TokenTable {
    var rows: Table
    /** Every payload the table has been asked to insert, in order. */
    ghost var inserts: seq<Payload>

    /**
     * The table invariant the UNIQUE constraint on `token` guarantees: every row sits
     * under its own token. `Insert` and the issuing handler keep it.
     */
    ghost predicate Valid()
      reads this
    {
      Keyed(rows)
    }

    constructor ()
      ensures Valid() && rows == map[] && inserts == []
    {
      rows := map[];
      inserts := [];
    }

    method Insert(p: Payload, id: string, now: Time, fault: Option<DbError>)
      returns (res: Result<Row, DbError>)
      modifies this
      ensures (res, rows) == InsertRow(old(rows), p, id, now, fault)
      ensures inserts == old(inserts) + [p]
      ensures old(Valid()) ==> Valid()
    {
      var r := InsertRow(rows, p, id, now, fault);
      res, rows := r.0, r.1;
      inserts := inserts + [p];
    }
  }
}
