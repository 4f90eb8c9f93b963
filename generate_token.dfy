/**
 * The issuing endpoint: a POST creates a row holding a fresh random token and answers
 * with its id, token and expiry, retrying up to three times when the token collides
 * with one already stored.
 *
 * What the outside world decides is passed in: for each attempt a `Draw` gives the
 * random bytes, the id the database assigns and any failure the database reports for
 * a reason other than the token constraint.
 */
module GenerateTokenApi {
  import opened Common
  import opened Text
  import opened Http
  import opened Store

  /** The default size of the random draw; its hex form is twice as long. */
  const TokenBytes: nat := 32
  const TokenLength: nat := 64
  const MaxAttempts: nat := 3
  /** The `Cache-Control` header of every answer to a POST. */
  const NoStore: Option<string> := Some("no-store")

  /** The output of `randomBytes(TokenBytes)`. */
  type Entropy = s: seq<byte> | |s| == TokenBytes witness seq(TokenBytes, _ => 0)

  /** What the random source and the database decide for one insert attempt. */
  datatype Draw = Draw(random: Entropy, id: string, fault: Option<DbError>)

  /** The `details` of a failure response: `error.message || error`. */
  datatype Details = DetailMessage(text: string) | DetailError(error: DbError)

  datatype IssueBody =
    | Issued(id: string, token: string, expiresAt: Time)
    | IssueError(error: string, details: Option<Details>)

  /** A token for one random draw: lower-case hex, from which the draw can be read back. */
  function GenerateToken(random: Entropy): (token: string)
    ensures |token| == TokenLength && IsLowerHex(token)
  {
    HexEncode(random)
  }

  /** The draw can be read back from its token. */
  lemma GenerateTokenDecodes(random: Entropy)
    ensures HexDecode(GenerateToken(random)) == Some(random)
  {
    HexRoundTrip(random);
  }

  /** Different draws give different tokens, so a collision needs a repeated draw. */
  lemma TokensDifferForDifferentDraws(a: Entropy, b: Entropy)
    requires a != b
    ensures GenerateToken(a) != GenerateToken(b)
  {
    if GenerateToken(a) == GenerateToken(b) {
      HexEncodeInjective(a, b);
    }
  }

  /** `x-forwarded-for`, else the socket's remote address, else the empty string. */
  function RawAddress(req: Request): string {
    match HeaderOr(req, "x-forwarded-for", req.remoteAddress)
    case Some(s) => s
    case None => ""
  }

  /** `ip` is the first comma-separated entry of `raw`, trimmed, or nothing when that entry is blank. */
  ghost predicate IsClientIpOf(ip: Option<string>, raw: string) {
    var first := FirstSegment(raw, ',');
    && (ip == None <==> Blank(first))
    && (ip.Some? ==> ip.value != "" && ',' !in ip.value && IsTrimOf(ip.value, first))
  }

  function ClientIp(req: Request): (ip: Option<string>)
    ensures IsClientIpOf(ip, RawAddress(req))
  {
    var t := Trim(FirstSegment(RawAddress(req), ','));
    if t == "" then None else Some(t)
  }

  /** Only the first hop of a forwarding chain counts. */
  lemma ClientIpIgnoresLaterHops(req: Request, first: string, rest: string)
    requires first != ""
    ensures ClientIp(req.(headers := req.headers["x-forwarded-for" := first + "," + rest]))
         == ClientIp(req.(headers := req.headers["x-forwarded-for" := first]))
  {
    FirstSegmentOfJoin(first, rest, ',');
  }

  /** A non-empty forwarding header wins over the socket address. */
  lemma ClientIpPrefersForwardedFor(req: Request, other: Option<string>)
    requires "x-forwarded-for" in req.headers && req.headers["x-forwarded-for"] != ""
    ensures ClientIp(req.(remoteAddress := other)) == ClientIp(req)
  {
  }

  function UserAgent(req: Request): Option<string> {
    HeaderOr(req, "user-agent", None)
  }

  /** The failure is the token constraint's: its message is a string naming a duplicate key or a unique constraint, in any case. */
  function IsUniqueViolation(err: DbError): (b: bool)
    ensures b <==> err.message.MessageText? &&
                   (Occurs(err.message.text, "duplicate key") || Occurs(err.message.text, "unique constraint"))
  {
    match err.message
    case MessageText(m) => ContainsIgnoringCase(m, "duplicate key") || ContainsIgnoringCase(m, "unique constraint")
    case NoMessageText => false
  }

  /** The error the store raises for a taken token is one the handler retries. */
  lemma TokenCollisionIsUniqueViolation()
    ensures IsUniqueViolation(UniqueViolation)
  {
    var m := UniqueViolation.message.text;
    assert m[..13] == "duplicate key";
    assert MatchesAt(m, 0, "duplicate key");
  }

  function DetailsOf(err: DbError): Details {
    if err.message.MessageText? && err.message.text != "" then DetailMessage(err.message.text) else DetailError(err)
  }

  /** The response, the table afterwards, and how many inserts were attempted. */
  datatype Run = Run(response: Response<IssueBody>, rows: Table, attempts: nat)

  /** Who asked, as recorded with every row the request inserts. */
  datatype Origin = Origin(ip: Option<string>, userAgent: Option<string>)

  function OriginOf(req: Request): Origin {
    Origin(ClientIp(req), UserAgent(req))
  }

  /** Insert attempt number `k` (from 1) against `rows`. */
  function TryInsert(rows: Table, from: Origin, env: seq<Draw>, now: Time, k: nat): (Result<Row, DbError>, Table)
    requires 1 <= k <= |env|
  {
    InsertRow(rows, Payload(GenerateToken(env[k - 1].random), from.ip, from.userAgent), env[k - 1].id, now, env[k - 1].fault)
  }

  /** A failed attempt that leads to another one. */
  predicate Retries(res: Result<Row, DbError>, k: nat) {
    res.Failure? && IsUniqueViolation(res.error) && k < MaxAttempts
  }

  /** The insert loop from attempt `attempt` on; a failed attempt leaves `rows` as it was. */
  function Attempts(rows: Table, from: Origin, env: seq<Draw>, now: Time, attempt: nat): (run: Run)
    requires 1 <= attempt <= MaxAttempts <= |env|
    decreases MaxAttempts - attempt
    ensures attempt <= run.attempts <= MaxAttempts
  {
    var (res, rows') := TryInsert(rows, from, env, now, attempt);
    match res
    case Success(row) => Run(Response(201, None, NoStore, Issued(row.id, row.token, row.expiresAt)), rows', attempt)
    case Failure(err) =>
      if !IsUniqueViolation(err) || attempt == MaxAttempts then
        Run(Response(500, None, NoStore, IssueError("Failed to create token", Some(DetailsOf(err)))), rows, attempt)
      else
        Attempts(rows, from, env, now, attempt + 1)
  }

  /**
   * A 201 names a new row: its token was absent before, it is now the only row added, and
   * it is the row the database builds at `now` from the token and the request's origin
   * (so it is unsolved and expires 15 minutes later). A 500 leaves the table as it was.
   */
  predicate IssueEffect(rows: Table, from: Origin, now: Time, run: Run) {
    && (run.response.status == 201 || run.response.status == 500)
    && run.response.allow == None && run.response.cacheControl == NoStore
    && (run.response.status == 201 ==>
      var b := run.response.body;
      && b.Issued? && b.token !in rows && b.token in run.rows
      && run.rows == rows[b.token := run.rows[b.token]]
      && run.rows[b.token] == NewRow(Payload(b.token, from.ip, from.userAgent), b.id, now)
      && b.expiresAt == now + DefaultTtl && |b.token| == TokenLength && IsLowerHex(b.token))
    && (run.response.status == 500 ==>
      run.rows == rows && run.response.body.IssueError? && run.response.body.error == "Failed to create token")
  }

  lemma {:induction false} AttemptsEffect(rows: Table, from: Origin, env: seq<Draw>, now: Time, attempt: nat)
    requires 1 <= attempt <= MaxAttempts <= |env|
    decreases MaxAttempts - attempt
    ensures IssueEffect(rows, from, now, Attempts(rows, from, env, now, attempt))
  {
    var (res, rows') := TryInsert(rows, from, env, now, attempt);
    var run := Attempts(rows, from, env, now, attempt);
    if Retries(res, attempt) {
      AttemptsEffect(rows, from, env, now, attempt + 1);
      assert run == Attempts(rows, from, env, now, attempt + 1);
    } else if res.Success? {
      assert run.rows == rows' == rows[res.value.token := res.value];
      assert run.response.body == Issued(res.value.id, res.value.token, res.value.expiresAt);
    } else {
      assert run.rows == rows;
    }
  }

  /** Such a run keeps every row under its own token. */
  lemma IssueKeepsKeyed(rows: Table, from: Origin, now: Time, run: Run)
    requires IssueEffect(rows, from, now, run) && Keyed(rows)
    ensures Keyed(run.rows)
  {
    if run.response.status == 201 {
      var t := run.response.body.token;
      forall k | k in run.rows
        ensures run.rows[k].token == k
      {
        if k != t { assert k in rows; }
      }
    }
  }

  /** The whole handler, as a function of the request, the table and the draws. */
  function Generate(req: Request, rows: Table, env: seq<Draw>, now: Time): (run: Run)
    requires MaxAttempts <= |env|
    ensures run.attempts <= MaxAttempts
    ensures run.attempts == 0 <==> req.verb != "POST"
    ensures req.verb != "POST" ==>
      && run.response == Response(405, Some("POST"), None, IssueError("Method Not Allowed", None))
      && run.rows == rows
  {
    if req.verb != "POST" then
      Run(Response(405, Some("POST"), None, IssueError("Method Not Allowed", None)), rows, 0)
    else
      Attempts(rows, OriginOf(req), env, now, 1)
  }

  /**
   * A POST either adds exactly one fresh, unsolved row recording the client's address and
   * user agent (201) or leaves the table alone (500); the table stays keyed by token.
   */
  lemma GenerateEffect(req: Request, rows: Table, env: seq<Draw>, now: Time)
    requires MaxAttempts <= |env| && req.verb == "POST"
    ensures IssueEffect(rows, OriginOf(req), now, Generate(req, rows, env, now))
    ensures Keyed(rows) ==> Keyed(Generate(req, rows, env, now).rows)
  {
    AttemptsEffect(rows, OriginOf(req), env, now, 1);
    if Keyed(rows) {
      IssueKeepsKeyed(rows, OriginOf(req), now, Generate(req, rows, env, now));
    }
  }

  /**
   * Every attempt before the last one failed on the token constraint; the last one either
   * succeeded (201), failed for another reason (500 at once) or was the third collision
   * (500 after exhausting the attempts).
   */
  lemma {:induction false} AttemptsTrace(rows: Table, from: Origin, env: seq<Draw>, now: Time, attempt: nat)
    requires 1 <= attempt <= MaxAttempts <= |env|
    decreases MaxAttempts - attempt
    ensures var run := Attempts(rows, from, env, now, attempt);
      && (forall k :: attempt <= k < run.attempts ==> Retries(TryInsert(rows, from, env, now, k).0, k))
      && var last := TryInsert(rows, from, env, now, run.attempts).0;
      && !Retries(last, run.attempts)
      && (run.response.status == 201 <==> last.Success?)
      && (last.Failure? ==> run.response.body.details == Some(DetailsOf(last.error)))
  {
    var run := Attempts(rows, from, env, now, attempt);
    var res := TryInsert(rows, from, env, now, attempt).0;
    if Retries(res, attempt) {
      assert run == Attempts(rows, from, env, now, attempt + 1);
      AttemptsTrace(rows, from, env, now, attempt + 1);
      forall k | attempt <= k < run.attempts
        ensures Retries(TryInsert(rows, from, env, now, k).0, k)
      {
        if k == attempt { assert TryInsert(rows, from, env, now, k).0 == res; }
      }
    } else {
      assert run.attempts == attempt;
    }
  }

  /** A POST ends in exactly one of three ways. */
  lemma GenerateOutcomes(req: Request, rows: Table, env: seq<Draw>, now: Time)
    requires MaxAttempts <= |env| && req.verb == "POST"
    ensures var run := Generate(req, rows, env, now);
      var from := OriginOf(req);
      var last := TryInsert(rows, from, env, now, run.attempts).0;
      && 1 <= run.attempts <= MaxAttempts
      && (forall k :: 1 <= k < run.attempts ==> Retries(TryInsert(rows, from, env, now, k).0, k))
      && ((run.response.status == 201 && last.Success?)
          || (run.response.status == 500 && last.Failure? && !IsUniqueViolation(last.error))
          || (run.response.status == 500 && last.Failure? && IsUniqueViolation(last.error) && run.attempts == MaxAttempts))
  {
    var from := OriginOf(req);
    assert Generate(req, rows, env, now) == Attempts(rows, from, env, now, 1);
    AttemptsTrace(rows, from, env, now, 1);
  }

  /** When the first draw's token is free and the database raises nothing, one attempt suffices. */
  lemma FreshFirstDrawSucceeds(req: Request, rows: Table, env: seq<Draw>, now: Time)
    requires MaxAttempts <= |env| && req.verb == "POST"
    requires env[0].fault == None && GenerateToken(env[0].random) !in rows
    ensures Generate(req, rows, env, now).attempts == 1
    ensures Generate(req, rows, env, now).response.status == 201
  {
  }

  /**
   * The handler: `table` is the live token table, `env` what the random source and the
   * database supply for each attempt, `now` the database clock.
   */
  method Handler(req: Request, table: TokenTable, env: seq<Draw>, now: Time) returns (response: Response<IssueBody>)
    requires MaxAttempts <= |env|
    modifies table
    ensures var run := Generate(req, old(table.rows), env, now);
      response == run.response && table.rows == run.rows && |table.inserts| == |old(table.inserts)| + run.attempts
    ensures old(table.Valid()) ==> table.Valid()
  {
    if req.verb != "POST" {
      return Response(405, Some("POST"), None, IssueError("Method Not Allowed", None));
    }
    var from := OriginOf(req);
    response := InsertWithRetries(table, from, env, now);
  }

  /** The retry loop of the handler, for a request from `from`. */
  method InsertWithRetries(table: TokenTable, from: Origin, env: seq<Draw>, now: Time) returns (response: Response<IssueBody>)
    requires MaxAttempts <= |env|
    modifies table
    ensures var run := Attempts(old(table.rows), from, env, now, 1);
      response == run.response && table.rows == run.rows && |table.inserts| == |old(table.inserts)| + run.attempts
    ensures old(table.Valid()) ==> table.Valid()
  {
    ghost var rows0 := table.rows;
    var attempt := 1;
    while attempt <= MaxAttempts
      invariant 1 <= attempt <= MaxAttempts
      invariant table.rows == rows0 && |table.inserts| == |old(table.inserts)| + attempt - 1
      invariant Attempts(rows0, from, env, now, 1) == Attempts(rows0, from, env, now, attempt)
    {
      var token := GenerateToken(env[attempt - 1].random);
      var payload := Payload(token, from.ip, from.userAgent);
      var result := table.Insert(payload, env[attempt - 1].id, now, env[attempt - 1].fault);
      ghost var run := Attempts(rows0, from, env, now, attempt);
      assert (result, table.rows) == TryInsert(rows0, from, env, now, attempt);
      if result.Success? {
        assert run.rows == table.rows;
        return Response(201, None, NoStore, Issued(result.value.id, result.value.token, result.value.expiresAt));
      }
      var isUniqueViolation := IsUniqueViolation(result.error);
      if !isUniqueViolation || attempt == MaxAttempts {
        assert run.attempts == attempt;
        return Response(500, None, NoStore, IssueError("Failed to create token", Some(DetailsOf(result.error))));
      }
      assert run == Attempts(rows0, from, env, now, attempt + 1);
      attempt := attempt + 1;
    }
    // every iteration returns by the last attempt, so the loop never runs out
    assert false;
    response := Response(500, None, NoStore, IssueError("Unexpected error", None));
  }
}
