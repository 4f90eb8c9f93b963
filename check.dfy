/**
 * The status endpoint: GET or POST with a token answers 200 with the stored `solved`
 * flag of that token's row, 200 `false` when there is no such row or the lookup
 * reports an error, 400 when the token is missing, 405 for other methods and 500 when
 * the lookup throws. It only reads the table.
 */
module CheckApi {
  import opened Common
  import opened Http
  import opened Store

  /** How the lookup behaves apart from the table's contents: it may report an error or throw. */
  datatype LookupFault = NoFault | ReportsError | Throws

  datatype CheckBody = Answer(value: bool) | CheckError(error: string)

  /** `req.query.token` for GET, `req.body.token` for any other method. */
  function TokenParam(req: Request): Param {
    if req.verb == "GET" then req.queryToken else req.bodyToken
  }

  /** `(param || '')` passes `!token || typeof token !== 'string'` only when it is a non-empty string. */
  function TokenOf(p: Param): (t: Option<string>)
    ensures t.Some? <==> p.Str? && p.text != ""
    ensures t.Some? ==> t.value == p.text
  {
    match p
    case Str(s) => if s == "" then None else Some(s)
    case _ => None
  }

  /**
   * The lookup `select('solved').eq('token', token).single()` finds at most one row,
   * since `token` is unique.
   */
  function Check(req: Request, rows: Table, fault: LookupFault): (r: Response<CheckBody>)
    ensures r.status in {200, 400, 405, 500}
    ensures r.status == 405 <==> req.verb != "GET" && req.verb != "POST"
    ensures r.status == 405 <==> r.allow.Some?
    ensures r.status == 405 ==> r.allow == Some("GET, POST") && r.body == CheckError("Method Not Allowed")
    ensures r.status == 400 <==> r.status != 405 && TokenOf(TokenParam(req)).None?
    ensures r.status == 400 ==> r.body == CheckError("Missing token")
    ensures r.status == 500 <==> r.status !in {400, 405} && fault == Throws
    ensures r.status == 500 ==> r.body == CheckError("Server error")
    ensures r.status == 200 ==> r.body.Answer?
    ensures r.body == Answer(true) <==>
      && (req.verb == "GET" || req.verb == "POST") && fault == NoFault
      && var t := TokenParam(req); t.Str? && t.text != "" && t.text in rows && rows[t.text].solved
  {
    if req.verb != "GET" && req.verb != "POST" then
      Response(405, Some("GET, POST"), None, CheckError("Method Not Allowed"))
    else
      match TokenOf(TokenParam(req))
      case None => Response(400, None, None, CheckError("Missing token"))
      case Some(token) =>
        if fault == Throws then Response(500, None, None, CheckError("Server error"))
        else if fault == ReportsError then Response(200, None, None, Answer(false))
        else if token !in rows then Response(200, None, None, Answer(false))
        else
          assert fault == NoFault;
          assert TokenParam(req).Str? && TokenParam(req).text == token;
          Response(200, None, None, Answer(rows[token].solved))
  }

  /** A stored row answers with its own `solved` flag, unchanged. */
  lemma CheckReportsStoredFlag(req: Request, rows: Table, token: string)
    requires req.verb == "GET" || req.verb == "POST"
    requires TokenParam(req) == Str(token) && token != "" && token in rows
    ensures Check(req, rows, NoFault) == Response(200, None, None, Answer(rows[token].solved))
  {
  }

  /** A token with no row, or a lookup that reports an error, answers `false`. */
  lemma CheckFalseWithoutRow(req: Request, rows: Table, fault: LookupFault)
    requires req.verb == "GET" || req.verb == "POST"
    requires TokenOf(TokenParam(req)).Some?
    requires fault == ReportsError || (fault == NoFault && TokenOf(TokenParam(req)).value !in rows)
    ensures Check(req, rows, fault) == Response(200, None, None, Answer(false))
  {
  }

  /** The answer depends on the table only through the requested token's row. */
  lemma CheckReadsOnlyItsRow(req: Request, rows: Table, rows': Table, fault: LookupFault)
    requires var t := TokenParam(req);
      t.Str? ==> (t.text in rows <==> t.text in rows') && (t.text in rows ==> rows[t.text].solved == rows'[t.text].solved)
    ensures Check(req, rows, fault) == Check(req, rows', fault)
  {
  }
}
