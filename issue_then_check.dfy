/**
 * How the two endpoints meet on the shared table. The lemmas take any run with the
 * effect `GenerateEffect` proves of a POST to the issuing endpoint.
 */
module IssueThenCheck {
  import opened Common
  import opened Http
  import opened Store
  import opened GenerateTokenApi
  import opened CheckApi

  /** A token just issued is reported as not solved. */
  lemma IssuedTokenChecksUnsolved(rows: Table, from: Origin, now: Time, run: Run, query: Request)
    requires IssueEffect(rows, from, now, run) && run.response.status == 201
    requires (query.verb == "GET" || query.verb == "POST") && TokenParam(query) == Str(run.response.body.token)
    ensures Check(query, run.rows, NoFault) == Response(200, None, None, Answer(false))
  {
    CheckReportsStoredFlag(query, run.rows, run.response.body.token);
  }

  /** Issuing changes no answer the status endpoint gives for any other token. */
  lemma IssueLeavesOtherChecksAlone(rows: Table, from: Origin, now: Time, run: Run, query: Request, fault: LookupFault)
    requires IssueEffect(rows, from, now, run)
    requires run.response.status == 201 ==> TokenParam(query) != Str(run.response.body.token)
    ensures Check(query, run.rows, fault) == Check(query, rows, fault)
  {
    CheckReadsOnlyItsRow(query, rows, run.rows, fault);
  }
}
