/**
 The two handlers of app/api/registration/route.ts: `POST` (lines 50-119) takes a
 request body through validation, the duplicate-email check and the insert, each
 database call wrapped in `withRetry`; `GET` (lines 121-137) lists every row newest
 first. Both are functions of the table before the request and return the response
 and the table after it.

 The database is a `Table` plus, per request, a `Db`: which calls fail and with
 which message, and the id and clock value the database would generate. A failed
 call changes nothing in the table.
 */
module Endpoint {
  import opened Js
  import opened Zod
  import opened Registration
  import opened Retry
  import opened Store

  /** The message of the k-th attempt's failure, or `None` when attempt k reaches the table. */
  type Faults = nat -> Option<string>

  datatype Db = Db(findFaults: Faults, createFaults: Faults, newId: string, now: int)

  /** The operation `withRetry` is given: fail as scripted, otherwise yield `value`. */
  function Attempts<T>(faults: Faults, value: T): nat -> Call<T> {
    (k: nat) => if faults(k).Some? then Fail(faults(k).value) else Ok(value)
  }

  /** Some attempt within the default limit reaches the table, and every attempt before
      it failed on a lost connection. */
  predicate Recovers(faults: Faults) {
    exists j :: 1 <= j <= DefaultMaxRetries && Reaches(faults, j)
  }

  predicate Reaches(faults: Faults, j: nat) {
    faults(j).None? && forall k :: 1 <= k < j ==> faults(k).Some? && IsTransient(faults(k).value)
  }

  /** A retried database call yields its value exactly when the faults let an attempt
      through; otherwise it throws. */
  lemma {:induction false} RetriedCall<T>(faults: Faults, value: T)
    ensures WithRetry(Attempts(faults, value), DefaultMaxRetries).result.Returned? <==> Recovers(faults)
    ensures Recovers(faults) ==> WithRetry(Attempts(faults, value), DefaultMaxRetries).result == Returned(value)
  {
    var op := Attempts(faults, value);
    var run := WithRetry(op, DefaultMaxRetries);
    if Recovers(faults) {
      var j :| 1 <= j <= DefaultMaxRetries && Reaches(faults, j);
      assert forall k :: 1 <= k < j ==> op(k).Fail? && IsTransient(op(k).message);
      FirstSuccessReturned(op, DefaultMaxRetries, j, value);
    }
    if run.result.Returned? {
      var last := run.calls;
      assert op(last).Ok?;
      assert forall k :: 1 <= k < last ==> RetriesAfter(op, DefaultMaxRetries, k);
      assert Reaches(faults, last);
    }
  }

  /** What a handler sends back. */
  datatype Response =
    | Created(id: string)                    // 201 { message: 'Registration successful', id }
    | ValidationFailed(issues: seq<Issue>)   // 400 { error: 'Validation failed', details }
    | EmailTaken                             // 400 { error: 'Email already registered' }
    | ServerError                            // 500 { error: 'Internal server error' }
    | Rows(rows: seq<Row>)                   // 200, the array of rows

  function Status(r: Response): int {
    match r
    case Created(_) => 201
    case ValidationFailed(_) => 400
    case EmailTaken => 400
    case ServerError => 500
    case Rows(_) => 200
  }

  datatype Outcome = Outcome(response: Response, table: Table)

  /** `POST`. `body` is `None` when the request body is not JSON (`request.json()`
      throws, which the handler turns into a 500). */
  function Post(fm: Formats, t: Table, body: Option<Input>, db: Db): (out: Outcome)
    ensures Status(out.response) in {201, 400, 500}
    ensures !out.response.Created? ==> out.table == t
    ensures out.response.Created? ==>
      && |out.table| == |t| + 1
      && out.table[..|t|] == t
      && out.table[|t|].id == out.response.id
      && !HasEmail(t, out.table[|t|].email)
    ensures UniqueEmails(t) ==> UniqueEmails(out.table)
  {
    match body
    case None => Outcome(ServerError, t)
    case Some(x) =>
      match ParseRegistration(fm, x)
      case Rejected(issues) => Outcome(ValidationFailed(issues), t)
      case Accepted(data) =>
        var lookup := WithRetry(Attempts(db.findFaults, FindByEmail(t, data.email)), DefaultMaxRetries);
        if lookup.result.Threw? then Outcome(ServerError, t)
        else if lookup.result.value.Some? then Outcome(EmailTaken, t)
        else
          var insert := WithRetry(Attempts(db.createFaults, NewRow(data, db.newId, db.now)), DefaultMaxRetries);
          if insert.result.Threw? then Outcome(ServerError, t)
          else
            var row := insert.result.value;
            RetriedCall(db.findFaults, FindByEmail(t, data.email));
            RetriedCall(db.createFaults, NewRow(data, db.newId, db.now));
            assert (t + [row])[..|t|] == t;
            AppendKeepsUnique(t, row);
            Outcome(Created(row.id), t + [row])
  }

  /** `GET`: the rows when some attempt reaches the table, otherwise a 500. The
      listing holds exactly the stored rows, newest first. */
  function GetAll(t: Table, faults: Faults): (r: Response)
    ensures r.Rows? <==> Recovers(faults)
    ensures r == ServerError <==> !Recovers(faults)
    ensures r.Rows? ==> multiset(r.rows) == multiset(t) && NewestFirst(r.rows)
  {
    var run := WithRetry(Attempts(faults, ListingOrder(t)), DefaultMaxRetries);
    RetriedCall(faults, ListingOrder(t));
    if run.result.Threw? then ServerError else Rows(run.result.value)
  }

  /** The four outcomes of `POST`, each with exactly the circumstances that lead to it. */
  lemma PostOutcomes(fm: Formats, t: Table, body: Option<Input>, db: Db)
    ensures Post(fm, t, body, db).response.ValidationFailed? <==>
      body.Some? && !ServerRules(fm, body.value)
    ensures Post(fm, t, body, db).response == EmailTaken <==>
      && body.Some? && ServerRules(fm, body.value)
      && Recovers(db.findFaults) && HasEmail(t, body.value.email.s)
    ensures Post(fm, t, body, db).response.Created? <==>
      && body.Some? && ServerRules(fm, body.value)
      && Recovers(db.findFaults) && !HasEmail(t, body.value.email.s)
      && Recovers(db.createFaults)
    ensures Post(fm, t, body, db).response == ServerError <==>
      || body.None?
      || (ServerRules(fm, body.value) && !Recovers(db.findFaults))
      || (ServerRules(fm, body.value) && !HasEmail(t, body.value.email.s) && !Recovers(db.createFaults))
  {
    if body.Some? && ServerRules(fm, body.value) {
      var x := body.value;
      var data := ParseRegistration(fm, x).data;
      assert data.email == x.email.s;
      RetriedCall(db.findFaults, FindByEmail(t, data.email));
      RetriedCall(db.createFaults, NewRow(data, db.newId, db.now));
    }
  }

  /** The value a nullable column gets from a body field under `value || null`. */
  function Nullable(v: Value): Option<string> {
    if v.Str? && v.s != "" then Some(v.s) else None
  }

  /** `row` holds the body `x`: required fields verbatim, optional text with ""
      and a missing key both stored as NULL, and any other text kept as it is. */
  predicate StoredFrom(x: Input, row: Row) {
    && x.name == Str(row.name)
    && x.companyName == Str(row.companyName)
    && x.jobTitle == Str(row.jobTitle)
    && x.mobileNumber == Str(row.mobileNumber)
    && x.email == Str(row.email)
    && x.officeAddress == Str(row.officeAddress)
    && x.country == Str(row.country)
    && x.industry == Str(row.industry)
    && x.sourceEvent == Str(row.sourceEvent)
    && x.followUp == Bool(row.followUp)
    && row.officePhone == Nullable(x.officePhone)
    && row.website == Nullable(x.website)
    && row.followUpDate == Nullable(x.followUpDate)
    && row.comment == Nullable(x.comment)
  }

  /** A successful `POST` appends one row built from the body, with the generated id
      and timestamps, and answers 201 with that id. */
  lemma PostCreatedRow(fm: Formats, t: Table, x: Input, db: Db)
    requires Post(fm, t, Some(x), db).response.Created?
    ensures var out := Post(fm, t, Some(x), db);
      && out.table == t + [out.table[|t|]]
      && StoredFrom(x, out.table[|t|])
      && out.response.id == db.newId
      && out.table[|t|].createdAt == db.now && out.table[|t|].updatedAt == db.now
  {
  }

  /** The placeholder "https://" is a non-empty string and is stored as it is. */
  lemma PlaceholderWebsiteKept(fm: Formats, t: Table, x: Input, db: Db)
    requires x.website == Str("https://")
    requires Post(fm, t, Some(x), db).response.Created?
    ensures Post(fm, t, Some(x), db).table[|t|].website == Some("https://")
  {
  }

  /** Posting the same valid body twice: the first request creates the row, the
      second is refused as a duplicate and leaves the table as the first left it. */
  lemma SecondPostIsDuplicate(fm: Formats, t: Table, x: Input, db1: Db, db2: Db)
    requires Post(fm, t, Some(x), db1).response.Created?
    requires Recovers(db2.findFaults)
    ensures var first := Post(fm, t, Some(x), db1);
      && Post(fm, first.table, Some(x), db2).response == EmailTaken
      && Post(fm, first.table, Some(x), db2).table == first.table
  {
    var first := Post(fm, t, Some(x), db1);
    PostCreatedRow(fm, t, x, db1);
    PostOutcomes(fm, t, Some(x), db1);
    assert first.table[|t|].email == x.email.s;
    assert HasEmail(first.table, x.email.s);
    PostOutcomes(fm, first.table, Some(x), db2);
  }

  /** A created row comes back from the listing with every field as stored. */
  lemma CreatedRowIsListed(fm: Formats, t: Table, x: Input, db: Db, faults: Faults)
    requires Post(fm, t, Some(x), db).response.Created?
    requires Recovers(faults)
    ensures var out := Post(fm, t, Some(x), db);
      && GetAll(out.table, faults).Rows?
      && out.table[|t|] in GetAll(out.table, faults).rows
      && StoredFrom(x, out.table[|t|])
  {
    var out := Post(fm, t, Some(x), db);
    PostCreatedRow(fm, t, x, db);
    var rows := GetAll(out.table, faults).rows;
    assert out.table[|t|] in multiset(out.table);
    assert out.table[|t|] in multiset(rows);
  }
}
