/**
 The registrations table as the endpoints see it (the `registration` model the ORM
 client reads and writes in app/api/registration/route.ts lines 58-91 and 123-127):
 a sequence of rows in insertion order, looked up by email, listed newest first.
 */
module Store {
  import opened Js
  import Registration
  import Ordering

  /** One stored registration. Optional columns hold `None` for SQL NULL. */
  datatype Row = Row(
    id: string, name: string, companyName: string, jobTitle: string,
    mobileNumber: string, officePhone: Option<string>, email: string,
    website: Option<string>, officeAddress: string, country: string,
    industry: string, sourceEvent: string, followUpDate: Option<string>,
    followUp: bool, comment: Option<string>, createdAt: int, updatedAt: int)

  type Table = seq<Row>

  /** `value || null` on an optional string: a missing value and "" both become NULL. */
  function NullIfEmpty(o: Option<string>): (r: Option<string>)
    ensures r.None? <==> (o.None? || o.value == "")
    ensures r.Some? ==> r == o
  {
    if o.Some? && o.value != "" then o else None
  }

  /** The row `create` inserts for a validated submission (route.ts lines 74-89); the
      id and both timestamps are generated by the database. */
  function NewRow(data: Registration.Submission, id: string, now: int): (row: Row)
    ensures row.id == id && row.createdAt == now && row.updatedAt == now
    ensures row.email == data.email
  {
    Row(id, data.name, data.companyName, data.jobTitle, data.mobileNumber,
        NullIfEmpty(data.officePhone), data.email, NullIfEmpty(data.website),
        data.officeAddress, data.country, data.industry, data.sourceEvent,
        NullIfEmpty(data.followUpDate), data.followUp, NullIfEmpty(data.comment),
        now, now)
  }

  predicate HasEmail(t: Table, email: string) {
    exists i :: 0 <= i < |t| && t[i].email == email
  }

  /** The column constraint `email TEXT UNIQUE`: no two rows share an email. */
  predicate UniqueEmails(t: Table) {
    forall i, j :: 0 <= i < j < |t| ==> t[i].email != t[j].email
  }

  /** `findUnique({ where: { email } })`. */
  function FindByEmail(t: Table, email: string): (r: Option<Row>)
    ensures r.Some? <==> HasEmail(t, email)
    ensures r.Some? ==> r.value in t && r.value.email == email
  {
    if t == [] then None
    else if t[0].email == email then Some(t[0])
    else
      var r := FindByEmail(t[1..], email);
      assert HasEmail(t[1..], email) ==> HasEmail(t, email) by {
        if HasEmail(t[1..], email) {
          var i :| 0 <= i < |t[1..]| && t[1..][i].email == email;
          assert t[i + 1] == t[1..][i];
        }
      }
      assert HasEmail(t, email) ==> HasEmail(t[1..], email) by {
        if HasEmail(t, email) {
          var i :| 0 <= i < |t| && t[i].email == email;
          assert i > 0 && t[1..][i - 1] == t[i];
        }
      }
      r
  }

  /** Appending a row whose email is new keeps emails unique. */
  lemma AppendKeepsUnique(t: Table, row: Row)
    requires !HasEmail(t, row.email)
    ensures UniqueEmails(t) ==> UniqueEmails(t + [row])
  {
  }

  function CreatedAt(row: Row): int {
    row.createdAt
  }

  /** `orderBy: { createdAt: 'desc' }`. */
  predicate NewestFirst(rows: seq<Row>) {
    Ordering.Descending(rows, CreatedAt)
  }

  /** The rows of a table in listing order: the same rows, newest first. Rows with
      equal `createdAt` come out in one fixed order; the database promises none. */
  function ListingOrder(t: Table): (r: seq<Row>)
    ensures NewestFirst(r)
    ensures multiset(r) == multiset(t)
  {
    Ordering.SortDescending(t, CreatedAt)
  }
}
