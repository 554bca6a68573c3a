/**
 The server's registration schema (`registrationSchema`, app/api/registration/route.ts
 lines 5-20): the fourteen fields of a request body, the Zod schema of each, the
 object-level parse that collects one list of issues over all fields, and the typed
 record a successful parse yields.

 `ServerFieldOk` states each field's rule directly (length bounds, phone pattern,
 the "" carve-out, email format, boolean); `ValidateMeaning` and
 `ParseRegistration` prove that the Zod schema accepts exactly those records and
 reports an issue for exactly the fields that break their rule.
 */
module Registration {
  import opened Js
  import opened Zod
  import Phone

  datatype Field =
    | Name | CompanyName | JobTitle | MobileNumber | OfficePhone | Email | Website
    | OfficeAddress | Country | Industry | SourceEvent | FollowUpDate | FollowUp | Comment

  /** The keys of the object schema, in declaration order (Zod parses them in this order). */
  const Fields: seq<Field> := [
    Name, CompanyName, JobTitle, MobileNumber, OfficePhone, Email, Website,
    OfficeAddress, Country, Industry, SourceEvent, FollowUpDate, FollowUp, Comment
  ]

  lemma EveryFieldListed(f: Field)
    ensures f in Fields
  {
  }

  /** The JSON property name of a field. */
  function Key(f: Field): string {
    match f
    case Name => "name"
    case CompanyName => "companyName"
    case JobTitle => "jobTitle"
    case MobileNumber => "mobileNumber"
    case OfficePhone => "officePhone"
    case Email => "email"
    case Website => "website"
    case OfficeAddress => "officeAddress"
    case Country => "country"
    case Industry => "industry"
    case SourceEvent => "sourceEvent"
    case FollowUpDate => "followUpDate"
    case FollowUp => "followUp"
    case Comment => "comment"
  }

  /** Distinct fields have distinct keys, so a key names one field. */
  lemma KeyInjective(f: Field, g: Field)
    requires Key(f) == Key(g)
    ensures f == g
  {
  }

  /** A request body: the value found under each key (unknown keys are dropped by Zod). */
  datatype Input = Input(
    name: Value, companyName: Value, jobTitle: Value, mobileNumber: Value,
    officePhone: Value, email: Value, website: Value, officeAddress: Value,
    country: Value, industry: Value, sourceEvent: Value, followUpDate: Value,
    followUp: Value, comment: Value)

  function Get(x: Input, f: Field): Value {
    match f
    case Name => x.name
    case CompanyName => x.companyName
    case JobTitle => x.jobTitle
    case MobileNumber => x.mobileNumber
    case OfficePhone => x.officePhone
    case Email => x.email
    case Website => x.website
    case OfficeAddress => x.officeAddress
    case Country => x.country
    case Industry => x.industry
    case SourceEvent => x.sourceEvent
    case FollowUpDate => x.followUpDate
    case FollowUp => x.followUp
    case Comment => x.comment
  }

  /** One entry of a Zod error: the field it is about and what went wrong. */
  datatype Issue = Issue(path: Field, kind: IssueKind)

  predicate TextWithin(v: Value, lo: nat, hi: nat) {
    v.Str? && lo <= |v.s| <= hi
  }

  /** A missing key or any string. */
  predicate OptionalText(v: Value) {
    v.Absent? || v.Str?
  }

  /** A missing key, the empty string, or a phone number. */
  predicate OptionalPhone(v: Value) {
    v.Absent? || (v.Str? && (v.s == "" || Phone.Matches(v.s)))
  }

  /** Each field's rule on the server. */
  predicate ServerFieldOk(fm: Formats, f: Field, v: Value) {
    match f
    case Name => TextWithin(v, 2, 50)
    case CompanyName => TextWithin(v, 2, 100)
    case JobTitle => TextWithin(v, 2, 100)
    case MobileNumber => v.Str? && Phone.Matches(v.s)
    case OfficePhone => OptionalPhone(v)
    case Email => v.Str? && fm.isEmail(v.s)
    case Website => OptionalText(v)
    case OfficeAddress => TextWithin(v, 10, 200)
    case Country => TextWithin(v, 2, 50)
    case Industry => TextWithin(v, 2, 50)
    case SourceEvent => TextWithin(v, 2, 100)
    case FollowUpDate => OptionalText(v)
    case FollowUp => v.Bool?
    case Comment => v.Absent? || TextWithin(v, 0, 500)
  }

  predicate ServerRules(fm: Formats, x: Input) {
    forall f :: ServerFieldOk(fm, f, Get(x, f))
  }

  /** `registrationSchema`, key by key. Each field's schema accepts exactly the
      values `ServerFieldOk` describes; for `mobileNumber` this uses that every phone
      match already has 4 characters, so `min(4)` adds nothing to the pattern. */
  function ServerShape(f: Field): (shape: Schema)
    ensures forall fm, v :: Accepts(fm, shape, v) <==> ServerFieldOk(fm, f, v)
  {
    var shape := match f
      case Name => StringOf([MinLength(2), MaxLength(50)])
      case CompanyName => StringOf([MinLength(2), MaxLength(100)])
      case JobTitle => StringOf([MinLength(2), MaxLength(100)])
      case MobileNumber => StringOf([MinLength(4), PhonePattern])
      case OfficePhone => Union(Optional(StringOf([PhonePattern])), Literal(""))
      case Email => StringOf([EmailFormat])
      case Website => Union(Optional(StringOf([])), Literal(""))
      case OfficeAddress => StringOf([MinLength(10), MaxLength(200)])
      case Country => StringOf([MinLength(2), MaxLength(50)])
      case Industry => StringOf([MinLength(2), MaxLength(50)])
      case SourceEvent => StringOf([MinLength(2), MaxLength(100)])
      case FollowUpDate => Union(Optional(StringOf([])), Literal(""))
      case FollowUp => BooleanType
      case Comment => Optional(StringOf([MaxLength(500)]));
    forall fm, v ensures Accepts(fm, shape, v) <==> ServerFieldOk(fm, f, v) {
      if f == Name || f == Country || f == Industry {
        TwoChecks(fm, MinLength(2), MaxLength(50), v);
      } else if f == CompanyName || f == JobTitle || f == SourceEvent {
        TwoChecks(fm, MinLength(2), MaxLength(100), v);
      } else if f == OfficeAddress {
        TwoChecks(fm, MinLength(10), MaxLength(200), v);
      } else if f == MobileNumber {
        TwoChecks(fm, MinLength(4), PhonePattern, v);
        if v.Str? && Phone.Matches(v.s) {
          Phone.MatchLength(v.s);
        }
      } else if f == OfficePhone {
        OneCheck(fm, PhonePattern, v);
      } else if f == Email {
        OneCheck(fm, EmailFormat, v);
      } else if f == Comment {
        OneCheck(fm, MaxLength(500), v);
      } else if f == Website || f == FollowUpDate {
        NoChecks(fm, v);
      }
    }
    shape
  }

  predicate HasIssueAt(issues: seq<Issue>, f: Field) {
    exists k :: 0 <= k < |issues| && issues[k].path == f
  }

  /** A field's own issues, each tagged with the field: the result is about that
      field alone, and about it exactly when there is an issue. */
  function Tagged(f: Field, kinds: seq<IssueKind>): (issues: seq<Issue>)
    ensures forall g :: HasIssueAt(issues, g) <==> g == f && kinds != []
  {
    var issues := seq(|kinds|, k requires 0 <= k < |kinds| => Issue(f, kinds[k]));
    assert kinds != [] ==> issues[0].path == f;
    issues
  }

  lemma {:induction false} IssueInConcat(a: seq<Issue>, b: seq<Issue>, g: Field)
    ensures HasIssueAt(a + b, g) <==> HasIssueAt(a, g) || HasIssueAt(b, g)
  {
    var all := a + b;
    if HasIssueAt(a, g) {
      var k :| 0 <= k < |a| && a[k].path == g;
      assert all[k] == a[k];
    }
    if HasIssueAt(b, g) {
      var k :| 0 <= k < |b| && b[k].path == g;
      assert all[|a| + k] == b[k];
    }
    if HasIssueAt(all, g) {
      var k :| 0 <= k < |all| && all[k].path == g;
      if k >= |a| {
        assert b[k - |a|] == all[k];
      }
    }
  }

  /** The issues of every listed field, tagged with the field, in list order. */
  function ObjectIssues(fm: Formats, shape: Field -> Schema, x: Input, fields: seq<Field>): (issues: seq<Issue>)
    ensures forall f :: HasIssueAt(issues, f) <==> f in fields && !Accepts(fm, shape(f), Get(x, f))
    ensures forall k :: 0 <= k < |issues| ==> issues[k].path in fields
  {
    if fields == [] then []
    else
      var f := fields[0];
      var here := Tagged(f, Parse(fm, shape(f), Get(x, f)).issues);
      var rest := ObjectIssues(fm, shape, x, fields[1..]);
      forall g ensures HasIssueAt(here + rest, g) <==> HasIssueAt(here, g) || HasIssueAt(rest, g)
                   ensures HasIssueAt(here, g) <==> g == f && !Accepts(fm, shape(f), Get(x, f))
      {
        IssueInConcat(here, rest, g);
      }
      here + rest
  }

  /** The issues Zod reports for a request body under an object shape. */
  function Validate(fm: Formats, shape: Field -> Schema, x: Input): (issues: seq<Issue>)
    ensures issues == [] <==> forall f :: Accepts(fm, shape(f), Get(x, f))
    ensures forall f :: HasIssueAt(issues, f) <==> !Accepts(fm, shape(f), Get(x, f))
  {
    var issues := ObjectIssues(fm, shape, x, Fields);
    assert forall f :: f in Fields by {
      forall f ensures f in Fields { EveryFieldListed(f); }
    }
    assert issues != [] ==> HasIssueAt(issues, issues[0].path);
    issues
  }

  /** The server's schema accepts a body iff every field keeps its rule: names and
      titles within their bounds, both phone rules, the email format, a boolean
      `followUp` and a comment of at most 500 characters; and it reports an issue
      for exactly the fields that break their rule. */
  lemma ValidateMeaning(fm: Formats, x: Input)
    ensures Validate(fm, ServerShape, x) == [] <==> ServerRules(fm, x)
    ensures forall f :: HasIssueAt(Validate(fm, ServerShape, x), f) <==> !ServerFieldOk(fm, f, Get(x, f))
  {
  }

  /** The typed record a successful parse produces; a missing optional key is `None`. */
  datatype Submission = Submission(
    name: string, companyName: string, jobTitle: string, mobileNumber: string,
    officePhone: Option<string>, email: string, website: Option<string>,
    officeAddress: string, country: string, industry: string, sourceEvent: string,
    followUpDate: Option<string>, followUp: bool, comment: Option<string>)

  function OptionalOf(v: Value): Option<string>
    requires v.Absent? || v.Str?
  {
    if v.Str? then Some(v.s) else None
  }

  function ValueOf(o: Option<string>): Value {
    if o.Some? then Str(o.value) else Absent
  }

  /** `data` is the typed reading of `x`: every field carries the same value. */
  predicate Reads(x: Input, data: Submission) {
    && x.name == Str(data.name)
    && x.companyName == Str(data.companyName)
    && x.jobTitle == Str(data.jobTitle)
    && x.mobileNumber == Str(data.mobileNumber)
    && x.officePhone == ValueOf(data.officePhone)
    && x.email == Str(data.email)
    && x.website == ValueOf(data.website)
    && x.officeAddress == Str(data.officeAddress)
    && x.country == Str(data.country)
    && x.industry == Str(data.industry)
    && x.sourceEvent == Str(data.sourceEvent)
    && x.followUpDate == ValueOf(data.followUpDate)
    && x.followUp == Bool(data.followUp)
    && x.comment == ValueOf(data.comment)
  }

  /** The JSON types a parsed body has: strings, optional strings and one boolean. */
  predicate WellTyped(x: Input) {
    && x.name.Str? && x.companyName.Str? && x.jobTitle.Str? && x.mobileNumber.Str?
    && OptionalText(x.officePhone) && x.email.Str? && OptionalText(x.website)
    && x.officeAddress.Str? && x.country.Str? && x.industry.Str? && x.sourceEvent.Str?
    && OptionalText(x.followUpDate) && x.followUp.Bool? && OptionalText(x.comment)
  }

  lemma RulesImplyWellTyped(fm: Formats, x: Input)
    requires ServerRules(fm, x)
    ensures WellTyped(x)
  {
    assert ServerFieldOk(fm, Name, Get(x, Name)) && ServerFieldOk(fm, CompanyName, Get(x, CompanyName));
    assert ServerFieldOk(fm, JobTitle, Get(x, JobTitle)) && ServerFieldOk(fm, MobileNumber, Get(x, MobileNumber));
    assert ServerFieldOk(fm, OfficePhone, Get(x, OfficePhone)) && ServerFieldOk(fm, Email, Get(x, Email));
    assert ServerFieldOk(fm, Website, Get(x, Website)) && ServerFieldOk(fm, OfficeAddress, Get(x, OfficeAddress));
    assert ServerFieldOk(fm, Country, Get(x, Country)) && ServerFieldOk(fm, Industry, Get(x, Industry));
    assert ServerFieldOk(fm, SourceEvent, Get(x, SourceEvent)) && ServerFieldOk(fm, FollowUpDate, Get(x, FollowUpDate));
    assert ServerFieldOk(fm, FollowUp, Get(x, FollowUp)) && ServerFieldOk(fm, Comment, Get(x, Comment));
  }

  /** The typed reading of a well-typed body. */
  function Typed(x: Input): (data: Submission)
    requires WellTyped(x)
    ensures Reads(x, data)
  {
    Submission(
      x.name.s, x.companyName.s, x.jobTitle.s, x.mobileNumber.s,
      OptionalOf(x.officePhone), x.email.s, OptionalOf(x.website),
      x.officeAddress.s, x.country.s, x.industry.s, x.sourceEvent.s,
      OptionalOf(x.followUpDate), x.followUp.b, OptionalOf(x.comment))
  }

  datatype Validated = Accepted(data: Submission) | Rejected(issues: seq<Issue>)

  /** `registrationSchema.parse(body)`: the typed record, or the Zod error's issues. */
  function ParseRegistration(fm: Formats, x: Input): (r: Validated)
    ensures r.Accepted? <==> ServerRules(fm, x)
    ensures r.Accepted? ==> Reads(x, r.data)
    ensures r.Rejected? ==> r.issues != []
    ensures r.Rejected? ==> forall f :: HasIssueAt(r.issues, f) <==> !ServerFieldOk(fm, f, Get(x, f))
  {
    var issues := Validate(fm, ServerShape, x);
    ValidateMeaning(fm, x);
    if issues == [] then
      RulesImplyWellTyped(fm, x);
      Accepted(Typed(x))
    else
      Rejected(issues)
  }

  /** A body whose single offending field is a too-short `officeAddress` is rejected
      with an issue on that field and no other. */
  lemma ShortAddressRejected(fm: Formats, x: Input, y: Input)
    requires ServerRules(fm, x)
    requires y == x.(officeAddress := Str("short"))
    ensures ParseRegistration(fm, y).Rejected?
    ensures HasIssueAt(ParseRegistration(fm, y).issues, OfficeAddress)
    ensures forall f :: f != OfficeAddress ==> !HasIssueAt(ParseRegistration(fm, y).issues, f)
  {
    assert !ServerFieldOk(fm, OfficeAddress, Get(y, OfficeAddress));
    forall f | f != OfficeAddress ensures ServerFieldOk(fm, f, Get(y, f)) {
      assert Get(y, f) == Get(x, f);
    }
  }
}
