/**
 The registration form of app/page.tsx: its own copy of the schema (`formSchema`,
 lines 24-81), the values a fresh form starts with (lines 88-103), and what
 `onSubmit` (lines 106-155) does with the server's answer: which form fields get
 an error message, whether the form is reset, and which toast is shown.
 */
module Client {
  import opened Js
  import opened Zod
  import opened Registration
  import Phone
  import Endpoint
  import Store

  /** `formSchema`, key by key. The custom message texts are not modelled. Apart
      from `website`, every field has exactly the server's schema; field by field, the
      form accepts a value iff the server does and, for `website`, the value also
      passes the form's own rule. */
  function ClientShape(f: Field): (shape: Schema)
    ensures f != Website ==> shape == ServerShape(f)
    ensures forall fm, v :: Accepts(fm, shape, v) <==> Accepts(fm, ServerShape(f), v) && (f == Website ==> WebsiteOk(fm, v))
  {
    var shape := match f
      case Name => StringOf([MinLength(2), MaxLength(50)])
      case CompanyName => StringOf([MinLength(2), MaxLength(100)])
      case JobTitle => StringOf([MinLength(2), MaxLength(100)])
      case MobileNumber => StringOf([MinLength(4), PhonePattern])
      case OfficePhone => Union(Optional(StringOf([PhonePattern])), Literal(""))
      case Email => StringOf([EmailFormat])
      case Website => Union(Optional(Refine(StringOf([]), WebsiteRule)), Literal(""))
      case OfficeAddress => StringOf([MinLength(10), MaxLength(200)])
      case Country => StringOf([MinLength(2), MaxLength(50)])
      case Industry => StringOf([MinLength(2), MaxLength(50)])
      case SourceEvent => StringOf([MinLength(2), MaxLength(100)])
      case FollowUpDate => Union(Optional(StringOf([])), Literal(""))
      case FollowUp => BooleanType
      case Comment => Optional(StringOf([MaxLength(500)]));
    forall fm, v | f == Website
      ensures Accepts(fm, shape, v) <==> Accepts(fm, ServerShape(f), v) && WebsiteOk(fm, v)
    {
      NoChecks(fm, v);
      assert Accepts(fm, Refine(StringOf([]), WebsiteRule), v) <==> v.Str? && RuleHolds(fm, WebsiteRule, v);
    }
    shape
  }

  predicate ClientAccepts(fm: Formats, x: Input) {
    Validate(fm, ClientShape, x) == []
  }

  predicate ServerAccepts(fm: Formats, x: Input) {
    Validate(fm, ServerShape, x) == []
  }

  /** The client's website rule: missing, "", the "https://" placeholder, or a URL. */
  predicate WebsiteOk(fm: Formats, v: Value) {
    v.Absent? || (v.Str? && (v.s == "" || v.s == "https://" || fm.isUrl(v.s)))
  }

  /** The form's website field accepts a missing value, "", the placeholder or a URL. */
  lemma ClientWebsiteMeaning(fm: Formats, v: Value)
    ensures Accepts(fm, ClientShape(Website), v) <==> WebsiteOk(fm, v)
  {
  }

  /** The form accepts a record iff the server does and its website passes the
      client's extra rule; in particular the form is never more lenient. */
  lemma {:induction false} ClientIsServerPlusWebsite(fm: Formats, x: Input)
    ensures ClientAccepts(fm, x) <==> ServerAccepts(fm, x) && WebsiteOk(fm, x.website)
    ensures ClientAccepts(fm, x) ==> ServerAccepts(fm, x)
  {
    var client := Validate(fm, ClientShape, x);
    var server := Validate(fm, ServerShape, x);
    if client == [] {
      assert Accepts(fm, ClientShape(Website), Get(x, Website));
    }
    if server == [] && WebsiteOk(fm, x.website) {
      assert WebsiteOk(fm, Get(x, Website));
    }
  }

  /** The server takes any website string; the form refuses one that is neither "",
      the placeholder nor a URL, so the form is strictly stronger on that field. */
  lemma {:induction false} WebsiteStrictlyStronger(fm: Formats, x: Input)
    requires ServerRules(fm, x)
    requires x.website.Str? && x.website.s != "" && x.website.s != "https://" && !fm.isUrl(x.website.s)
    ensures ServerAccepts(fm, x)
    ensures !ClientAccepts(fm, x)
  {
    ValidateMeaning(fm, x);
    ClientIsServerPlusWebsite(fm, x);
  }

  /** `defaultValues`. */
  const Defaults: Input := Input(
    name := Str(""), companyName := Str(""), jobTitle := Str(""),
    mobileNumber := Str("+251"), officePhone := Str("+251"), email := Str(""),
    website := Str("https://"), officeAddress := Str(""), country := Str("Ethiopia"),
    industry := Str(""), sourceEvent := Str(""), followUpDate := Str(""),
    followUp := Bool(false), comment := Str(""))

  /** A phone field left at its default "+251" blocks the form, and the server would
      refuse it too. */
  lemma {:induction false} UntouchedPhoneBlocks(fm: Formats, x: Input)
    requires x.mobileNumber == Str("+251") || x.officePhone == Str("+251")
    ensures !ClientAccepts(fm, x)
    ensures !ServerAccepts(fm, x)
  {
    Phone.DefaultPrefixIsNotAPhone();
    ValidateMeaning(fm, x);
    ClientIsServerPlusWebsite(fm, x);
    if x.mobileNumber == Str("+251") {
      assert !ServerFieldOk(fm, MobileNumber, Get(x, MobileNumber));
    } else {
      assert !ServerFieldOk(fm, OfficePhone, Get(x, OfficePhone));
    }
  }

  /** An untouched form is refused with an issue on exactly these fields: the empty
      required texts, both "+251" phones, and the empty email if the library's email
      check refuses "". The default country, website placeholder, empty date, empty
      comment and unchecked follow-up all pass. */
  lemma {:induction false} DefaultsIssues(fm: Formats, f: Field)
    ensures HasIssueAt(Validate(fm, ClientShape, Defaults), f) <==>
      || f in {Name, CompanyName, JobTitle, MobileNumber, OfficePhone, OfficeAddress, Industry, SourceEvent}
      || (f == Email && !fm.isEmail(""))
  {
    Phone.DefaultPrefixIsNotAPhone();
    assert Accepts(fm, ClientShape(f), Get(Defaults, f)) <==> ServerFieldOk(fm, f, Get(Defaults, f)) && (f == Website ==> WebsiteOk(fm, Get(Defaults, f)));
  }

  /** One entry of the body's `details`, as the form reads it: `path[0]` and `message`. */
  datatype Detail = Detail(key: string, message: string)

  /** The parts of a response the form reads: `response.ok`, and the JSON body's
      `error` and `details`. `Unreadable` is a request or body that fails to arrive
      or to parse, carrying the thrown error's message. */
  datatype Reply =
    | Answer(ok: bool, error: Option<string>, details: Option<seq<Detail>>)
    | Unreadable(reason: string)

  predicate IsOk(status: int) {
    200 <= status <= 299
  }

  /** `k` is the property name of one of the fourteen fields. */
  predicate IsFieldKey(k: string) {
    exists f :: Key(f) == k
  }

  /** The server's Zod issues as `details`, one per issue; `describe` gives the
      library's message text. A detail names a field iff an issue is about that
      field, and every detail names one of the fourteen fields. */
  function Details(describe: IssueKind -> string, issues: seq<Issue>): (ds: seq<Detail>)
    ensures |ds| == |issues|
    ensures forall f :: (exists i :: 0 <= i < |ds| && ds[i].key == Key(f)) <==> HasIssueAt(issues, f)
    ensures forall i :: 0 <= i < |ds| ==> IsFieldKey(ds[i].key)
  {
    var ds := seq(|issues|, i requires 0 <= i < |issues| => Detail(Key(issues[i].path), describe(issues[i].kind)));
    forall f ensures (exists i :: 0 <= i < |ds| && ds[i].key == Key(f)) <==> HasIssueAt(issues, f) {
      if HasIssueAt(issues, f) {
        var i :| 0 <= i < |issues| && issues[i].path == f;
        assert ds[i].key == Key(f);
      }
      if exists i :: 0 <= i < |ds| && ds[i].key == Key(f) {
        var i :| 0 <= i < |ds| && ds[i].key == Key(f);
        KeyInjective(issues[i].path, f);
      }
    }
    assert forall i :: 0 <= i < |ds| ==> Key(issues[i].path) == ds[i].key;
    ds
  }

  const DuplicateError: string := "Email already registered"
  const DuplicateFieldMessage: string := "This email is already registered"

  /** How a server response reaches the form. Only a 2xx is ok; every failure
      carries a non-empty `error`, so the form's "Registration failed" fallback is
      never shown for this server; only a validation failure carries `details`. */
  function ToReply(describe: IssueKind -> string, resp: Endpoint.Response): (r: Reply)
    ensures r.Answer?
    ensures r.ok <==> resp.Created? || resp.Rows?
    ensures !r.ok ==> r.error.Some? && r.error.value != ""
    ensures r.error == Some(DuplicateError) <==> resp == Endpoint.EmailTaken
    ensures r.details.Some? <==> resp.ValidationFailed?
    ensures resp.ValidationFailed? ==> r.details == Some(Details(describe, resp.issues))
  {
    var ok := IsOk(Endpoint.Status(resp));
    match resp
    case Created(_) => Answer(ok, None, None)
    case ValidationFailed(issues) => Answer(ok, Some("Validation failed"), Some(Details(describe, issues)))
    case EmailTaken => Answer(ok, Some(DuplicateError), None)
    case ServerError => Answer(ok, Some("Internal server error"), None)
    case Rows(_) => Answer(ok, None, None)
  }

  /** The message of the last detail for `key`, if any. */
  function LastMessage(ds: seq<Detail>, key: string): Option<string> {
    if ds == [] then None
    else if ds[|ds| - 1].key == key then Some(ds[|ds| - 1].message)
    else LastMessage(ds[..|ds| - 1], key)
  }

  /** The last message for `key` read from the front: a later detail wins over the first. */
  function FrontSplit(ds: seq<Detail>, key: string): Option<string>
    requires ds != []
  {
    if LastMessage(ds[1..], key).Some? then LastMessage(ds[1..], key)
    else if ds[0].key == key then Some(ds[0].message)
    else None
  }

  lemma {:induction false} LastMessageFront(ds: seq<Detail>, key: string)
    requires ds != []
    ensures LastMessage(ds, key) == FrontSplit(ds, key)
    decreases |ds|
  {
    if |ds| > 1 {
      var init := ds[..|ds| - 1];
      assert ds[1..][..|ds[1..]| - 1] == init[1..];
      assert ds[1..][|ds[1..]| - 1] == ds[|ds| - 1];
      assert init[0] == ds[0];
      LastMessageFront(init, key);
    }
  }

  /** `details.forEach(error => form.setError(error.path[0], { message }))`: each
      detail sets its key, later ones overwriting earlier ones. The keys set are those
      set before and those some detail names; a named key holds its last detail's
      message. */
  function SetErrors(errors: map<string, string>, ds: seq<Detail>): (r: map<string, string>)
    ensures forall k :: k in r <==> k in errors || LastMessage(ds, k).Some?
    ensures forall k :: k in r <==> k in errors || exists i :: 0 <= i < |ds| && ds[i].key == k
    ensures forall k :: k in r ==> r[k] == (if LastMessage(ds, k).Some? then LastMessage(ds, k).value else errors[k])
    decreases |ds|
  {
    forall k ensures LastMessage(ds, k).Some? <==> exists i :: 0 <= i < |ds| && ds[i].key == k {
      LastMessageFound(ds, k);
    }
    if ds == [] then errors
    else
      var r := SetErrors(errors[ds[0].key := ds[0].message], ds[1..]);
      forall k ensures LastMessage(ds, k) == FrontSplit(ds, k) {
        LastMessageFront(ds, k);
      }
      r
  }

  datatype Toast = Toast(success: bool, title: string, description: string)

  /** The form after `onSubmit`: its values, its field errors, and the toast shown. */
  datatype Submitted = Submitted(values: Input, errors: map<string, string>, toast: Toast)

  /** `onSubmit`, entered with the submitted values and no field errors (the form only
      submits after its own validation passed).
      - A 2xx answer resets the form to its defaults, with no field error and the
        success toast.
      - "Email already registered" marks the email field alone, keeps the values and
        shows the duplicate toast, without throwing.
      - Any other failure keeps the values, marks exactly the keys the details name,
        each with its last message, and shows the thrown `error`, or "Registration
        failed" when there is none.
      - A response that cannot be read keeps the values and shows the thrown error. */
  function OnSubmit(values: Input, reply: Reply): (s: Submitted)
    ensures reply.Unreadable? ==>
      s.values == values && s.errors == map[] && !s.toast.success && s.toast.description == reply.reason
    ensures reply.Answer? && reply.ok ==>
      s.values == Defaults && s.errors == map[] && s.toast.success
    ensures reply.Answer? && !reply.ok ==> s.values == values && !s.toast.success
    ensures reply.Answer? && !reply.ok && reply.error == Some(DuplicateError) ==>
      s.errors == map[Key(Email) := DuplicateFieldMessage] && s.toast.title == DuplicateError
    ensures reply.Answer? && !reply.ok && reply.error != Some(DuplicateError) ==>
      && (forall k :: k in s.errors <==> reply.details.Some? && exists i :: 0 <= i < |reply.details.value| && reply.details.value[i].key == k)
      && (forall k :: k in s.errors ==> Some(s.errors[k]) == LastMessage(reply.details.value, k))
      && s.toast.title == "Something went wrong"
      && s.toast.description == (if reply.error.Some? && reply.error.value != "" then reply.error.value else "Registration failed")
  {
    match reply
    case Unreadable(reason) =>
      Submitted(values, map[], Toast(false, "Something went wrong", reason))
    case Answer(ok, error, details) =>
      if !ok then
        if error == Some(DuplicateError) then
          Submitted(values, map[Key(Email) := DuplicateFieldMessage],
                    Toast(false, DuplicateError, "Please use a different email address."))
        else
          var errors := if details.Some? then SetErrors(map[], details.value) else map[];
          var thrown := if error.Some? && error.value != "" then error.value else "Registration failed";
          Submitted(values, errors, Toast(false, "Something went wrong", thrown))
      else
        Submitted(Defaults, map[],
                  Toast(true, "Registration successful!", "Thank you for registering. We'll be in touch soon."))
  }

  /** A key has a last message iff some detail names it. */
  lemma {:induction false} LastMessageFound(ds: seq<Detail>, key: string)
    ensures LastMessage(ds, key).Some? <==> exists i :: 0 <= i < |ds| && ds[i].key == key
    decreases |ds|
  {
    if ds != [] {
      var init := ds[..|ds| - 1];
      LastMessageFound(init, key);
      if exists i :: 0 <= i < |init| && init[i].key == key {
        var i :| 0 <= i < |init| && init[i].key == key;
        assert ds[i] == init[i];
      }
      if exists i :: 0 <= i < |ds| && ds[i].key == key {
        var i :| 0 <= i < |ds| && ds[i].key == key;
        if i < |init| {
          assert init[i] == ds[i];
        }
      }
    }
  }

  /** A refused body reaches the form as a failed reply carrying the issues as details. */
  lemma RejectionReply(fm: Formats, describe: IssueKind -> string, t: Store.Table, x: Input, db: Endpoint.Db)
    requires !ServerRules(fm, x)
    ensures ToReply(describe, Endpoint.Post(fm, t, Some(x), db).response)
      == Answer(false, Some("Validation failed"), Some(Details(describe, ParseRegistration(fm, x).issues)))
  {
  }

  /** End to end: a body the server refuses comes back to the form with an error on
      exactly the fields that break the server's rules. */
  lemma {:induction false} ServerRejectionMarksFailingFields(
    fm: Formats, describe: IssueKind -> string, t: Store.Table, x: Input, db: Endpoint.Db, values: Input)
    requires !ServerRules(fm, x)
    ensures var s := OnSubmit(values, ToReply(describe, Endpoint.Post(fm, t, Some(x), db).response));
      && (forall f :: Key(f) in s.errors <==> !ServerFieldOk(fm, f, Get(x, f)))
      && (forall k :: k in s.errors ==> IsFieldKey(k))
  {
    var issues := ParseRegistration(fm, x).issues;
    var ds := Details(describe, issues);
    var s := OnSubmit(values, ToReply(describe, Endpoint.Post(fm, t, Some(x), db).response));
    RejectionReply(fm, describe, t, x, db);
    assert s == OnSubmit(values, Answer(false, Some("Validation failed"), Some(ds)));
    forall f ensures Key(f) in s.errors <==> !ServerFieldOk(fm, f, Get(x, f)) {
      assert Key(f) in s.errors <==> exists i :: 0 <= i < |ds| && ds[i].key == Key(f);
      assert HasIssueAt(issues, f) <==> !ServerFieldOk(fm, f, Get(x, f));
    }
    forall k | k in s.errors ensures IsFieldKey(k) {
      var i :| 0 <= i < |ds| && ds[i].key == k;
    }
  }

  /** End to end: a duplicate email comes back as an error on the email field alone. */
  lemma DuplicateReachesEmailField(
    fm: Formats, describe: IssueKind -> string, t: Store.Table, x: Input, db: Endpoint.Db, values: Input)
    requires Endpoint.Post(fm, t, Some(x), db).response == Endpoint.EmailTaken
    ensures OnSubmit(values, ToReply(describe, Endpoint.Post(fm, t, Some(x), db).response)).errors
      == map[Key(Email) := DuplicateFieldMessage]
  {
  }

  /** End to end: a created registration resets the form. */
  lemma CreatedResetsForm(
    fm: Formats, describe: IssueKind -> string, t: Store.Table, x: Input, db: Endpoint.Db, values: Input)
    requires Endpoint.Post(fm, t, Some(x), db).response.Created?
    ensures OnSubmit(values, ToReply(describe, Endpoint.Post(fm, t, Some(x), db).response)).values == Defaults
    ensures OnSubmit(values, ToReply(describe, Endpoint.Post(fm, t, Some(x), db).response)).errors == map[]
  {
  }
}
