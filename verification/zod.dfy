/**
 The part of the Zod schema library the registration schemas use: strings with
 length, pattern and format checks, booleans, literals, `.optional()`, `.or(...)`
 and `.refine(...)`, evaluated with Zod 3's parse statuses.

 A string check that fails leaves the result "dirty" (the value is kept and the
 remaining checks still run); a wrong type, or a literal that does not match,
 "aborts". A union returns its first valid branch, otherwise the issues of its
 first dirty branch, otherwise a single `invalid_union` issue. A refinement runs on
 any value its base did not abort on.

 The email and URL format checks are library internals and stay uninterpreted:
 they are fields of `Formats`, which every caller passes in.
 */
module Zod {
  import opened Js
  import Phone

  /** The library's own email and URL recognisers. */
  datatype Formats = Formats(isEmail: string -> bool, isUrl: string -> bool)

  /** Checks on a string value, in the order they are chained. */
  datatype Check =
    | MinLength(min: nat)          // .min(n)
    | MaxLength(max: nat)          // .max(n)
    | PhonePattern                 // .regex(/^[\+]?[1-9][\d\s\-\(\)]{3,15}$/)
    | EmailFormat                  // .email()

  /** Predicates given to `.refine(...)`. */
  datatype Refinement =
    | WebsiteRule                  // val === "" || val === "https://" || url(val)

  datatype Schema =
    | StringOf(checks: seq<Check>) // z.string() followed by checks
    | BooleanType                  // z.boolean()
    | Literal(text: string)        // z.literal(text)
    | Optional(inner: Schema)      // inner.optional()
    | Union(left: Schema, right: Schema)  // left.or(right)
    | Refine(base: Schema, rule: Refinement)  // base.refine(rule)

  datatype Validation = RegexValidation | EmailValidation

  datatype IssueKind =
    | InvalidType
    | TooSmall(minimum: nat)
    | TooBig(maximum: nat)
    | InvalidString(validation: Validation)
    | InvalidLiteral
    | InvalidUnion
    | Custom

  datatype Status = Valid | Dirty | Aborted

  datatype Parsed = Parsed(status: Status, issues: seq<IssueKind>)

  predicate Holds(fm: Formats, c: Check, s: string) {
    match c
    case MinLength(n) => |s| >= n
    case MaxLength(n) => |s| <= n
    case PhonePattern => Phone.Matches(s)
    case EmailFormat => fm.isEmail(s)
  }

  function IssueOf(c: Check): IssueKind {
    match c
    case MinLength(n) => TooSmall(n)
    case MaxLength(n) => TooBig(n)
    case PhonePattern => InvalidString(RegexValidation)
    case EmailFormat => InvalidString(EmailValidation)
  }

  predicate RuleHolds(fm: Formats, rule: Refinement, v: Value) {
    match rule
    case WebsiteRule => v.Str? && (v.s == "" || v.s == "https://" || fm.isUrl(v.s))
  }

  /** What a schema accepts, stated without statuses or issues. */
  predicate Accepts(fm: Formats, schema: Schema, v: Value) {
    match schema
    case StringOf(checks) => v.Str? && forall i :: 0 <= i < |checks| ==> Holds(fm, checks[i], v.s)
    case BooleanType => v.Bool?
    case Literal(text) => v == Str(text)
    case Optional(inner) => v.Absent? || Accepts(fm, inner, v)
    case Union(left, right) => Accepts(fm, left, v) || Accepts(fm, right, v)
    case Refine(base, rule) => Accepts(fm, base, v) && RuleHolds(fm, rule, v)
  }

  /** Every issue names a failing check of the chain. */
  predicate OnlyFailing(fm: Formats, checks: seq<Check>, s: string, issues: seq<IssueKind>) {
    forall k :: 0 <= k < |issues| ==> exists i :: 0 <= i < |checks| && !Holds(fm, checks[i], s) && issues[k] == IssueOf(checks[i])
  }

  /** Every failing check of the chain is reported. */
  predicate AllReported(fm: Formats, checks: seq<Check>, s: string, issues: seq<IssueKind>) {
    forall i :: 0 <= i < |checks| && !Holds(fm, checks[i], s) ==> IssueOf(checks[i]) in issues
  }

  /** How many checks of a chain fail, counted from its end. */
  function FailureCount(fm: Formats, checks: seq<Check>, s: string): nat {
    if checks == [] then 0
    else FailureCount(fm, checks[..|checks| - 1], s) + (if Holds(fm, checks[|checks| - 1], s) then 0 else 1)
  }

  lemma {:induction false} FailureCountFront(fm: Formats, checks: seq<Check>, s: string)
    requires checks != []
    ensures FailureCount(fm, checks, s) == (if Holds(fm, checks[0], s) then 0 else 1) + FailureCount(fm, checks[1..], s)
    decreases |checks|
  {
    if |checks| > 1 {
      var init := checks[..|checks| - 1];
      FailureCountFront(fm, init, s);
      assert init[1..] == checks[1..][..|checks[1..]| - 1];
      assert checks[1..][|checks[1..]| - 1] == checks[|checks| - 1];
      assert init[0] == checks[0];
    } else {
      assert checks[..0] == [] && checks[1..] == [];
    }
  }

  /** Runs every check of a string, one issue per failing check, in chain order:
      no issue iff every check holds, exactly as many issues as failing checks,
      every failing check reported, and nothing reported that does not fail. */
  function StringIssues(fm: Formats, checks: seq<Check>, s: string): (issues: seq<IssueKind>)
    ensures issues == [] <==> forall i :: 0 <= i < |checks| ==> Holds(fm, checks[i], s)
    ensures |issues| == FailureCount(fm, checks, s) <= |checks|
    ensures OnlyFailing(fm, checks, s, issues)
    ensures AllReported(fm, checks, s, issues)
  {
    if checks == [] then []
    else
      var rest := StringIssues(fm, checks[1..], s);
      var here := if Holds(fm, checks[0], s) then [] else [IssueOf(checks[0])];
      ChainStep(fm, checks, s, here, rest);
      FailureCountFront(fm, checks, s);
      here + rest
  }

  /** One step of the chain: the first check's issue, if any, before the rest's. */
  lemma {:induction false} ChainStep(fm: Formats, checks: seq<Check>, s: string, here: seq<IssueKind>, rest: seq<IssueKind>)
    requires checks != []
    requires here == if Holds(fm, checks[0], s) then [] else [IssueOf(checks[0])]
    requires rest == [] <==> forall i :: 0 <= i < |checks[1..]| ==> Holds(fm, checks[1..][i], s)
    requires OnlyFailing(fm, checks[1..], s, rest) && AllReported(fm, checks[1..], s, rest)
    ensures here + rest == [] <==> forall i :: 0 <= i < |checks| ==> Holds(fm, checks[i], s)
    ensures OnlyFailing(fm, checks, s, here + rest) && AllReported(fm, checks, s, here + rest)
  {
    var all := here + rest;
    assert forall i :: 0 < i < |checks| ==> checks[i] == checks[1..][i - 1];
    forall k | 0 <= k < |all|
      ensures exists i :: 0 <= i < |checks| && !Holds(fm, checks[i], s) && all[k] == IssueOf(checks[i])
    {
      if k >= |here| {
        var i :| 0 <= i < |checks[1..]| && !Holds(fm, checks[1..][i], s) && rest[k - |here|] == IssueOf(checks[1..][i]);
        assert checks[1..][i] == checks[i + 1];
      } else {
        assert all[k] == IssueOf(checks[0]);
      }
    }
    forall i | 0 <= i < |checks| && !Holds(fm, checks[i], s) ensures IssueOf(checks[i]) in all {
      if i > 0 {
        assert IssueOf(checks[1..][i - 1]) in rest;
      }
    }
  }

  /** Zod's parse of one value: its status and the issues it reports. A value is
      accepted exactly when the status is valid, and then no issue is reported. */
  function Parse(fm: Formats, schema: Schema, v: Value): (p: Parsed)
    ensures p.status == Valid <==> p.issues == []
    ensures p.status == Valid <==> Accepts(fm, schema, v)
  {
    match schema
    case StringOf(checks) =>
      if v.Str? then
        var issues := StringIssues(fm, checks, v.s);
        Parsed(if issues == [] then Valid else Dirty, issues)
      else Parsed(Aborted, [InvalidType])
    case BooleanType =>
      if v.Bool? then Parsed(Valid, []) else Parsed(Aborted, [InvalidType])
    case Literal(text) =>
      if v == Str(text) then Parsed(Valid, []) else Parsed(Aborted, [InvalidLiteral])
    case Optional(inner) =>
      if v.Absent? then Parsed(Valid, []) else Parse(fm, inner, v)
    case Union(left, right) =>
      var l := Parse(fm, left, v);
      var r := Parse(fm, right, v);
      if l.status == Valid then l
      else if r.status == Valid then r
      else if l.status == Dirty then l
      else if r.status == Dirty then r
      else Parsed(Aborted, [InvalidUnion])
    case Refine(base, rule) =>
      var b := Parse(fm, base, v);
      if b.status == Aborted then b
      else if RuleHolds(fm, rule, v) then b
      else Parsed(Dirty, b.issues + [Custom])
  }

  lemma NoChecks(fm: Formats, v: Value)
    ensures Accepts(fm, StringOf([]), v) <==> v.Str?
  {
  }

  lemma OneCheck(fm: Formats, a: Check, v: Value)
    ensures Accepts(fm, StringOf([a]), v) <==> v.Str? && Holds(fm, a, v.s)
  {
    assert [a][0] == a;
  }

  lemma TwoChecks(fm: Formats, a: Check, b: Check, v: Value)
    ensures Accepts(fm, StringOf([a, b]), v) <==> v.Str? && Holds(fm, a, v.s) && Holds(fm, b, v.s)
  {
    assert [a, b][0] == a && [a, b][1] == b;
  }
}
