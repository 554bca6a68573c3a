/**
 The phone pattern shared by the server and the client form:
 `^[\+]?[1-9][\d\s\-\(\)]{3,15}$` (route.ts lines 9-10, page.tsx lines 40 and 43).

 `Matches` is the deterministic check used by the schemas; `InLanguage` is the
 language of the regular expression read as a concatenation of its three parts.
 The contract of `Matches` says that the two agree.
 */
module Phone {
  import opened Js

  const MinBody: nat := 3
  const MaxBody: nat := 15

  /** `[1-9]` */
  predicate IsLeadDigit(c: char) {
    '1' <= c <= '9'
  }

  /** `[\d\s\-\(\)]` */
  predicate IsBodyChar(c: char) {
    IsDigit(c) || IsSpace(c) || c == '-' || c == '(' || c == ')'
  }

  predicate AllBody(t: string) {
    forall i :: 0 <= i < |t| ==> IsBodyChar(t[i])
  }

  /** Language of `[\+]?` */
  predicate SignPart(t: string) {
    t == "" || t == "+"
  }

  /** Language of `[1-9]` */
  predicate LeadPart(t: string) {
    |t| == 1 && IsLeadDigit(t[0])
  }

  /** Language of `[\d\s\-\(\)]{3,15}` */
  predicate BodyPart(t: string) {
    MinBody <= |t| <= MaxBody && AllBody(t)
  }

  /** The anchored pattern accepts `s` iff `s` splits into the three parts. */
  predicate InLanguage(s: string) {
    exists i, j :: 0 <= i <= j <= |s| && SignPart(s[..i]) && LeadPart(s[i..j]) && BodyPart(s[j..])
  }

  /** Where the digit 1-9 must sit: after a leading `+`, or at the start. */
  function LeadIndex(s: string): nat {
    if |s| > 0 && s[0] == '+' then 1 else 0
  }

  /** The check a regular-expression engine performs for this pattern: take the
      `+` if there is one, then one digit 1-9, then the body. It accepts exactly the
      language of the pattern, because a leading `+` can only be taken by the
      optional part (the second part accepts digits 1-9 only). */
  function Matches(s: string): (r: bool)
    ensures r <==> InLanguage(s)
  {
    var k := LeadIndex(s);
    var r := k < |s| && IsLeadDigit(s[k]) && BodyPart(s[k + 1..]);
    assert r ==> InLanguage(s) by {
      if r {
        assert s[..k] == (if k == 1 then "+" else "");
        assert s[k..k + 1] == [s[k]];
        assert SignPart(s[..k]) && LeadPart(s[k..k + 1]) && BodyPart(s[k + 1..]);
      }
    }
    assert InLanguage(s) ==> r by {
      if InLanguage(s) {
        var i, j :| 0 <= i <= j <= |s| && SignPart(s[..i]) && LeadPart(s[i..j]) && BodyPart(s[j..]);
        assert j == i + 1;
        assert s[i] == s[i..j][0];
        if i == 1 {
          assert s[0] == s[..i][0];
        } else {
          assert s[0] != '+';
        }
      }
    }
    r
  }

  /** Every accepted number has between 4 and 17 characters, so the separate
      `min(4)` on `mobileNumber` never rejects a string the pattern accepts. */
  lemma MatchLength(s: string)
    requires Matches(s)
    ensures 4 <= |s| <= 17
  {
  }

  /** The empty string is not a phone number: an optional phone field accepts ""
      only through its separate literal alternative. */
  lemma EmptyIsNotAPhone()
    ensures !Matches("")
    ensures !InLanguage("")
  {
  }

  /** The form's default "+251" has two characters after its lead digit, one short of three. */
  lemma DefaultPrefixIsNotAPhone()
    ensures !Matches("+251")
    ensures !InLanguage("+251")
  {
  }

  /** Spaces, dashes and parentheses may follow the lead digit, but not precede it. */
  lemma ExampleNumberMatches()
    ensures Matches("+251 911-234567")
    ensures !InLanguage("(555) 0100")
  {
    assert !Matches("(555) 0100") by {
      assert "(555) 0100"[0] == '(';
    }
  }
}
