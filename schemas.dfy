/**
 * The delivery-information schema filled in at checkout: per-field length
 * checks, the zip-code pattern `^\d{5}(?:[-\s]\d{4})?$`, and the list of
 * issues a failed parse reports, one per failed check, in field order.
 */
module Schemas {
  import opened Wrappers

  datatype DeliveryInfo = DeliveryInfo(
    name: string,
    email: string,
    addressLine1: string,
    addressLine2: Option<string>,
    city: string,
    state: string,
    zipCode: string,
    country: string)

  // ---------------------------------------------------------------------------
  // The zip-code pattern
  // ---------------------------------------------------------------------------

  /** `\d` of a JavaScript regular expression without the `u` flag. */
  predicate IsAsciiDigit(c: char)
  {
    '0' <= c <= '9'
  }

  /** `\s` of a JavaScript regular expression: the ECMAScript white space and line terminators. */
  predicate IsRegexSpace(c: char)
  {
    c == '\t' || c == '\n' || c == '\U{000B}' || c == '\U{000C}' || c == '\r' || c == ' '
    || c == '\U{00A0}' || c == '\U{1680}' || ('\U{2000}' <= c <= '\U{200A}')
    || c == '\U{2028}' || c == '\U{2029}' || c == '\U{202F}' || c == '\U{205F}'
    || c == '\U{3000}' || c == '\U{FEFF}'
  }

  /** The character class `[-\s]` between the two digit groups. */
  predicate IsZipSeparator(c: char)
  {
    c == '-' || IsRegexSpace(c)
  }

  predicate AllAsciiDigits(s: string)
  {
    forall i :: 0 <= i < |s| ==> IsAsciiDigit(s[i])
  }

  /** What the pattern describes: five digits, optionally a separator and four more digits. */
  predicate ZipShape(zip: string)
  {
    || (|zip| == 5 && AllAsciiDigits(zip))
    || (|zip| == 10 && AllAsciiDigits(zip[..5]) && IsZipSeparator(zip[5]) && AllAsciiDigits(zip[6..]))
  }

  /**
   * One step of the matcher for the pattern. States 0 to 4 expect the first
   * five digits, state 5 has read them and accepts, 6 to 9 expect the last four
   * digits, 10 accepts, and -1 rejects whatever follows.
   */
  function ZipStep(state: int, c: char): int
  {
    if 0 <= state < 5 || 6 <= state < 10 then (if IsAsciiDigit(c) then state + 1 else -1)
    else if state == 5 then (if IsZipSeparator(c) then 6 else -1)
    else -1
  }

  function ZipRun(state: int, s: string): int
    decreases |s|
  {
    if s == [] then state else ZipRun(ZipStep(state, s[0]), s[1..])
  }

  predicate Accepts(state: int, s: string)
  {
    var q := ZipRun(state, s);
    q == 5 || q == 10
  }

  /** The anchored match of `^\d{5}(?:[-\s]\d{4})?$` against the whole zip code. */
  predicate ZipMatches(zip: string)
  {
    Accepts(0, zip)
  }

  lemma {:induction false} RejectStays(s: string)
    ensures ZipRun(-1, s) == -1
  {
    if s != [] {
      RejectStays(s[1..]);
    }
  }

  /** From the middle of the last digit group, the rest must be exactly the missing digits. */
  lemma {:induction false} AcceptsFromLastGroup(state: int, s: string)
    requires 6 <= state <= 10
    ensures Accepts(state, s) <==> |s| == 10 - state && AllAsciiDigits(s)
    decreases |s|
  {
    if s != [] {
      if state < 10 && IsAsciiDigit(s[0]) {
        AcceptsFromLastGroup(state + 1, s[1..]);
      } else {
        RejectStays(s[1..]);
      }
    }
  }

  /** After the first group, either the input ends or a separator and four digits follow. */
  lemma AcceptsFromFive(s: string)
    ensures Accepts(5, s) <==> s == [] || (|s| == 5 && IsZipSeparator(s[0]) && AllAsciiDigits(s[1..]))
  {
    if s != [] {
      if IsZipSeparator(s[0]) {
        AcceptsFromLastGroup(6, s[1..]);
      } else {
        RejectStays(s[1..]);
      }
    }
  }

  /** Inside the first group, the missing digits must come before the rest is matched from state 5. */
  lemma {:induction false} AcceptsFromFirstGroup(state: int, s: string)
    requires 0 <= state <= 5
    ensures Accepts(state, s) <==> |s| >= 5 - state && AllAsciiDigits(s[..5 - state]) && Accepts(5, s[5 - state..])
    decreases 5 - state
  {
    if state < 5 {
      if s == [] {
      } else if IsAsciiDigit(s[0]) {
        AcceptsFromFirstGroup(state + 1, s[1..]);
        if |s| >= 5 - state {
          assert s[1..][..5 - state - 1] == s[1..5 - state];
          assert s[1..][5 - state - 1..] == s[5 - state..];
        }
      } else {
        RejectStays(s[1..]);
      }
    }
  }

  /** The matcher accepts exactly the zip codes of the pattern's shape. */
  lemma ZipMatchesIff(zip: string)
    ensures ZipMatches(zip) <==> ZipShape(zip)
  {
    AcceptsFromFirstGroup(0, zip);
    if |zip| >= 5 {
      AcceptsFromFive(zip[5..]);
      if |zip| >= 6 {
        assert zip[5..][1..] == zip[6..];
      }
    }
  }

  /** A zip code the pattern accepts has 5 or 10 characters, so `min(5)` never rejects it on its own. */
  lemma ZipMatchLength(zip: string)
    requires ZipMatches(zip)
    ensures |zip| == 5 || |zip| == 10
  {
    ZipMatchesIff(zip);
  }

  // ---------------------------------------------------------------------------
  // Field checks and the reported issues
  // ---------------------------------------------------------------------------

  datatype Field = Name | Email | AddressLine1 | City | State | ZipCode | Country

  datatype Issue = Issue(field: Field, message: string)

  /** Every check on one field passes; email syntax is supplied by the caller as `isEmail`. */
  predicate FieldValid(info: DeliveryInfo, f: Field, isEmail: string -> bool): (r: bool)
    ensures r <==> FieldIssues(info, f, isEmail) == []
  {
    match f
    case Name => |info.name| >= 2
    case Email => isEmail(info.email)
    case AddressLine1 => |info.addressLine1| >= 5
    case City => |info.city| >= 2
    case State => |info.state| >= 2
    case ZipCode => |info.zipCode| >= 5 && ZipMatches(info.zipCode)
    case Country => |info.country| >= 2
  }

  /** The schema accepts the record: every field's checks pass; `addressLine2` is unconstrained. */
  predicate IsValidDeliveryInfo(info: DeliveryInfo, isEmail: string -> bool): (r: bool)
    ensures r ==> ZipShape(info.zipCode) && (|info.zipCode| == 5 || |info.zipCode| == 10)
  {
    ZipCodeValidIff(info, isEmail);
    forall f :: FieldValid(info, f, isEmail)
  }

  /** The issues of one field, in the order its checks are declared. */
  function FieldIssues(info: DeliveryInfo, f: Field, isEmail: string -> bool): seq<Issue>
  {
    match f
    case Name => if |info.name| >= 2 then [] else [Issue(Name, "Name must be at least 2 characters.")]
    case Email => if isEmail(info.email) then [] else [Issue(Email, "Invalid email address.")]
    case AddressLine1 => if |info.addressLine1| >= 5 then [] else [Issue(AddressLine1, "Address is too short.")]
    case City => if |info.city| >= 2 then [] else [Issue(City, "City is required.")]
    case State => if |info.state| >= 2 then [] else [Issue(State, "State is required.")]
    case ZipCode =>
      (if |info.zipCode| >= 5 then [] else [Issue(ZipCode, "Zip code must be at least 5 digits.")])
      + (if ZipMatches(info.zipCode) then [] else [Issue(ZipCode, "Invalid zip code format.")])
    case Country => if |info.country| >= 2 then [] else [Issue(Country, "Country is required.")]
  }

  predicate Mentions(r: seq<Issue>, f: Field)
  {
    exists i :: 0 <= i < |r| && r[i].field == f
  }

  lemma MentionsAppend(a: seq<Issue>, b: seq<Issue>, f: Field)
    ensures Mentions(a + b, f) <==> Mentions(a, f) || Mentions(b, f)
  {
    if Mentions(a + b, f) {
      var i :| 0 <= i < |a + b| && (a + b)[i].field == f;
      if i >= |a| {
        assert b[i - |a|].field == f;
      }
    }
    if Mentions(a, f) {
      var i :| 0 <= i < |a| && a[i].field == f;
      assert (a + b)[i].field == f;
    }
    if Mentions(b, f) {
      var i :| 0 <= i < |b| && b[i].field == f;
      assert (a + b)[|a| + i].field == f;
    }
  }

  /** The issues a parse of `info` reports, in the order of the schema's fields. */
  function Issues(info: DeliveryInfo, isEmail: string -> bool): (r: seq<Issue>)
    ensures forall f :: Mentions(r, f) <==> !FieldValid(info, f, isEmail)
    ensures r == [] <==> IsValidDeliveryInfo(info, isEmail)
  {
    var parts := [
      FieldIssues(info, Name, isEmail), FieldIssues(info, Email, isEmail),
      FieldIssues(info, AddressLine1, isEmail), FieldIssues(info, City, isEmail),
      FieldIssues(info, State, isEmail), FieldIssues(info, ZipCode, isEmail),
      FieldIssues(info, Country, isEmail)];
    var r := parts[0] + parts[1] + parts[2] + parts[3] + parts[4] + parts[5] + parts[6];
    assert forall f :: Mentions(r, f) <==> !FieldValid(info, f, isEmail) by {
      forall f ensures Mentions(r, f) <==> !FieldValid(info, f, isEmail) {
        MentionsAppend(parts[0] + parts[1] + parts[2] + parts[3] + parts[4] + parts[5], parts[6], f);
        MentionsAppend(parts[0] + parts[1] + parts[2] + parts[3] + parts[4], parts[5], f);
        MentionsAppend(parts[0] + parts[1] + parts[2] + parts[3], parts[4], f);
        MentionsAppend(parts[0] + parts[1] + parts[2], parts[3], f);
        MentionsAppend(parts[0] + parts[1], parts[2], f);
        MentionsAppend(parts[0], parts[1], f);
        var z := FieldIssues(info, ZipCode, isEmail);
        assert Mentions(z, f) <==> f == ZipCode && !FieldValid(info, ZipCode, isEmail) by {
          var z1 := if |info.zipCode| >= 5 then [] else [Issue(ZipCode, "Zip code must be at least 5 digits.")];
          var z2 := if ZipMatches(info.zipCode) then [] else [Issue(ZipCode, "Invalid zip code format.")];
          MentionsAppend(z1, z2, f);
          if !FieldValid(info, ZipCode, isEmail) && f == ZipCode {
            assert Mentions(z1, f) || Mentions(z2, f) by {
              if |info.zipCode| < 5 {
                assert z1[0].field == f;
              } else {
                assert z2[0].field == f;
              }
            }
          }
        }
        if !FieldValid(info, f, isEmail) && f != ZipCode {
          assert FieldIssues(info, f, isEmail)[0].field == f;
        }
      }
    }
    assert r != [] ==> Mentions(r, r[0].field);
    r
  }

  /** The zip-code field is valid exactly when the pattern matches: the length check adds nothing. */
  lemma ZipCodeValidIff(info: DeliveryInfo, isEmail: string -> bool)
    ensures FieldValid(info, ZipCode, isEmail) <==> ZipShape(info.zipCode)
  {
    ZipMatchesIff(info.zipCode);
  }

  /** `addressLine2` is optional: leaving it out, or giving any string, does not change validity. */
  lemma AddressLine2Optional(info: DeliveryInfo, line2: Option<string>, isEmail: string -> bool)
    ensures IsValidDeliveryInfo(info, isEmail) <==> IsValidDeliveryInfo(info.(addressLine2 := line2), isEmail)
  {
    var other := info.(addressLine2 := line2);
    assert forall f :: FieldValid(info, f, isEmail) == FieldValid(other, f, isEmail);
  }
}
