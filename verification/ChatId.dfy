/**
 Chat ids and phone numbers as text. A character stands for one byte; the white space trimmed is
 that of ASCII.
 */
module ChatId {
  import opened Text
  import opened Wrappers

  const USER := "s.whatsapp.net"
  const GROUP := "g.us"
  const LID := "lid"
  const USER_SUFFIX := "@" + USER
  const GROUP_SUFFIX := "@" + GROUP

  datatype Error = Empty | TooShort | InvalidSuffix | NotAGroup | NotAPhone | NotEligible

  // ------------------------------------------------------------------ pieces of text

  function Without(s: string, c: char): string {
    if s == "" then "" else (if s[0] == c then "" else [s[0]]) + Without(s[1..], c)
  }

  lemma {:induction false} WithoutIs(s: string, c: char, x: char)
    ensures x in Without(s, c) <==> x in s && x != c
  {
    if s != "" {
      WithoutIs(s[1..], c, x);
    }
  }

  lemma {:induction false} WithoutNothing(s: string, c: char)
    requires c !in s
    ensures Without(s, c) == s
  {
    if s != "" {
      WithoutNothing(s[1..], c);
    }
  }

  function TrimLeft(s: string, c: char): string {
    if s != "" && s[0] == c then TrimLeft(s[1..], c) else s
  }

  lemma {:induction false} TrimLeftIs(s: string, c: char, x: char)
    ensures x != c ==> (x in TrimLeft(s, c) <==> x in s)
    ensures x !in s ==> x !in TrimLeft(s, c)
    ensures TrimLeft(s, c) == "" || TrimLeft(s, c)[0] != c
  {
    if s != "" && s[0] == c {
      TrimLeftIs(s[1..], c, x);
    }
  }

  function TrimSpaceLeft(s: string): string {
    if s != "" && IsSpace(s[0]) then TrimSpaceLeft(s[1..]) else s
  }

  function TrimSpace(s: string): string {
    if s != "" && IsSpace(s[|s| - 1]) then TrimSpace(s[..|s| - 1]) else TrimSpaceLeft(s)
  }

  predicate AllSpace(s: string) {
    forall i :: 0 <= i < |s| ==> IsSpace(s[i])
  }

  lemma {:induction false} TrimmedLeftToNothing(s: string)
    ensures TrimSpaceLeft(s) == "" <==> AllSpace(s)
  {
    if s != "" {
      TrimmedLeftToNothing(s[1..]);
      assert s == [s[0]] + s[1..];
    }
  }

  lemma {:induction false} TrimmedToNothing(s: string)
    ensures TrimSpace(s) == "" <==> AllSpace(s)
  {
    if s != "" && IsSpace(s[|s| - 1]) {
      TrimmedToNothing(s[..|s| - 1]);
      assert s == s[..|s| - 1] + [s[|s| - 1]];
    } else {
      TrimmedLeftToNothing(s);
    }
  }

  /** The piece in front of the first separator; the whole text where there is none. */
  function Before(s: string, c: char): (r: string)
    ensures c in s ==> |r| < |s|
  {
    if s == "" || s[0] == c then "" else [s[0]] + Before(s[1..], c)
  }

  /** The second piece, between the first separator and the next. */
  function Second(s: string, c: char): string
    requires c in s
  {
    Before(s[|Before(s, c)| + 1..], c)
  }

  lemma {:induction false} BeforeAll(s: string, c: char)
    requires c !in s
    ensures Before(s, c) == s
  {
    if s != "" {
      BeforeAll(s[1..], c);
    }
  }

  lemma {:induction false} BeforeIs(s: string, c: char, x: char)
    ensures c !in Before(s, c) && (x !in s ==> x !in Before(s, c))
  {
    if s != "" && s[0] != c {
      BeforeIs(s[1..], c, x);
    }
  }

  lemma {:induction false} BeforeOf(a: string, c: char, b: string)
    requires c !in a
    ensures Before(a + [c] + b, c) == a
  {
    if a == "" {
      assert a + [c] + b == [c] + b;
    } else {
      assert (a + [c] + b)[1..] == a[1..] + [c] + b;
      BeforeOf(a[1..], c, b);
    }
  }

  lemma SecondOf(a: string, c: char, b: string)
    requires c !in a && c !in b
    ensures c in a + [c] + b && Second(a + [c] + b, c) == b
  {
    var s := a + [c] + b;
    BeforeOf(a, c, b);
    assert s[|a|] == c;
    assert s[|a| + 1..] == b;
    BeforeAll(b, c);
  }

  // ------------------------------------------------------------------ the chat id

  predicate Digit(c: char) {
    '0' <= c <= '9'
  }

  function Digits(s: string): nat {
    if s == "" then 0 else (if Digit(s[0]) then 1 else 0) + Digits(s[1..])
  }

  /** Counts digits wherever they stand. */
  predicate IsValidE164(s: string) {
    9 <= Digits(s) <= 15
  }

  function PhoneToWid(source: string): string {
    var destination := TrimLeft(source, '+');
    if '@' in destination then destination else destination + USER_SUFFIX
  }

  method PhonesToWids(sources: seq<string>) returns (result: array<string>)
    ensures fresh(result) && result.Length == |sources|
    ensures forall i :: 0 <= i < |sources| ==> result[i] == PhoneToWid(sources[i])
  {
    result := new string[|sources|](_ => "");
    for i := 0 to |sources|
      invariant forall k :: 0 <= k < i ==> result[k] == PhoneToWid(sources[k])
    {
      result[i] := PhoneToWid(sources[i]);
    }
  }

  predicate AllowedSuffix(suffix: string) {
    suffix == GROUP || suffix == USER || suffix == LID
  }

  function FormatEndpoint(source: string): Result<string, Error> {
    var destination := Without(source, ' ');
    if |destination| < 8 then Err(if |destination| == 0 then Empty else TooShort)
    else if destination[0] == '+' then Ok(PhoneToWid(destination))
    else if '@' in destination then
      if AllowedSuffix(Second(destination, '@')) then Ok(destination) else Err(InvalidSuffix)
    else if '-' in destination then
      if IsValidE164(Before(destination, '-')) then Ok(destination + GROUP_SUFFIX) else Err(NotAGroup)
    else if IsValidE164(destination) then Ok(PhoneToWid(destination))
    else Ok(destination + GROUP_SUFFIX)
  }

  /** Brings a suffix of its own that is acceptable. */
  predicate OwnSuffix(id: string) {
    |id| >= 8 && '@' in id && AllowedSuffix(Second(id, '@'))
  }

  /** An id that is already complete: as it stands, it is accepted and left alone. */
  predicate Complete(id: string) {
    id != "" && id[0] != '+' && ' ' !in id && OwnSuffix(id)
  }

  lemma CompleteIsFixed(id: string)
    requires id != "" && id[0] != '+' && ' ' !in id && '@' in id
    ensures FormatEndpoint(id) == Ok(id) <==> OwnSuffix(id)
  {
    WithoutNothing(id, ' ');
  }

  lemma Suffixed(local: string, domain: string)
    requires '@' !in local && ' ' !in local && (local == "" || local[0] != '+')
    requires '@' !in domain && ' ' !in domain && AllowedSuffix(domain)
    requires |local| + |domain| >= 7
    ensures Complete(local + ['@'] + domain)
  {
    SecondOf(local, '@', domain);
  }

  lemma Domains(s: string)
    ensures s + USER_SUFFIX == s + ['@'] + USER && s + GROUP_SUFFIX == s + ['@'] + GROUP
    ensures '@' !in USER && ' ' !in USER && '@' !in GROUP && ' ' !in GROUP
    ensures ':' !in USER && USER_SUFFIX == ['@'] + USER && |USER| == 14 && |GROUP| == 4
  {
  }

  lemma FormatCompletes(source: string)
    requires FormatEndpoint(source).Ok? && !(Without(source, ' ')[0] == '+' && '@' in Without(source, ' '))
    ensures Complete(FormatEndpoint(source).value)
  {
    var d := Without(source, ' ');
    WithoutIs(source, ' ', ' ');
    if '@' !in d {
      var t := TrimLeft(d, '+');
      TrimLeftIs(d, '+', '@');
      TrimLeftIs(d, '+', ' ');
      Domains(t);
      Domains(d);
      Suffixed(t, USER);
      if d[0] != '+' {
        Suffixed(d, GROUP);
      }
    }
  }

  /** Formatting twice is formatting once, unless the text starts with a plus and brings its own
      suffix: that suffix is taken over unchecked, and what is left must be acceptable by itself. */
  lemma FormatIdempotentExactly(source: string)
    requires FormatEndpoint(source).Ok?
    ensures var d := Without(source, ' ');
      FormatEndpoint(FormatEndpoint(source).value) == FormatEndpoint(source) <==>
        (d[0] == '+' && '@' in d
         ==> OwnSuffix(TrimLeft(d, '+')))
  {
    var d := Without(source, ' ');
    if d[0] == '+' && '@' in d {
      WithoutIs(source, ' ', ' ');
      TrimLeftIs(d, '+', '@');
      TrimLeftIs(d, '+', ' ');
      CompleteIsFixed(TrimLeft(d, '+'));
    } else {
      FormatCompletes(source);
      CompleteIsFixed(FormatEndpoint(source).value);
    }
  }

  /** Which suffixes of its own an id may bring. */
  lemma SuffixesAllowed(local: string, domain: string)
    requires '@' !in local && '@' !in domain && ' ' !in local && ' ' !in domain
    requires local != "" && local[0] != '+' && |local| + |domain| >= 7
    ensures var id := local + ['@'] + domain;
      FormatEndpoint(id) == if domain == "g.us" || domain == "s.whatsapp.net" || domain == "lid" then Ok(id)
                            else Err(InvalidSuffix)
  {
    var id := local + ['@'] + domain;
    SecondOf(local, '@', domain);
    assert id[0] == local[0];
    WithoutNothing(id, ' ');
  }

  /** What is refused for its length, blanks aside. */
  lemma LengthRefused(source: string)
    ensures FormatEndpoint(source) == Err(Empty) <==> Without(source, ' ') == ""
    ensures FormatEndpoint(source) == Err(TooShort) <==> 1 <= |Without(source, ' ')| <= 7
  {
  }

  lemma {:induction false} DigitsOnly(s: string)
    requires forall i :: 0 <= i < |s| ==> Digit(s[i])
    ensures Digits(s) == |s|
  {
    if s != "" {
      DigitsOnly(s[1..]);
    }
  }

  /** A bare number of 9 to 15 digits gets the id of a user, the one it gets behind a plus. */
  lemma BareNumber(s: string)
    requires 9 <= |s| <= 15 && forall i :: 0 <= i < |s| ==> Digit(s[i])
    ensures FormatEndpoint(s) == Ok(s + USER_SUFFIX) == FormatEndpoint(['+'] + s)
  {
    DigitsOnly(s);
    WithoutNothing(s, ' ');
    assert Digit(s[0]);
    assert PhoneToWid(s) == s + USER_SUFFIX;
    FormatPlus(s);
  }

  /** Without plus, suffix or dash, anything but 9 to 15 digits is taken for a group. */
  lemma GroupByDefault(s: string)
    requires |s| >= 8 && ' ' !in s && '@' !in s && '-' !in s && s[0] != '+' && !IsValidE164(s)
    ensures FormatEndpoint(s) == Ok(s + GROUP_SUFFIX)
  {
    WithoutNothing(s, ' ');
  }

  /** So is a number of another length. */
  lemma NumberOfOtherLength(s: string)
    requires (|s| == 8 || |s| > 15) && forall i :: 0 <= i < |s| ==> Digit(s[i])
    ensures FormatEndpoint(s) == Ok(s + GROUP_SUFFIX)
  {
    DigitsOnly(s);
    GroupByDefault(s);
  }

  /** A group named by its creator: with a dash, the number in front of it decides. */
  lemma GroupOfCreator(number: string, rest: string)
    requires number != "" && |number| + |rest| >= 7 && number[0] != '+' && '-' !in number
    requires ' ' !in number && '@' !in number && ' ' !in rest && '@' !in rest
    ensures var id := number + ['-'] + rest;
      FormatEndpoint(id) == if IsValidE164(number) then Ok(id + GROUP_SUFFIX) else Err(NotAGroup)
  {
    var id := number + ['-'] + rest;
    WithoutNothing(id, ' ');
    BeforeOf(number, '-', rest);
    assert id[|number|] == '-' && id[0] == number[0];
  }

  /** Any other suffix behind a plus is accepted once and refused the second time. */
  lemma UncheckedSuffix(local: string, domain: string)
    requires '@' !in local && '@' !in domain && ' ' !in local && ' ' !in domain
    requires local != "" && local[0] != '+' && |local| + |domain| >= 7 && !AllowedSuffix(domain)
    ensures var id := local + ['@'] + domain;
      FormatEndpoint(['+'] + id) == Ok(id) && FormatEndpoint(id) == Err(InvalidSuffix)
  {
    var id := local + ['@'] + domain;
    SecondOf(local, '@', domain);
    assert id[0] == local[0];
    FormatPlus(id);
    WithoutNothing(id, ' ');
  }

  lemma FormatPlus(id: string)
    requires |id| >= 7 && id[0] != '+' && ' ' !in id
    ensures FormatEndpoint(['+'] + id) == Ok(if '@' in id then id else id + USER_SUFFIX)
  {
    WithoutNothing(['+'] + id, ' ');
    assert (['+'] + id)[1..] == id;
    assert TrimLeft(['+'] + id, '+') == TrimLeft(id, '+') == id;
  }

  lemma WidIdempotent(source: string)
    ensures PhoneToWid(PhoneToWid(source)) == PhoneToWid(source)
    ensures '@' in PhoneToWid(source) && PhoneToWid(source)[0] != '+'
  {
    var t := TrimLeft(source, '+');
    TrimLeftIs(source, '+', '@');
    if '@' !in t {
      assert (t + USER_SUFFIX)[|t|] == '@';
    }
  }

  // ------------------------------------------------------------------ the phone number

  /** A first digit other than 0 and six to fourteen more. */
  predicate Phone(p: string) {
    7 <= |p| <= 15 && p[0] != '0' && forall i :: 0 <= i < |p| ==> Digit(p[i])
  }

  function Validated(source: string): Result<string, Error> {
    if Phone(source) then Ok(['+'] + source) else Err(NotAPhone)
  }

  function GetPhoneIfValid(source: string): Result<string, Error> {
    var response := TrimLeft(TrimSpace(source), '+');
    if !HasSuffix(response, USER_SUFFIX) then Validated(response)
    else
      var local := Before(response, '@');
      Validated(if ':' in local then Before(local, ':') else local)
  }

  /** A number is found again in the id made of it. */
  lemma PhoneRoundTrip(p: string)
    requires Phone(p)
    ensures FormatEndpoint(['+'] + p) == Ok(p + USER_SUFFIX)
    ensures GetPhoneIfValid(p + USER_SUFFIX) == Ok(['+'] + p)
    ensures GetPhoneIfValid(['+'] + p) == Ok(['+'] + p)
  {
    PhoneText(p);
    FormatPlus(p);
    PhoneOfUser(p);
    BeforeAll(p, ':');
    PhonePlus(p);
  }

  lemma PhoneText(p: string)
    requires Phone(p)
    ensures '@' !in p && ':' !in p && ' ' !in p
    ensures TrimSpaceLeft(p) == p && TrimLeft(p, '+') == p
  {
    assert Digit(p[0]);
  }

  lemma PhonePlus(p: string)
    requires Phone(p)
    ensures GetPhoneIfValid(['+'] + p) == Ok(['+'] + p)
  {
    var q := ['+'] + p;
    assert TrimSpace(q) == q;
    assert q[1..] == p;
    assert TrimLeft(q, '+') == TrimLeft(p, '+') == p;
    if |USER_SUFFIX| <= |p| {
      assert p[|p| - |USER_SUFFIX|..][0] == p[|p| - |USER_SUFFIX|];
    }
  }

  /** Of the digits behind a plus, exactly 7 to 15 that do not start with 0 are a phone. */
  lemma PhonesAccepted(p: string)
    requires p != "" && forall i :: 0 <= i < |p| ==> Digit(p[i])
    ensures GetPhoneIfValid(['+'] + p) == if 7 <= |p| <= 15 && p[0] != '0' then Ok(['+'] + p) else Err(NotAPhone)
  {
    PlusTrimmed(p);
    DigitsHaveNoSuffix(p);
  }

  lemma PlusTrimmed(p: string)
    requires p != "" && forall i :: 0 <= i < |p| ==> Digit(p[i])
    ensures TrimLeft(TrimSpace(['+'] + p), '+') == p
  {
    var q := ['+'] + p;
    assert q[|q| - 1] == p[|p| - 1] && Digit(p[|p| - 1]) && Digit(p[0]);
    assert TrimSpace(q) == q && q[1..] == p;
    assert TrimLeft(q, '+') == TrimLeft(p, '+') == p;
  }

  lemma DigitsHaveNoSuffix(p: string)
    requires forall i :: 0 <= i < |p| ==> Digit(p[i])
    ensures !HasSuffix(p, USER_SUFFIX)
  {
    if |USER_SUFFIX| <= |p| {
      assert p[|p| - |USER_SUFFIX|..][0] == p[|p| - |USER_SUFFIX|];
    }
  }

  /** Whatever is accepted as a phone is a plus and a valid number, and stays as it is. */
  lemma PhoneIsFixed(source: string)
    requires GetPhoneIfValid(source).Ok?
    ensures var phone := GetPhoneIfValid(source).value;
      |phone| > 0 && phone[0] == '+' && Phone(phone[1..]) && GetPhoneIfValid(phone) == Ok(phone)
  {
    var phone := GetPhoneIfValid(source).value;
    assert phone == ['+'] + phone[1..];
    PhoneRoundTrip(phone[1..]);
  }

  // ------------------------------------------------------------------ the session id

  /** None: the function panics. */
  function TrimSession(wid: string): Option<string> {
    if ':' !in wid then Some(wid)
    else if '@' !in wid then None
    else Some(Before(wid, ':') + ['@'] + Second(wid, '@'))
  }

  /** What stripping yields never makes it panic again. A session mark is left exactly where the
      piece behind the first @ has one of its own, and only then would stripping again change it. */
  lemma StrippedOnce(wid: string)
    requires TrimSession(wid).Some?
    ensures var r := TrimSession(wid).value;
      && TrimSession(r).Some?
      && (':' in r <==> ':' in wid && ':' in Second(wid, '@'))
      && (TrimSession(r) == Some(r) <==> ':' !in r)
  {
    var r := TrimSession(wid).value;
    if ':' in wid {
      var head, rest := Before(wid, ':'), Second(wid, '@');
      assert r == head + ['@'] + rest && r[|head|] == '@';
      BeforeIs(wid, ':', ':');
      assert ':' in r <==> ':' in rest;
      if ':' in r {
        SecondStrip(r);
      }
    }
  }

  /** A mark left behind, and the piece in front of it written twice: so a@b:c gives a@b@b:c. */
  lemma MarkLeftBehind(a: string, b: string, c: string)
    requires ':' !in a && '@' !in a && ':' !in b && '@' !in b && '@' !in c
    ensures TrimSession(a + ['@'] + (b + [':'] + c)) == Some(a + ['@'] + b + ['@'] + (b + [':'] + c))
    ensures ':' in TrimSession(a + ['@'] + (b + [':'] + c)).value
  {
    var rest := b + [':'] + c;
    var wid := a + ['@'] + rest;
    SecondOf(a, '@', rest);
    assert wid == a + ['@'] + b + [':'] + c;
    BeforeOf(a + ['@'] + b, ':', c);
    assert wid[|a| + 1 + |b|] == ':' && rest[|b|] == ':';
    assert (a + ['@'] + b + ['@'] + rest)[|a| + 2 + |b| + |b|] == ':';
  }

  /** With a session mark in it, a text is changed by stripping: where the mark was there is an @. */
  lemma SecondStrip(r: string)
    requires ':' in r && '@' in r
    ensures TrimSession(r) != Some(r)
  {
    var stripped := TrimSession(r).value;
    BeforeMark(r, ':');
    assert stripped[|Before(r, ':')|] == '@';
  }

  lemma {:induction false} BeforeMark(s: string, c: char)
    requires c in s
    ensures |Before(s, c)| < |s| && s[|Before(s, c)|] == c
  {
    if s[0] != c {
      BeforeMark(s[1..], c);
    }
  }

  lemma {:induction false} BeforeSuffix(local: string, suffix: string, c: char)
    requires c in local
    ensures Before(local + suffix, c) == Before(local, c)
  {
    if local[0] != c {
      assert (local + suffix)[1..] == local[1..] + suffix;
      BeforeSuffix(local[1..], suffix, c);
    }
  }

  lemma {:induction false} TrimLeftSuffix(s: string, suffix: string, c: char)
    requires suffix != "" && suffix[0] != c
    ensures TrimLeft(s + suffix, c) == TrimLeft(s, c) + suffix
  {
    if s == "" {
      assert s + suffix == suffix;
    } else if s[0] == c {
      assert (s + suffix)[1..] == s[1..] + suffix;
      TrimLeftSuffix(s[1..], suffix, c);
    }
  }

  lemma {:induction false} TrimSpaceSuffix(s: string, suffix: string)
    requires suffix != "" && !IsSpace(suffix[0])
    ensures TrimSpaceLeft(s + suffix) == TrimSpaceLeft(s) + suffix
  {
    if s == "" {
      assert s + suffix == suffix;
    } else if IsSpace(s[0]) {
      assert (s + suffix)[1..] == s[1..] + suffix;
      TrimSpaceSuffix(s[1..], suffix);
    }
  }

  lemma {:induction false} BeforeTrimLeft(s: string, d: char, c: char)
    requires c != d
    ensures Before(TrimLeft(s, d), c) == TrimLeft(Before(s, c), d)
  {
    if s != "" && s[0] == d {
      BeforeTrimLeft(s[1..], d, c);
      assert Before(s, c)[1..] == Before(s[1..], c);
    }
  }

  lemma {:induction false} BeforeTrimSpace(s: string, c: char)
    requires !IsSpace(c)
    ensures Before(TrimSpaceLeft(s), c) == TrimSpaceLeft(Before(s, c))
  {
    if s != "" && IsSpace(s[0]) {
      BeforeTrimSpace(s[1..], c);
      assert Before(s, c)[1..] == Before(s[1..], c);
    }
  }

  lemma {:induction false} TrimSpaceLeftPart(s: string, c: char)
    ensures c in TrimSpaceLeft(s) ==> c in s
  {
    if s != "" && IsSpace(s[0]) {
      TrimSpaceLeftPart(s[1..], c);
    }
  }

  /** What is read of a user's id: the local part, trimmed, up to the session mark. */
  lemma PhoneOfUser(local: string)
    requires '@' !in local
    ensures GetPhoneIfValid(local + USER_SUFFIX) == Validated(TrimLeft(TrimSpaceLeft(Before(local, ':')), '+'))
  {
    var l := TrimSpaceLeft(local);
    var m := TrimLeft(l, '+');
    Domains(m);
    TrimSpaceSuffix(local, USER_SUFFIX);
    TrimLeftSuffix(l, USER_SUFFIX, '+');
    LastChar(local, USER_SUFFIX);
    TrimSpaceLeftPart(local, '@');
    TrimLeftIs(l, '+', '@');
    BeforeOf(m, '@', USER);
    UserResponse(m);
    BeforeTrimSpace(local, ':');
    BeforeTrimLeft(l, '+', ':');
    if ':' !in m {
      BeforeAll(m, ':');
    }
  }

  lemma LastChar(a: string, b: string)
    requires b != "" && !IsSpace(b[|b| - 1])
    ensures TrimSpace(a + b) == TrimSpaceLeft(a + b)
  {
    assert (a + b)[|a + b| - 1] == b[|b| - 1];
  }

  lemma UserResponse(m: string)
    ensures HasSuffix(m + USER_SUFFIX, USER_SUFFIX)
  {
    assert (m + USER_SUFFIX)[|m|..] == USER_SUFFIX;
  }

  lemma TrimSessionIs(wid: string, head: string, domain: string)
    requires ':' in wid && '@' in wid && Before(wid, ':') == head && Second(wid, '@') == domain
    ensures TrimSession(wid) == Some(head + (['@'] + domain))
  {
    assert head + ['@'] + domain == head + (['@'] + domain);
  }

  lemma TrimSessionOf(local: string, domain: string)
    requires '@' !in local && '@' !in domain && ':' !in domain
    ensures TrimSession(local + (['@'] + domain)) == Some(Before(local, ':') + (['@'] + domain))
  {
    var suffix := ['@'] + domain;
    var wid := local + suffix;
    if ':' in local {
      assert wid == local + ['@'] + domain;
      SecondOf(local, '@', domain);
      BeforeSuffix(local, suffix, ':');
      TrimSessionIs(wid, Before(local, ':'), domain);
    } else {
      BeforeAll(local, ':');
    }
  }

  lemma TrimSessionOfUser(local: string)
    requires '@' !in local
    ensures TrimSession(local + USER_SUFFIX) == Some(Before(local, ':') + USER_SUFFIX)
  {
    Domains(local);
    TrimSessionOf(local, USER);
  }

  /** Stripping the session id first makes no difference to the number read. */
  lemma SessionMakesNoDifference(local: string)
    requires '@' !in local
    ensures var w := local + USER_SUFFIX;
      TrimSession(w).Some? && GetPhoneIfValid(TrimSession(w).value) == GetPhoneIfValid(w)
  {
    var stripped := Before(local, ':');
    TrimSessionOfUser(local);
    BeforeIs(local, ':', '@');
    BeforeAll(stripped, ':');
    PhoneOfUser(local);
    PhoneOfUser(stripped);
  }

  // ------------------------------------------------------------------ the ninth digit

  /** A Brazilian mobile number with an area code from 31 on and a leading 9. */
  predicate Eligible(source: string) {
    && |source| == 14 && source[0] == '+' && source[1] == '5' && source[2] == '5'
    && '3' <= source[3] <= '9' && '1' <= source[4] <= '9' && source[5] == '9'
    && forall i :: 6 <= i < 14 ==> Digit(source[i])
  }

  function RemoveDigit9(source: string): Result<string, Error> {
    if Eligible(source) then Ok(source[..5] + source[6..14]) else Err(NotEligible)
  }

  /** The 9 behind the area code is removed exactly for area codes from 31 on without a 0. */
  lemma NinthDigit(area: string, rest: string)
    requires |area| == 2 && Digit(area[0]) && Digit(area[1])
    requires |rest| == 8 && forall i :: 0 <= i < 8 ==> Digit(rest[i])
    ensures RemoveDigit9("+55" + area + "9" + rest) ==
      if area[0] >= '3' && area[1] != '0' then Ok("+55" + area + rest) else Err(NotEligible)
  {
    var source := "+55" + area + "9" + rest;
    assert source[3] == area[0] && source[4] == area[1] && source[5] == '9';
    assert forall i :: 6 <= i < 14 ==> source[i] == rest[i - 6];
    assert source[..5] == "+55" + area && source[6..14] == rest;
  }

  lemma ShorterPhone(source: string)
    requires Eligible(source)
    ensures Phone(source[1..]) && Phone((source[..5] + source[6..14])[1..])
  {
    var shorter := source[..5] + source[6..14];
    forall i | 0 <= i < 13 ensures Digit(source[1..][i]) {
      assert source[1..][i] == source[i + 1];
    }
    forall i | 0 <= i < 12 ensures Digit(shorter[1..][i]) {
      assert shorter[1..][i] == if i < 4 then source[i + 1] else source[i + 2];
    }
  }

  lemma Restores(source: string)
    requires |source| == 14 && source[5] == '9'
    ensures var shorter := source[..5] + source[6..14];
      shorter[..5] + ['9'] + shorter[5..] == source
  {
    assert source == source[..5] + [source[5]] + source[6..14];
  }

  /** The shorter number is a valid phone as the longer one was, putting the 9 back restores the
      number, and nothing is removed a second time. */
  lemma RemoveDigit9Once(source: string)
    requires RemoveDigit9(source).Ok?
    ensures var shorter := RemoveDigit9(source).value;
      && shorter[..5] + ['9'] + shorter[5..] == source
      && RemoveDigit9(shorter).Err?
      && GetPhoneIfValid(source) == Ok(source)
      && GetPhoneIfValid(shorter) == Ok(shorter)
  {
    var shorter := RemoveDigit9(source).value;
    ShorterPhone(source);
    Restores(source);
    assert source == ['+'] + source[1..] && shorter == ['+'] + shorter[1..];
    PhonePlus(source[1..]);
    PhonePlus(shorter[1..]);
  }
}
