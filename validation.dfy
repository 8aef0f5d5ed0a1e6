/** The input validators: the email and French phone patterns written out as string
    predicates, and the client and contract validators that collect error messages. */
module Validation {
  import opened Common
  import opened Text

  // ----- email: /^[^\s@]+@[^\s@]+\.[^\s@]+$/ -----

  /** `[^\s@]`. */
  predicate IsAtomChar(c: char) {
    c != '@' && !IsJsWhitespace(c)
  }

  /** `[^\s@]+`. */
  predicate IsAtom(s: string) {
    |s| > 0 && forall i :: 0 <= i < |s| ==> IsAtomChar(s[i])
  }

  /** What the anchored pattern matches, read off the pattern itself: the whole string
      is an atom, `@`, an atom, `.`, an atom. */
  ghost predicate MatchesEmailPattern(s: string) {
    exists i, j :: 0 <= i < j < |s| && s[i] == '@' && s[j] == '.'
      && IsAtom(s[..i]) && IsAtom(s[i + 1..j]) && IsAtom(s[j + 1..])
  }

  /** The first index of `c` in `s`. */
  function IndexOf(s: string, c: char): (r: Option<nat>)
    ensures r.Some? ==> r.value < |s| && s[r.value] == c && c !in s[..r.value]
    ensures r.None? ==> c !in s
  {
    if s == [] then None
    else if s[0] == c then Some(0)
    else
      var r := IndexOf(s[1..], c);
      assert s == [s[0]] + s[1..];
      if r.Some? then
        assert s[..r.value + 1] == [s[0]] + s[1..][..r.value];
        Some(r.value + 1)
      else None
  }

  /** `isValidEmail`: the text before the first `@` is an atom, and so is the text
      after it, which holds a `.` with a character on each side. */
  predicate IsValidEmail(email: string) {
    match IndexOf(email, '@')
    case None => false
    case Some(i) =>
      var local, domain := email[..i], email[i + 1..];
      IsAtom(local) && IsAtom(domain) && |domain| >= 3 && '.' in domain[1..|domain| - 1]
  }

  /** `isValidEmail` accepts exactly the strings the pattern matches; in particular an
      accepted address holds a single `@` and no whitespace. */
  lemma IsValidEmailMatchesPattern(s: string)
    ensures IsValidEmail(s) <==> MatchesEmailPattern(s)
    ensures IsValidEmail(s) ==> NoJsWhitespace(s) && multiset(s)['@'] == 1
  {
    if IsValidEmail(s) {
      AcceptedMatches(s);
    }
    if MatchesEmailPattern(s) {
      var i, j :| 0 <= i < j < |s| && s[i] == '@' && s[j] == '.'
        && IsAtom(s[..i]) && IsAtom(s[i + 1..j]) && IsAtom(s[j + 1..]);
      MatchedAccepted(s, i, j);
    }
  }

  lemma AcceptedMatches(s: string)
    requires IsValidEmail(s)
    ensures MatchesEmailPattern(s)
    ensures NoJsWhitespace(s) && multiset(s)['@'] == 1
  {
    var i := IndexOf(s, '@').value;
    AcceptedSplit(s, i);
    AcceptedShape(s, i);
  }

  /** The `.` the domain holds splits it into the pattern's last two atoms. */
  lemma AcceptedSplit(s: string, i: nat)
    requires IsValidEmail(s) && IndexOf(s, '@') == Some(i)
    ensures MatchesEmailPattern(s)
  {
    var d := s[i + 1..];
    var m :| 0 <= m < |d[1..|d| - 1]| && d[1..|d| - 1][m] == '.';
    var k := m + 1;
    var j := i + 1 + k;
    assert s[j] == d[k] == '.';
    assert s[i + 1..j] == d[..k] && s[j + 1..] == d[k + 1..];
  }

  /** Around its single `@`, an accepted address is made of atom characters. */
  lemma AcceptedShape(s: string, i: nat)
    requires IsValidEmail(s) && IndexOf(s, '@') == Some(i)
    ensures NoJsWhitespace(s) && multiset(s)['@'] == 1
  {
    var d := s[i + 1..];
    assert s == s[..i] + [s[i]] + d;
    assert '@' !in d;
    assert multiset(s)['@'] == multiset(s[..i])['@'] + multiset([s[i]])['@'] + multiset(d)['@'];
    forall p | 0 <= p < |s| ensures !IsJsWhitespace(s[p]) {
      if p < i {
        assert s[p] == s[..i][p];
      } else if p > i {
        assert s[p] == d[p - i - 1];
      }
    }
  }

  lemma MatchedAccepted(s: string, i: nat, j: nat)
    requires i < j < |s| && s[i] == '@' && s[j] == '.'
    requires IsAtom(s[..i]) && IsAtom(s[i + 1..j]) && IsAtom(s[j + 1..])
    ensures IsValidEmail(s)
  {
    assert '@' !in s[..i];
    var r := IndexOf(s, '@');
    assert r.Some? && r.value == i;
    var d := s[i + 1..];
    assert d == s[i + 1..j] + [s[j]] + s[j + 1..];
    forall p | 0 <= p < |d| ensures IsAtomChar(d[p]) {
      if p < j - i - 1 {
        assert d[p] == s[i + 1..j][p];
      } else if p > j - i - 1 {
        assert d[p] == s[j + 1..][p - (j - i)];
      }
    }
    assert d[1..|d| - 1][j - i - 2] == '.';
  }

  /** The addresses the test suite accepts, one lemma each: the split points are
      the `@` and the `.` that the pattern's three atoms sit between. */
  lemma EmailSamplePlain()
    ensures IsValidEmail("test@example.com")
  {
    MatchedAccepted("test@example.com", 4, 12);
  }

  lemma EmailSampleDotted()
    ensures IsValidEmail("user.name@domain.co.uk")
  {
    MatchedAccepted("user.name@domain.co.uk", 9, 19);
  }

  lemma EmailSamplePlus()
    ensures IsValidEmail("firstname+lastname@company.org")
  {
    MatchedAccepted("firstname+lastname@company.org", 18, 26);
  }

  /** The addresses the test suite rejects, passed as parameters equal to the
      samples: no `@`, nothing before it, nothing after it, a space in the local
      part. */
  lemma EmailSamplesRejected(noAt: string, noLocal: string, noDomain: string, spaced: string)
    requires noAt == "invalid.email" && noLocal == "@example.com"
    requires noDomain == "test@" && spaced == "test @example.com"
    ensures !IsValidEmail(noAt) && !IsValidEmail(noLocal)
    ensures !IsValidEmail(noDomain) && !IsValidEmail(spaced)
  {
    assert '@' !in noAt;
    NoDotRejected(noDomain);
    FirstCharAt(noLocal);
    WhitespaceRejected(spaced, 4);
  }

  /** Without a `.` there is no domain. */
  lemma NoDotRejected(s: string)
    requires '.' !in s
    ensures !IsValidEmail(s)
  {
    IsValidEmailMatchesPattern(s);
  }

  /** An address starting with `@` has an empty local part. */
  lemma FirstCharAt(s: string)
    requires |s| > 0 && s[0] == '@'
    ensures !IsValidEmail(s)
  {
    assert IndexOf(s, '@') == Some(0);
  }

  /** An address holding whitespace is rejected. */
  lemma WhitespaceRejected(s: string, k: nat)
    requires k < |s| && IsJsWhitespace(s[k])
    ensures !IsValidEmail(s)
  {
    IsValidEmailMatchesPattern(s);
  }

  // ----- phone: phone.replace(/\s/g, "") tested against /^0[1-9]\d{8}$/ -----

  /** `phone.replace(/\s/g, "")`. */
  function StripWhitespace(s: string): (r: string)
    ensures NoJsWhitespace(r) && |r| <= |s|
  {
    if s == [] then []
    else (if IsJsWhitespace(s[0]) then [] else [s[0]]) + StripWhitespace(s[1..])
  }

  /** `/^0[1-9]\d{8}$/`: ten ASCII digits, a `0` first and a non-zero digit second. */
  predicate MatchesPhonePattern(t: string) {
    && |t| == 10
    && t[0] == '0'
    && '1' <= t[1] <= '9'
    && forall k :: 2 <= k < 10 ==> IsDigit(t[k])
  }

  predicate IsValidPhone(phone: string) {
    MatchesPhonePattern(StripWhitespace(phone))
  }

  lemma {:induction false} StripWhitespaceConcat(a: string, b: string)
    ensures StripWhitespace(a + b) == StripWhitespace(a) + StripWhitespace(b)
    decreases |a|
  {
    if a != [] {
      assert (a + b)[1..] == a[1..] + b;
      StripWhitespaceConcat(a[1..], b);
    } else {
      assert a + b == b;
    }
  }

  /** Stripping leaves a string without whitespace as it is. */
  lemma {:induction false} StripWhitespaceKeeps(s: string)
    requires NoJsWhitespace(s)
    ensures StripWhitespace(s) == s
    decreases |s|
  {
    if s != [] {
      StripWhitespaceKeeps(s[1..]);
    }
  }

  /** One whitespace character disappears, and the two sides are stripped apart. */
  lemma StripSkips(a: string, w: char, b: string)
    requires IsJsWhitespace(w)
    ensures StripWhitespace(a + [w] + b) == StripWhitespace(a) + StripWhitespace(b)
  {
    assert a + [w] + b == a + ([w] + b);
    StripWhitespaceConcat(a, [w] + b);
    assert ([w] + b)[1..] == b;
  }

  /** Inserting a whitespace character anywhere never changes the verdict. */
  lemma PhoneIgnoresWhitespace(a: string, w: char, b: string)
    requires IsJsWhitespace(w)
    ensures IsValidPhone(a + [w] + b) == IsValidPhone(a + b)
  {
    StripSkips(a, w, b);
    StripWhitespaceConcat(a, b);
  }

  /** A whitespace-free input is judged by the pattern alone. */
  lemma PhoneWithoutWhitespace(s: string)
    requires NoJsWhitespace(s)
    ensures IsValidPhone(s) <==> MatchesPhonePattern(s)
  {
    StripWhitespaceKeeps(s);
  }

  lemma DigitsNoWhitespace(s: string)
    requires AllDigits(s)
    ensures NoJsWhitespace(s)
  {
    forall i | 0 <= i < |s| ensures !IsJsWhitespace(s[i]) {
      assert IsDigit(s[i]);
    }
  }

  /** A string of digits is a valid number exactly when it has ten digits, the first
      `0` and the second not. */
  lemma PhoneDigits(s: string)
    requires AllDigits(s)
    ensures IsValidPhone(s) <==> |s| == 10 && s[0] == '0' && s[1] != '0'
  {
    DigitsNoWhitespace(s);
    StripWhitespaceKeeps(s);
  }

  /** The numbers the test suite accepts as written, passed as parameters equal to
      the samples. */
  lemma PhoneSamplesAccepted(a: string, b: string, c: string)
    requires a == "0612345678" && b == "0712345678" && c == "0123456789"
    ensures IsValidPhone(a) && IsValidPhone(b) && IsValidPhone(c)
  {
    PhoneDigits(a);
    PhoneDigits(b);
    PhoneDigits(c);
  }

  /** The numbers the test suite rejects: nine digits, five digits, and ten digits
      that do not start with `0`. */
  lemma PhoneSamplesRejected(a: string, b: string, c: string)
    requires a == "123456789" && b == "06123" && c == "1234567890"
    ensures !IsValidPhone(a) && !IsValidPhone(b) && !IsValidPhone(c)
  {
    PhoneDigits(a);
    PhoneDigits(b);
    PhoneDigits(c);
  }

  /** Five groups of digits joined by single spaces are stripped to the digits. */
  lemma StripSpacedGroups(a: string, b: string, c: string, d: string, e: string)
    requires NoJsWhitespace(a) && NoJsWhitespace(b) && NoJsWhitespace(c) && NoJsWhitespace(d) && NoJsWhitespace(e)
    ensures StripWhitespace(a + " " + b + " " + c + " " + d + " " + e) == a + b + c + d + e
  {
    StripWhitespaceKeeps(a);
    StripWhitespaceKeeps(b);
    StripWhitespaceKeeps(c);
    StripWhitespaceKeeps(d);
    StripWhitespaceKeeps(e);
    StripSkips(a, ' ', b);
    StripSkips(a + " " + b, ' ', c);
    StripSkips(a + " " + b + " " + c, ' ', d);
    StripSkips(a + " " + b + " " + c + " " + d, ' ', e);
  }

  /** The spaced-out number of the test suite is accepted. */
  lemma PhoneSampleSpaced(s: string)
    requires s == "06 12 34 56 78"
    ensures IsValidPhone(s)
  {
    var a, b, c, d, e := s[..2], s[3..5], s[6..8], s[9..11], s[12..];
    assert s == a + " " + b + " " + c + " " + d + " " + e;
    DigitsNoWhitespace(a);
    DigitsNoWhitespace(b);
    DigitsNoWhitespace(c);
    DigitsNoWhitespace(d);
    DigitsNoWhitespace(e);
    StripSpacedGroups(a, b, c, d, e);
    assert a + b + c + d + e == "0612345678";
  }

  // ----- record validators -----

  const NameMessage := "Le nom doit contenir au moins 2 caract\U{E8}res"
  const EmailMessage := "Email invalide"
  const TitleMessage := "Le titre doit contenir au moins 3 caract\U{E8}res"
  const AmountMessage := "Le montant doit \U{EA}tre un nombre positif"
  const ClientMessage := "Un client doit \U{EA}tre associ\U{E9}"

  /** `{ isValid, errors }`. */
  datatype Verdict = Verdict(isValid: bool, errors: seq<string>)

  /** A client form: a missing, `null` or `undefined` field is `None`. */
  datatype ClientData = ClientData(name: Option<string>, email: Option<string>)

  /** A JavaScript number; `amount` is judged by its numeric value only. */
  datatype JsNumber = NaN | Num(value: real)

  datatype ContractData = ContractData(title: Option<string>, amount: Option<JsNumber>, clientId: Option<int>)

  /** `!data.name || data.name.trim().length < 2` (the empty string is caught by the length). */
  predicate NameRejected(name: Option<string>) {
    name.None? || Utf16Length(Trim(name.value)) < 2
  }

  /** `data.email && !emailRegex.test(data.email)`: a missing or empty email is not checked. */
  predicate EmailRejected(email: Option<string>) {
    email.Some? && email.value != "" && !IsValidEmail(email.value)
  }

  /** `!data.title || data.title.trim().length < 3`. */
  predicate TitleRejected(title: Option<string>) {
    title.None? || Utf16Length(Trim(title.value)) < 3
  }

  /** `!data.amount || isNaN(data.amount) || data.amount <= 0`. */
  predicate AmountRejected(amount: Option<JsNumber>) {
    || amount.None? || amount.value == NaN || amount.value == Num(0.0)
    || amount.value.NaN?
    || amount.value.value <= 0.0
  }

  /** `!data.client_id`: missing, `null` or `0`. */
  predicate ClientRejected(clientId: Option<int>) {
    clientId.None? || clientId.value == 0
  }

  /** The amount test in plain words: missing, NaN, or not above zero. */
  lemma AmountRejectedMeans(amount: Option<JsNumber>)
    ensures AmountRejected(amount) <==> amount.None? || amount.value.NaN? || amount.value.value <= 0.0
  {
  }

  /** `validateClientData`. */
  method ValidateClientData(data: ClientData) returns (r: Verdict)
    ensures r.isValid <==> r.errors == []
    ensures NameMessage in r.errors <==> NameRejected(data.name)
    ensures EmailMessage in r.errors <==> EmailRejected(data.email)
    ensures forall e :: e in r.errors ==> e == NameMessage || e == EmailMessage
    ensures |r.errors| <= 2 && (|r.errors| == 2 ==> r.errors == [NameMessage, EmailMessage])
  {
    var errors := [];
    if data.name.None? || Utf16Length(Trim(data.name.value)) < 2 {
      errors := errors + [NameMessage];
    }
    if data.email.Some? && data.email.value != "" && !IsValidEmail(data.email.value) {
      errors := errors + [EmailMessage];
    }
    r := Verdict(|errors| == 0, errors);
  }

  /** Where a message stands in the order the contract checks run. */
  function ContractCheckRank(message: string): nat {
    if message == TitleMessage then 0 else if message == AmountMessage then 1 else 2
  }

  /** `validateContractData`. */
  method ValidateContractData(data: ContractData) returns (r: Verdict)
    ensures r.isValid <==> r.errors == []
    ensures TitleMessage in r.errors <==> TitleRejected(data.title)
    ensures AmountMessage in r.errors <==> AmountRejected(data.amount)
    ensures ClientMessage in r.errors <==> ClientRejected(data.clientId)
    ensures forall e :: e in r.errors ==> e == TitleMessage || e == AmountMessage || e == ClientMessage
    ensures |r.errors| <= 3
    ensures forall i, j :: 0 <= i < j < |r.errors| ==> ContractCheckRank(r.errors[i]) < ContractCheckRank(r.errors[j])
  {
    var errors := [];
    if data.title.None? || Utf16Length(Trim(data.title.value)) < 3 {
      errors := errors + [TitleMessage];
    }
    if data.amount.None? || data.amount.value == NaN || data.amount.value == Num(0.0)
      || data.amount.value.NaN? || data.amount.value.value <= 0.0
    {
      errors := errors + [AmountMessage];
    }
    if data.clientId.None? || data.clientId.value == 0 {
      errors := errors + [ClientMessage];
    }
    r := Verdict(|errors| == 0, errors);
  }

  /** The valid client record of the test suite passes both checks. */
  lemma ClientSampleValid(name: string, email: string)
    requires name == "John Doe" && email == "john@example.com"
    ensures !NameRejected(Some(name)) && !EmailRejected(Some(email))
  {
    TrimKeepsLength(name);
    MatchedAccepted(email, 4, 12);
  }

  /** The invalid client record of the test suite fails both checks; a missing or
      empty email is never checked. */
  lemma ClientSampleInvalid(email: string)
    requires email == "invalid-email"
    ensures NameRejected(Some("")) && EmailRejected(Some(email))
    ensures !EmailRejected(None) && !EmailRejected(Some(""))
  {
    assert '@' !in email;
  }

  /** The valid contract record of the test suite passes every check. */
  lemma ContractSampleValid(title: string)
    requires title == "Contrat Test"
    ensures !TitleRejected(Some(title)) && !AmountRejected(Some(Num(1000.0))) && !ClientRejected(Some(1))
  {
    TrimKeepsLength(title);
  }

  /** The invalid contract record of the test suite fails on its empty title and on
      its negative amount. */
  lemma ContractSampleInvalid()
    ensures TitleRejected(Some("")) && AmountRejected(Some(Num(-500.0)))
  {
  }
}
