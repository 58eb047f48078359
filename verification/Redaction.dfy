/** `redact` of src/jibit/redaction.py on arbitrarily nested values. */
module Redaction {
  import opened PyValues
  import opened KeyNames
  import opened Masking
  import opened Scanning
  import opened Leftovers
  import opened MaskRules

  const REDACTED := "[REDACTED]"

  const SENSITIVE_KEY_PARTS: seq<string> := [
    "access_token", "authorization", "account", "birth_date", "batch_id", "card", "client_secret", "credential",
    "cvv", "identity", "message", "iban", "image", "kyc", "national_id", "national_code", "fida", "face", "file",
    "media", "mobile", "receptor", "payment_id", "otp", "password", "refresh_token", "secret", "signed_document",
    "signer", "signature", "transfer_id", "token", "video"]

  /** The names that make a key sensitive. */
  lemma ListedNames()
    ensures SENSITIVE_KEY_PARTS == [
      "access_token", "authorization", "account", "birth_date", "batch_id", "card", "client_secret", "credential",
      "cvv", "identity", "message", "iban", "image", "kyc", "national_id", "national_code", "fida", "face", "file",
      "media", "mobile", "receptor", "payment_id", "otp", "password", "refresh_token", "secret", "signed_document",
      "signer", "signature", "transfer_id", "token", "video"]
  {
  }

  /** A snake-case key is sensitive with any of the names anywhere in it. */
  lemma KeysAroundNamesAreSensitive(i: nat, before: string, after: string)
    requires i < |SENSITIVE_KEY_PARTS| && SnakeName(before) && SnakeName(after)
    ensures IsSensitiveKey(before + SENSITIVE_KEY_PARTS[i] + after)
  {
    SensitivePartsAreShaped();
    hide SENSITIVE_KEY_PARTS;
    var name := SENSITIVE_KEY_PARTS[i];
    assert PartShape(name);
    PartIsSnake(name);
    var key := before + name + after;
    SnakeNamesAreNormal(key, 0);
    ContainedInside(before, name, after);
    assert NormalizeKey(key) == key;
    hide NormalizeFrom, Contains;
  }

  lemma PartIsSnake(part: string)
    requires PartShape(part)
    ensures SnakeName(part)
  {
    forall i | 0 <= i < |part| ensures IsLower(part[i]) || IsDecimal(part[i]) || part[i] == '_' {
      assert LetterOrUnderscore(part, i);
    }
  }

  lemma {:induction false} ContainedInside(before: string, part: string, after: string)
    ensures Contains(before + part + after, part)
  {
    if before == "" {
      assert before + part + after == part + after;
    } else {
      assert (before + part + after)[1..] == before[1..] + part + after;
      ContainedInside(before[1..], part, after);
    }
  }

  predicate Contains(text: string, part: string) {
    part <= text || (text != "" && Contains(text[1..], part))
  }

  predicate IsSensitiveKey(key: string) {
    exists i :: 0 <= i < |SENSITIVE_KEY_PARTS| && Contains(NormalizeKey(key), SENSITIVE_KEY_PARTS[i])
  }

  // ----- Fields and their aliases -----

  /** The shape of the sensitive parts: lower-case letters, and underscores only before one; at the start, two
      letters. */
  predicate LettersBehindUnderscores(part: string) {
    forall i: nat :: i < |part| ==> LetterOrUnderscore(part, i)
  }

  predicate LetterOrUnderscore(part: string, i: nat)
    requires i < |part|
  {
    IsLower(part[i]) || (part[i] == '_' && i + 1 < |part| && IsLower(part[i + 1]))
  }

  predicate PartShape(part: string) {
    |part| >= 2 && IsLower(part[0]) && IsLower(part[1]) && LettersBehindUnderscores(part)
  }

  lemma PartsBefore9(i: nat)
    requires i < 9
    ensures PartShape(SENSITIVE_KEY_PARTS[i])
  {
  }

  lemma PartsBefore19(i: nat)
    requires 9 <= i < 19
    ensures PartShape(SENSITIVE_KEY_PARTS[i])
  {
  }

  lemma PartsBefore26(i: nat)
    requires 19 <= i < 26
    ensures PartShape(SENSITIVE_KEY_PARTS[i])
  {
  }

  lemma PartsFrom26(i: nat)
    requires 26 <= i < |SENSITIVE_KEY_PARTS|
    ensures PartShape(SENSITIVE_KEY_PARTS[i])
  {
  }

  lemma SensitivePartsAreShaped()
    ensures forall i :: 0 <= i < |SENSITIVE_KEY_PARTS| ==> PartShape(SENSITIVE_KEY_PARTS[i])
  {
    hide PartShape;
    forall i | 0 <= i < |SENSITIVE_KEY_PARTS| ensures PartShape(SENSITIVE_KEY_PARTS[i]) {
      if i < 9 {
        PartsBefore9(i);
      } else if i < 19 {
        PartsBefore19(i);
      } else if i < 26 {
        PartsBefore26(i);
      } else {
        PartsFrom26(i);
      }
    }
  }

  predicate NoDoubleUnderscore(name: string) {
    forall i :: 0 <= i < |name| - 1 ==> !(name[i] == '_' && name[i + 1] == '_')
  }

  lemma ShapeOfTail(part: string)
    requires LettersBehindUnderscores(part) && part != ""
    ensures LettersBehindUnderscores(part[1..])
    ensures part[0] == '_' ==> |part| > 1 && IsLower(part[1])
    ensures IsLower(part[0]) || part[0] == '_'
  {
    assert LetterOrUnderscore(part, 0);
    forall i: nat | i < |part[1..]| ensures LetterOrUnderscore(part[1..], i) {
      assert LetterOrUnderscore(part, i + 1);
    }
  }

  lemma {:induction false} SquashKeepsPrefix(name: string, part: string)
    requires LettersBehindUnderscores(part) && part <= name
    ensures part <= Squash(name, false)
  {
    if part != "" {
      ShapeOfTail(part);
      assert part[1..] <= name[1..];
      SquashKeepsPrefix(name[1..], part[1..]);
      assert part == [part[0]] + part[1..];
    }
  }

  lemma {:induction false} SquashAddsNoPrefix(name: string, part: string)
    requires SnakeName(name) && NoDoubleUnderscore(name)
    requires LettersBehindUnderscores(part) && part <= Squash(name, false)
    ensures part <= name
  {
    if part != "" {
      ShapeOfTail(part);
      SquashAddsNoPrefix(name[1..], part[1..]);
    }
  }

  lemma {:induction false} SquashKeepsParts(name: string, first: bool, part: string)
    requires PartShape(part) && Contains(name, part)
    ensures Contains(Squash(name, first), part)
  {
    if part <= name {
      ShapeOfTail(part);
      SquashKeepsPrefix(name[1..], part[1..]);
      assert part == [part[0]] + part[1..];
    } else {
      SquashKeepsParts(name[1..], if name[0] == '_' then first else false, part);
      SquashKeepsParts(name[1..], false, part);
    }
  }

  lemma {:induction false} SquashAddsNoParts(name: string, first: bool, part: string)
    requires SnakeName(name) && NoDoubleUnderscore(name)
    requires PartShape(part) && Contains(Squash(name, first), part)
    ensures Contains(name, part)
  {
    if name != "" {
      if name[0] == '_' && (first || |name| == 1 || !IsLower(name[1])) {
        SquashAddsNoParts(name[1..], first, part);
      } else {
        var kept := Squash(name[1..], false);
        assert ([name[0]] + kept)[1..] == kept;
        if part <= [name[0]] + kept {
          assert part[1..] <= kept;
          ShapeOfTail(part);
          SquashAddsNoPrefix(name[1..], part[1..]);
          assert part == [part[0]] + part[1..] && name == [name[0]] + name[1..];
        } else {
          SquashAddsNoParts(name[1..], false, part);
        }
      }
    }
  }

  /** The alias of a sensitive field is sensitive, whatever the snake-case name; and the alias of a name without two
      underscores in a row is sensitive only if the field is. */
  lemma AliasIsEquallySensitive(name: string)
    requires SnakeName(name)
    ensures IsSensitiveKey(name) ==> IsSensitiveKey(ToCamel(name))
    ensures NoDoubleUnderscore(name) ==> (IsSensitiveKey(ToCamel(name)) <==> IsSensitiveKey(name))
  {
    hide NormalizeKey, ToCamel, Squash, Contains, PartShape, SENSITIVE_KEY_PARTS;
    AliasIsSquashed(name);
    SnakeNamesAreNormal(name, 0);
    assert NormalizeKey(name) == name by { NormalIsFromStart(name); }
    SensitivePartsAreShaped();
    forall i | 0 <= i < |SENSITIVE_KEY_PARTS|
      ensures Contains(name, SENSITIVE_KEY_PARTS[i]) ==> Contains(Squash(name, true), SENSITIVE_KEY_PARTS[i])
      ensures NoDoubleUnderscore(name) && Contains(Squash(name, true), SENSITIVE_KEY_PARTS[i])
        ==> Contains(name, SENSITIVE_KEY_PARTS[i])
    {
      if Contains(name, SENSITIVE_KEY_PARTS[i]) {
        SquashKeepsParts(name, true, SENSITIVE_KEY_PARTS[i]);
      } else if NoDoubleUnderscore(name) && Contains(Squash(name, true), SENSITIVE_KEY_PARTS[i]) {
        SquashAddsNoParts(name, true, SENSITIVE_KEY_PARTS[i]);
      }
    }
  }

  lemma NormalIsFromStart(key: string)
    ensures NormalizeKey(key) == NormalizeFrom(key, 0)
  {
  }

  // ----- Keys in capitals -----

  lemma PartIsNotSpread(text: string, part: string)
    requires PartShape(part) && part <= text
    ensures !Spread(text)
  {
    assert IsLower(text[0]) && IsLower(text[1]);
  }

  lemma {:induction false} SpreadHasNoPart(text: string, part: string)
    requires Spread(text) && PartShape(part)
    ensures !Contains(text, part)
  {
    if text != "" {
      SpreadHasNoPart(text[1..], part);
      if part <= text {
        PartIsNotSpread(text, part);
      }
    }
  }

  /** A key without lower-case letters is never sensitive, so a key written in capitals loses its sensitivity. */
  lemma CapitalsAreNeverSensitive(key: string)
    requires forall i :: 0 <= i < |key| ==> !IsLower(key[i])
    ensures !IsSensitiveKey(key)
  {
    CapitalsAreSpread(key, 0);
    SensitivePartsAreShaped();
    hide SENSITIVE_KEY_PARTS, NormalizeFrom, Contains, Spread, PartShape;
    forall i | 0 <= i < |SENSITIVE_KEY_PARTS| ensures !Contains(NormalizeKey(key), SENSITIVE_KEY_PARTS[i]) {
      SpreadHasNoPart(NormalizeKey(key), SENSITIVE_KEY_PARTS[i]);
    }
  }

  function UpperAll(key: string): string {
    seq(|key|, i requires 0 <= i < |key| => Upper(key[i]))
  }

  /** Writing a sensitive key in capitals never keeps it sensitive; capitalising its first letter always does. */
  lemma CapitalisingKey(key: string)
    ensures !IsSensitiveKey(UpperAll(key))
    ensures key != "" && IsLower(key[0]) ==> (IsSensitiveKey([Upper(key[0])] + key[1..]) <==> IsSensitiveKey(key))
  {
    CapitalsAreNeverSensitive(UpperAll(key));
    if key != "" {
      FirstCapitalIsNormal(key[0], key[1..]);
      assert [key[0]] + key[1..] == key;
    }
    hide NormalizeKey, Contains, SENSITIVE_KEY_PARTS;
  }

  /** A one-time password is recognised under its lower-case key and not under the same key in capitals. */
  lemma OtpInCapitals()
    ensures IsSensitiveKey("otp") && !IsSensitiveKey("OTP")
  {
    SnakeNamesAreNormal("otp", 0);
    assert SENSITIVE_KEY_PARTS[23] == "otp";
    assert Contains(NormalizeKey("otp"), SENSITIVE_KEY_PARTS[23]);
    CapitalsAreNeverSensitive("OTP");
  }

  // ----- Values -----

  /** A payload. A mapping lists its items in order, each key as the text `str` gives for it; anything that is
      neither a scalar, bytes, mapping nor sequence is represented by its text. */
  datatype Payload =
    | Null
    | Truth(b: bool)
    | Whole(n: int)
    | Fraction(x: real)
    | Text(s: string)
    | Bytes(length: nat)
    | Mapping(items: seq<Item>)
    | Sequence(elements: seq<Payload>)
    | Other(text: string)

  datatype Item = Item(key: string, value: Payload)

  /** A logging-safe copy. */
  datatype Safe =
    | SafeNull
    | SafeTruth(b: bool)
    | SafeWhole(n: int)
    | SafeFraction(x: real)
    | SafeText(s: string)
    | SafeDict(fields: map<string, Safe>)
    | SafeList(elements: seq<Safe>)

  function Digit(d: int): char
    requires 0 <= d < 10
  {
    ('0' as int + d) as char
  }

  function Decimal(n: nat): string {
    if n < 10 then [Digit(n)] else Decimal(n / 10) + [Digit(n % 10)]
  }

  /** Both recursions descend into the payload; a mapping is built item by item, so that the last of two items
      with the same key text stands. */
  function Redact(k: CharClasses, v: Payload): Safe
    decreases v, 0
  {
    match v
    case Null => SafeNull
    case Truth(b) => SafeTruth(b)
    case Whole(n) => SafeWhole(n)
    case Fraction(x) => SafeFraction(x)
    case Text(s) => SafeText(RedactText(k, s))
    case Bytes(length) => SafeText("[BINARY:" + Decimal(length) + " bytes]")
    case Mapping(items) => SafeDict(RedactItems(k, v, |items|))
    case Sequence(elements) => SafeList(seq(|elements|, i requires 0 <= i < |elements| => Redact(k, elements[i])))
    case Other(text) => SafeText(RedactText(k, text))
  }

  function RedactField(k: CharClasses, key: string, v: Payload): Safe
    decreases v, 1
  {
    if IsSensitiveKey(key) then SafeText(REDACTED) else Redact(k, v)
  }

  /** The dictionary built from the first `n` items. */
  function RedactItems(k: CharClasses, v: Payload, n: nat): map<string, Safe>
    requires v.Mapping? && n <= |v.items|
    decreases v, 0, n
  {
    if n == 0 then map[]
    else
      var item := v.items[n - 1];
      RedactItems(k, v, n - 1)[item.key := RedactField(k, item.key, item.value)]
  }

  // ----- Non-interference -----

  /** Equal except for what is stored under sensitive keys, at any depth. */
  predicate AgreeOutsideSecrets(v: Payload, u: Payload)
    decreases v
  {
    match v
    case Mapping(items) =>
      && u.Mapping?
      && |items| == |u.items|
      && (forall i :: 0 <= i < |items| ==> items[i].key == u.items[i].key)
      && (forall i :: 0 <= i < |items| ==>
            IsSensitiveKey(items[i].key) || AgreeOutsideSecrets(items[i].value, u.items[i].value))
    case Sequence(elements) =>
      && u.Sequence?
      && |elements| == |u.elements|
      && (forall i :: 0 <= i < |elements| ==> AgreeOutsideSecrets(elements[i], u.elements[i]))
    case _ => v == u
  }

  /** Payloads that differ only in values under sensitive keys cannot be told apart after redaction. */
  lemma {:induction false} SecretsDoNotShow(k: CharClasses, v: Payload, u: Payload)
    requires AgreeOutsideSecrets(v, u)
    ensures Redact(k, v) == Redact(k, u)
    decreases v, 1
  {
    match v {
      case Mapping(items) =>
        SecretsDoNotShowInItems(k, v, u, |items|);
      case Sequence(elements) =>
        forall i | 0 <= i < |elements| ensures Redact(k, elements[i]) == Redact(k, u.elements[i]) {
          SecretsDoNotShow(k, elements[i], u.elements[i]);
        }
        assert Redact(k, v).elements == Redact(k, u).elements;
      case _ =>
    }
  }

  lemma {:induction false} SecretsDoNotShowInItems(k: CharClasses, v: Payload, u: Payload, n: nat)
    requires v.Mapping? && u.Mapping? && AgreeOutsideSecrets(v, u) && n <= |v.items|
    ensures RedactItems(k, v, n) == RedactItems(k, u, n)
    decreases v, 0, n
  {
    if n > 0 {
      SecretsDoNotShowInItems(k, v, u, n - 1);
      if !IsSensitiveKey(v.items[n - 1].key) {
        SecretsDoNotShow(k, v.items[n - 1].value, u.items[n - 1].value);
      }
    }
  }

  // ----- Shape -----

  /** Some of the first `n` items has this key. */
  predicate HasKey(items: seq<Item>, n: nat, key: string)
    requires n <= |items|
  {
    exists i :: 0 <= i < n && items[i].key == key
  }

  /** No item after this one, among the first `n`, has its key. */
  predicate IsLast(items: seq<Item>, n: nat, i: nat)
    requires i < n <= |items|
  {
    forall j :: i < j < n ==> items[j].key != items[i].key
  }

  /** The copy of a text: no digit run of it identifies a card, a mobile number or a person, every digit run is four
      digits or one of the text in full, no pattern matches it but for cards behind a mask, and text that no pattern
      matches is kept. */
  ghost predicate CleanCopy(k: CharClasses, s: string, r: string) {
    && NoBadRun(k, IdentifierRun, r)
    && RunsKeptOrFour(k, s, r)
    && (forall q :: Gone(k, q, r))
    && ((forall q, i: nat :: i < |s| ==> !Matches(k, q, s, i)) ==> r == s)
    && (|s| == 26 && k.letterI(s[0]) && k.letterR(s[1]) && AllDigits(k, s, 2, 24) ==>
          r == "IR********************" + s[22..])
    && (|s| == 16 && AllDigits(k, s, 0, 16) ==> r == "************" + s[12..])
    && (|s| == 10 && AllDigits(k, s, 0, 10) && s[0] != '9' ==> r == "******" + s[6..])
  }

  /** The value of a decimal numeral. */
  function NumeralValue(s: string): int {
    if s == "" then 0 else 10 * NumeralValue(s[..|s| - 1]) + (s[|s| - 1] as int - '0' as int)
  }

  /** The numeral of a number: decimal digits, without a zero in front unless it is the only one. */
  predicate IsNumeralOf(s: string, n: nat) {
    && s != "" && (forall i :: 0 <= i < |s| ==> '0' <= s[i] <= '9')
    && (|s| > 1 ==> s[0] != '0')
    && NumeralValue(s) == n
  }

  /** Outside redacted subtrees the copy has the keys, the list lengths and the scalars of the original, and clean
      copies of its texts; bytes are replaced by their number. */
  ghost predicate SameShape(k: CharClasses, v: Payload, r: Safe)
    decreases v
  {
    match v
    case Null => r == SafeNull
    case Truth(b) => r == SafeTruth(b)
    case Whole(n) => r == SafeWhole(n)
    case Fraction(x) => r == SafeFraction(x)
    case Mapping(items) =>
      && r.SafeDict?
      && (forall key :: key in r.fields <==> HasKey(items, |items|, key))
      && (forall i :: 0 <= i < |items| && IsLast(items, |items|, i) ==>
            if IsSensitiveKey(items[i].key) then r.fields[items[i].key] == SafeText("[REDACTED]")
            else SameShape(k, items[i].value, r.fields[items[i].key]))
    case Sequence(elements) =>
      && r.SafeList?
      && |r.elements| == |elements|
      && (forall i :: 0 <= i < |elements| ==> SameShape(k, elements[i], r.elements[i]))
    case Text(s) => r.SafeText? && (k.Valid() ==> CleanCopy(k, s, r.s))
    case Other(text) => r.SafeText? && (k.Valid() ==> CleanCopy(k, text, r.s))
    case Bytes(length) =>
      exists numeral :: IsNumeralOf(numeral, length) && r == SafeText("[BINARY:" + numeral + " bytes]")
  }

  lemma {:induction false} DecimalIsNumeral(n: nat)
    ensures IsNumeralOf(Decimal(n), n)
  {
    if n >= 10 {
      DecimalIsNumeral(n / 10);
      var front := Decimal(n / 10);
      assert Decimal(n)[..|Decimal(n)| - 1] == front;
      if |front| == 1 {
        assert front[..0] == "";
        assert NumeralValue(front) == front[0] as int - '0' as int;
      }
    } else {
      assert Decimal(n)[..0] == "";
    }
  }

  lemma TextIsClean(k: CharClasses, s: string)
    requires k.Valid()
    ensures CleanCopy(k, s, RedactText(k, s))
  {
    RedactTextLeavesNoIdentifier(k, s);
    RedactTextKeepsRuns(k, s);
    forall q ensures Gone(k, q, RedactText(k, s)) {
      RedactTextLeavesNoMatch(k, s, q);
    }
    if forall q, i: nat :: i < |s| ==> !Matches(k, q, s, i) {
      PlainTextStays(k, s);
    }
    if |s| == 26 && k.letterI(s[0]) && k.letterR(s[1]) && AllDigits(k, s, 2, 24) {
      IbanMasked(k, s);
    }
    if |s| == 16 && AllDigits(k, s, 0, 16) {
      DigitsAreCard(k, s, 0);
      CardMaskedAlone(k, s);
      DigitsStay(k, s);
    }
    if |s| == 10 && AllDigits(k, s, 0, 10) && s[0] != '9' {
      NationalIdMasked(k, s);
    }
    hide RedactText, NoBadRun, RunsKeptOrFour, Gone, MatchEnd, OnlyDigits;
  }

  lemma {:induction false} DigitsAreCard(k: CharClasses, s: string, i: nat)
    requires k.Valid() && |s| == 16 && AllDigits(k, s, 0, 16) && i <= 16
    ensures CardTail(k, s, i, 16 - i) == Some(16)
    decreases 16 - i
  {
    if i < 16 {
      DigitsAreCard(k, s, i + 1);
    }
  }

  /** The dictionary of the first `n` items has exactly their keys. */
  lemma {:induction false} KeysOfItems(k: CharClasses, v: Payload, n: nat, key: string)
    requires v.Mapping? && n <= |v.items|
    ensures key in RedactItems(k, v, n) <==> HasKey(v.items, n, key)
    decreases n
  {
    if n > 0 {
      KeysOfItems(k, v, n - 1, key);
    }
  }

  /** The last item of a key decides its value. */
  lemma {:induction false} LastItemStands(k: CharClasses, v: Payload, n: nat, i: nat)
    requires v.Mapping? && i < n <= |v.items| && IsLast(v.items, n, i)
    ensures v.items[i].key in RedactItems(k, v, n)
    ensures RedactItems(k, v, n)[v.items[i].key] == RedactField(k, v.items[i].key, v.items[i].value)
    decreases n
  {
    hide RedactField;
    if i < n - 1 {
      assert v.items[n - 1].key != v.items[i].key;
      LastItemStands(k, v, n - 1, i);
    }
  }

  lemma {:induction false} RedactKeepsShape(k: CharClasses, v: Payload)
    ensures SameShape(k, v, Redact(k, v))
    decreases v
  {
    hide CleanCopy, RedactText;
    match v {
      case Mapping(items) =>
        forall key ensures key in Redact(k, v).fields <==> HasKey(items, |items|, key) {
          KeysOfItems(k, v, |items|, key);
        }
        forall i | 0 <= i < |items| && IsLast(items, |items|, i)
          ensures items[i].key in Redact(k, v).fields
          ensures Redact(k, v).fields[items[i].key] == RedactField(k, items[i].key, items[i].value)
          ensures SameShape(k, items[i].value, Redact(k, items[i].value))
        {
          LastItemStands(k, v, |items|, i);
          RedactKeepsShape(k, items[i].value);
        }
      case Sequence(elements) =>
        forall i | 0 <= i < |elements| ensures SameShape(k, elements[i], Redact(k, elements[i])) {
          RedactKeepsShape(k, elements[i]);
        }
      case Text(s) =>
        if k.Valid() {
          TextIsClean(k, s);
        }
      case Other(text) =>
        if k.Valid() {
          TextIsClean(k, text);
        }
      case Bytes(length) =>
        DecimalIsNumeral(length);
      case _ =>
    }
  }
}
