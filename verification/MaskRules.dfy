/** What `redact_text` matches and writes, character by character: the four patterns of src/jibit/redaction.py
    spelled out, the mask of each, and what is left. */
module MaskRules {
  import opened PyValues
  import opened Masking
  import opened Scanning
  import opened Leftovers
  import opened FusedPasses

  // ----- The patterns spelled out -----

  predicate DigitHere(k: CharClasses, s: string, i: int) {
    0 <= i < |s| && k.digit(s[i])
  }

  predicate WordHere(k: CharClasses, s: string, i: int) {
    0 <= i < |s| && k.word(s[i])
  }

  /** The `n` characters from position `i` on are there, and digits. */
  predicate AllDigits(k: CharClasses, s: string, i: int, n: nat) {
    0 <= i && i + n <= |s| && forall j :: i <= j < i + n ==> k.digit(s[j])
  }

  /** An account number is the two letters and 24 digits, with no word character on either side. */
  lemma IbanExactly(k: CharClasses, s: string, i: nat)
    requires k.Valid() && i <= |s|
    ensures Matches(k, Iban, s, i) <==>
      && i + 26 <= |s| && k.letterI(s[i]) && k.letterR(s[i + 1]) && AllDigits(k, s, i + 2, 24)
      && !WordHere(k, s, i - 1) && !WordHere(k, s, i + 26)
    ensures Matches(k, Iban, s, i) ==> MatchEnd(k, Iban, s, i) == Some(i + 26)
  {
    if i + 26 <= |s| && AllDigits(k, s, i + 2, 24) {
      assert k.digit(s[i + 25]);
    }
  }

  /** Sixteen digits, each but the last followed by the next or by one blank or hyphen and the next, and then no
      digit. */
  predicate CardPositions(k: CharClasses, s: string, i: nat, p: seq<nat>) {
    && |p| > 0 && p[0] == i
    && (forall j :: 0 <= j < |p| ==> DigitHere(k, s, p[j]))
    && (forall j :: 0 <= j < |p| - 1 ==> Follows(s, p[j], p[j + 1]))
    && !DigitHere(k, s, p[|p| - 1] + 1)
  }

  predicate Follows(s: string, x: nat, y: nat) {
    y == x + 1 || (y == x + 2 && x + 1 < |s| && (s[x + 1] == ' ' || s[x + 1] == '-'))
  }

  lemma {:induction false} TailOfPositions(k: CharClasses, s: string, i: nat, p: seq<nat>)
    requires k.Valid() && CardPositions(k, s, i, p)
    ensures CardTail(k, s, i, |p|).Some?
    decreases |p|
  {
    assert DigitHere(k, s, p[0]);
    if |p| > 1 {
      assert Follows(s, p[0], p[1]);
      var rest := p[1..];
      assert CardPositions(k, s, p[1], rest) by {
        forall j | 0 <= j < |rest| ensures DigitHere(k, s, rest[j]) {
          assert rest[j] == p[j + 1];
        }
        forall j | 0 <= j < |rest| - 1 ensures Follows(s, rest[j], rest[j + 1]) {
          assert rest[j] == p[j + 1] && rest[j + 1] == p[j + 2] && Follows(s, p[j + 1], p[j + 2]);
        }
      }
      TailOfPositions(k, s, p[1], rest);
    }
  }

  lemma {:induction false} PositionsOfTail(k: CharClasses, s: string, i: nat, n: nat) returns (p: seq<nat>)
    requires k.Valid() && n > 0 && CardTail(k, s, i, n).Some?
    ensures |p| == n && CardPositions(k, s, i, p)
    decreases n
  {
    if n == 1 {
      p := [i];
    } else {
      var next := if SeparatorAt(s, i + 1) && CardTail(k, s, i + 2, n - 1).Some? then i + 2 else i + 1;
      var rest := PositionsOfTail(k, s, next, n - 1);
      p := [i] + rest;
      forall j | 0 <= j < |p| ensures DigitHere(k, s, p[j]) {
        assert j > 0 ==> p[j] == rest[j - 1] && DigitHere(k, s, rest[j - 1]);
      }
      forall j | 0 <= j < |p| - 1 ensures Follows(s, p[j], p[j + 1]) {
        assert p[j + 1] == rest[j];
        assert j > 0 ==> p[j] == rest[j - 1] && Follows(s, rest[j - 1], rest[j]);
      }
    }
  }

  lemma CardExactly(k: CharClasses, s: string, i: nat)
    requires k.Valid() && i <= |s|
    ensures Matches(k, Card, s, i) <==>
      !DigitHere(k, s, i - 1) && exists p :: |p| == 16 && CardPositions(k, s, i, p)
  {
    if Matches(k, Card, s, i) {
      var p := PositionsOfTail(k, s, i, 16);
    }
    if p :| |p| == 16 && CardPositions(k, s, i, p) {
      TailOfPositions(k, s, i, p);
    }
  }

  /** The prefix, a nine and nine digits, and then no digit. */
  predicate MobileWith(k: CharClasses, s: string, i: nat, prefix: string) {
    && i + |prefix| + 10 <= |s| && s[i..i + |prefix|] == prefix
    && s[i + |prefix|] == '9' && AllDigits(k, s, i + |prefix| + 1, 9) && !DigitHere(k, s, i + |prefix| + 10)
  }

  lemma SameAlternative(k: CharClasses, s: string, i: nat, prefix: string)
    ensures Alternative(k, s, i, prefix) <==> MobileWith(k, s, i, prefix)
  {
  }

  /** A mobile number is one of the prefixes, or none, with the ten digits behind it, and no digit before it. */
  lemma MobileExactly(k: CharClasses, s: string, i: nat)
    requires k.Valid() && i <= |s|
    ensures Matches(k, Mobile, s, i) <==>
      && !DigitHere(k, s, i - 1)
      && (MobileWith(k, s, i, "+98") || MobileWith(k, s, i, "0098") || MobileWith(k, s, i, "0")
          || MobileWith(k, s, i, ""))
  {
    hide MobileEnd, Alternative, MobileWith;
    if Matches(k, Mobile, s, i) {
      var prefix := MobileHasAlternative(k, s, i);
      SameAlternative(k, s, i, prefix);
    }
    forall prefix | prefix in {"+98", "0098", "0", ""} && MobileWith(k, s, i, prefix)
      ensures MobileEnd(k, s, i).Some?
    {
      SameAlternative(k, s, i, prefix);
      MobileByAlternative(k, s, i, prefix);
    }
  }

  /** A national identifier is ten digits, with no digit on either side. */
  lemma NationalIdExactly(k: CharClasses, s: string, i: nat)
    requires k.Valid() && i <= |s|
    ensures Matches(k, NationalId, s, i) <==>
      !DigitHere(k, s, i - 1) && AllDigits(k, s, i, 10) && !DigitHere(k, s, i + 10)
  {
  }

  // ----- What is left, spelled out -----

  lemma IdentifiesSomething(r: string)
    ensures |r| == 16 || |r| == 10 ==> IdentifierRun(r)
    ensures |r| == 11 && r[0] == '0' && r[1] == '9' ==> IdentifierRun(r)
    ensures |r| == 14 && r[0] == '0' && r[1] == '0' && r[2] == '9' && r[3] == '8' && r[4] == '9' ==> IdentifierRun(r)
  {
    if |r| == 11 && r[0] == '0' && r[1] == '9' {
      assert r[..2] == "09";
    }
    if |r| == 14 && r[0] == '0' && r[1] == '0' && r[2] == '9' && r[3] == '8' && r[4] == '9' {
      assert r[..5] == "00989";
    }
  }

  /** No digit run left has a length or a beginning that identifies a card, a mobile number or a person. */
  lemma RunsLeft(k: CharClasses, s: string, a: nat, b: nat)
    requires k.Valid() && a < b <= |RedactText(k, s)|
    requires AllDigits(k, RedactText(k, s), a, b - a)
    requires !DigitHere(k, RedactText(k, s), a - 1) && !DigitHere(k, RedactText(k, s), b)
    ensures
      var r := RedactText(k, s)[a..b];
      && |r| != 16 && |r| != 10
      && !(|r| == 11 && r[0] == '0' && r[1] == '9')
      && !(|r| == 14 && r[0] == '0' && r[1] == '0' && r[2] == '9' && r[3] == '8' && r[4] == '9')
  {
    RedactTextLeavesNoIdentifier(k, s);
    hide RedactText, IdentifierRun, CharClasses.Valid;
    assert MaximalRun(k, RedactText(k, s), a, b);
    IdentifiesSomething(RedactText(k, s)[a..b]);
  }

  // ----- The masks -----

  /** Text without a match of any pattern stays as it is. */
  lemma PlainTextStays(k: CharClasses, s: string)
    requires forall q, i: nat :: i < |s| ==> !Matches(k, q, s, i)
    ensures RedactText(k, s) == s
  {
    hide MatchEnd;
    assert s[0..] == s;
    NoMatchCopies(k, Iban, s, 0);
    NoMatchCopies(k, Card, s, 0);
    NoMatchCopies(k, Mobile, s, 0);
    NoMatchCopies(k, NationalId, s, 0);
  }

  /** A mask and four digits match nothing. */
  lemma MaskStays(k: CharClasses, p: Pattern, four: string, q: Pattern)
    requires k.Valid() && |four| == 4 && DigitsAt(k, four, 0, 4)
    ensures Sub(k, q, Mask(p) + four) == Mask(p) + four
  {
    hide MatchEnd, Mask;
    var u := Mask(p) + four;
    assert u == "" + (Mask(p) + four + "");
    forall j: nat | j < |u| ensures !Matches(k, q, u, j) {
      ReplacementStart(k, p, q, "", four, "", j);
    }
    NoMatchCopies(k, q, u, 0);
    assert u[0..] == u;
  }

  /** A text that one pass matches as a whole, and no pass before it matches anywhere, becomes the mask and what is
      readable. */
  lemma WholeMatch(k: CharClasses, p: Pattern, s: string)
    requires k.Valid() && s != "" && Matches(k, p, s, 0) && MatchEnd(k, p, s, 0) == Some(|s|)
    ensures Sub(k, p, s) == Mask(p) + Readable(k, p, s)
    ensures |Readable(k, p, s)| == 4 && DigitsAt(k, Readable(k, p, s), 0, 4)
  {
    MatchShape(k, p, s, 0);
    SubUnfolds(k, p, s, 0);
    assert s[0..|s|] == s;
    NothingToSubstitute(k, p, s);
    hide MatchEnd, Readable, Mask, SubFrom;
    assert Mask(p) + Readable(k, p, s) + "" == Mask(p) + Readable(k, p, s);
  }

  lemma NoneBefore(k: CharClasses, q: Pattern, s: string)
    requires forall i: nat :: i < |s| ==> !Matches(k, q, s, i)
    ensures Sub(k, q, s) == s
  {
    hide MatchEnd;
    NoMatchCopies(k, q, s, 0);
    assert s[0..] == s;
  }

  /** An account number alone. */
  lemma IbanMasked(k: CharClasses, s: string)
    requires k.Valid() && |s| == 26 && k.letterI(s[0]) && k.letterR(s[1]) && AllDigits(k, s, 2, 24)
    ensures RedactText(k, s) == "IR********************" + s[22..]
  {
    IbanExactly(k, s, 0);
    WholeMatch(k, Iban, s);
    assert Mask(Iban) == "IR********************";
    assert Readable(k, Iban, s) == s[22..];
    hide Mask, MatchEnd, Readable, SubFrom;
    MaskStays(k, Iban, s[22..], Card);
    MaskStays(k, Iban, s[22..], Mobile);
    MaskStays(k, Iban, s[22..], NationalId);
    hide Sub;
  }

  /** A card number alone, with its separators: the last four of its digits stay readable. */
  lemma CardMaskedAlone(k: CharClasses, s: string)
    requires k.Valid() && |s| > 0 && CardTail(k, s, 0, 16) == Some(|s|)
    ensures |OnlyDigits(k, s)| >= 4
    ensures RedactText(k, s) == "************" + OnlyDigits(k, s)[|OnlyDigits(k, s)| - 4..]
  {
    var four := Readable(k, Card, s);
    CardHasDigits(k, s, 0, 16);
    assert s[0..|s|] == s;
    assert OnlyDigits(k, s)[|OnlyDigits(k, s)| - 4..] == LastFour(OnlyDigits(k, s));
    NoIbanInCard(k, s, 0, 16);
    NoneBefore(k, Iban, s);
    WholeMatch(k, Card, s);
    assert Mask(Card) == "************";
    hide Mask, MatchEnd, Readable, SubFrom, CardTail, OnlyDigits;
    MaskStays(k, Card, four, Mobile);
    MaskStays(k, Card, four, NationalId);
    hide Sub;
  }

  /** A card match consists of digits and separators. */
  lemma {:induction false} NoIbanInCard(k: CharClasses, s: string, i: nat, n: nat)
    requires k.Valid() && CardTail(k, s, i, n) == Some(|s|)
    ensures forall j: nat :: i <= j < |s| ==> !Matches(k, Iban, s, j)
    ensures forall j: nat :: i <= j < |s| ==> k.digit(s[j]) || s[j] == ' ' || s[j] == '-'
    decreases n
  {
    if n > 0 {
      if SeparatorAt(s, i + 1) && CardTail(k, s, i + 2, n - 1).Some? {
        NoIbanInCard(k, s, i + 2, n - 1);
      } else {
        NoIbanInCard(k, s, i + 1, n - 1);
      }
      hide CardTail;
    }
  }

  /** A mobile number alone, with any of the prefixes. */
  lemma MobileMasked(k: CharClasses, s: string, prefix: string)
    requires k.Valid() && prefix in {"+98", "0098", "0", ""} && MobileWith(k, s, 0, prefix) && |s| == |prefix| + 10
    ensures RedactText(k, s) == "*******" + s[|s| - 4..]
  {
    SameAlternative(k, s, 0, prefix);
    MobileByAlternative(k, s, 0, prefix);
    AlternativeHead(k, s, 0, prefix);
    assert Readable(k, Mobile, s) == s[|s| - 4..];
    assert Mask(Mobile) == "*******";
    NoLongMatch(k, s);
    hide Mask, MatchEnd, Readable, SubFrom, MobileWith;
    NoneBefore(k, Iban, s);
    NoneBefore(k, Card, s);
    WholeMatch(k, Mobile, s);
    MaskStays(k, Mobile, s[|s| - 4..], NationalId);
    hide Sub;
  }

  /** Short texts hold no account number and no card number. */
  lemma NoLongMatch(k: CharClasses, s: string)
    requires |s| < 16
    ensures forall i: nat :: i < |s| ==> !Matches(k, Iban, s, i) && !Matches(k, Card, s, i)
  {
  }

  /** A national identifier alone, unless it reads as a mobile number. */
  lemma NationalIdMasked(k: CharClasses, s: string)
    requires k.Valid() && |s| == 10 && AllDigits(k, s, 0, 10) && s[0] != '9'
    ensures RedactText(k, s) == "******" + s[6..]
  {
    NoLongMatch(k, s);
    forall i: nat | i < |s| ensures !Matches(k, Mobile, s, i) {
      MobileExactly(k, s, i);
      if i > 0 {
        assert DigitHere(k, s, i - 1);
      } else {
        assert !MobileWith(k, s, i, "+98") && !MobileWith(k, s, i, "0098") && !MobileWith(k, s, i, "0");
      }
    }
    NationalIdExactly(k, s, 0);
    assert MatchEnd(k, NationalId, s, 0) == Some(10);
    assert Readable(k, NationalId, s) == s[6..];
    assert Mask(NationalId) == "******";
    hide Mask, MatchEnd, Readable, SubFrom;
    NoneBefore(k, Iban, s);
    NoneBefore(k, Card, s);
    NoneBefore(k, Mobile, s);
    WholeMatch(k, NationalId, s);
    hide Sub;
  }
}
