/** What the four passes of `redact_text` leave: none of the patterns matches its own output, nor that of a later pass,
    except for card numbers that begin with the four readable digits of a mask. */
module Leftovers {
  import opened PyValues
  import opened Masking
  import opened Scanning

  /** A card number that begins with four digits and a separator right behind a star, as a mask does with what
      follows. */
  predicate BehindStar(k: CharClasses, q: Pattern, s: string, i: nat)
    requires i <= |s|
  {
    q == Card && i > 0 && s[i - 1] == '*' && DigitsAt(k, s, i, 4) && SeparatorAt(s, i + 4)
  }

  /** The pattern matches nowhere, except for such card numbers. */
  ghost predicate Gone(k: CharClasses, q: Pattern, s: string) {
    forall i: nat :: i <= |s| && Matches(k, q, s, i) ==> BehindStar(k, q, s, i)
  }

  /** Whatever the scan copies: a pattern that matches nothing but such card numbers before it, or is the first of
      the scan, matches nothing else in its output. */
  lemma {:induction false} ScanLeaves(k: CharClasses, ps: seq<Pattern>, q: Pattern, s: string, i: nat, behind: bool,
      before: string, j: nat)
    requires k.Valid() && i <= |s| && Joined(k, before, s, i, behind)
    requires (ps != [] && ps[0] == q) || Gone(k, q, s)
    requires |before| <= j <= |before + ScanFrom(k, ps, s, i, behind)|
    ensures
      var u := before + ScanFrom(k, ps, s, i, behind);
      Matches(k, q, u, j) ==> BehindStar(k, q, u, j)
    decreases |s| - i
  {
    hide Scan, MatchEnd, Mask, Readable, ScanFrom, Copied;
    var u := before + ScanFrom(k, ps, s, i, behind);
    if j == |u| {
      assert !Matches(k, q, u, j) by { NoMatchAtEnd(k, q, u); }
    } else if i == |s| {
      NothingLeft(k, ps, s, behind);
    } else if Scan(k, ps, s, i, behind).Some? {
      var h := Scan(k, ps, s, i, behind).value;
      BehindReplacement(k, ps, s, i, behind, before);
      if j < |before| + |Mask(h.pattern)| + 4 {
        ReplacedStart(k, ps, q, s, i, behind, before, j);
      } else {
        ScanLeaves(k, ps, q, s, h.end, true, before + Replacement(k, h, s, i), j);
      }
    } else {
      BehindCopy(k, ps, s, i, behind, before);
      if j > |before| {
        ScanLeaves(k, ps, q, s, i + 1, false, before + [s[i]], j);
      } else if Matches(k, q, u, j) {
        CopiedStart(k, ps, q, s, i, behind, before);
        StarIsCopied(k, ps, q, s, i, behind, before);
      }
    }
  }

  lemma NoMatchAtEnd(k: CharClasses, q: Pattern, u: string)
    ensures !Matches(k, q, u, |u|)
  {
  }

  lemma ReplacedStart(k: CharClasses, ps: seq<Pattern>, q: Pattern, s: string, i: nat, behind: bool, before: string,
      j: nat)
    requires k.Valid() && i < |s| && Scan(k, ps, s, i, behind).Some?
    requires |before| <= j < |before| + |Mask(Scan(k, ps, s, i, behind).value.pattern)| + 4
    ensures
      var h := Scan(k, ps, s, i, behind).value;
      var u := before + ScanFrom(k, ps, s, i, behind);
      && j <= |u|
      && (Matches(k, q, u, j) ==> BehindStar(k, q, u, j) && j == |before| + |Mask(h.pattern)|)
  {
    hide Scan, MatchEnd, Mask, Readable, ScanFrom, Copied;
    var h := Scan(k, ps, s, i, behind).value;
    var four := Readable(k, h.pattern, s[i..h.end]);
    BehindReplacement(k, ps, s, i, behind, before);
    HitShape(k, ps, s, i, behind);
    ScanUnfolds(k, ps, s, i, behind);
    MaskChars(h.pattern);
    ReplacementStart(k, h.pattern, q, before, four, ScanFrom(k, ps, s, h.end, true), j);
  }

  /** A copied card number behind a star stays behind it. */
  lemma StarIsCopied(k: CharClasses, ps: seq<Pattern>, q: Pattern, s: string, i: nat, behind: bool, before: string)
    requires k.Valid() && i < |s| && Joined(k, before, s, i, behind) && Scan(k, ps, s, i, behind).None?
    requires !behind && Matches(k, q, s, i) && Copied(k, ps, s, i, behind) >= 5
    requires (ps != [] && ps[0] == q) || Gone(k, q, s)
    ensures
      var u := before + ScanFrom(k, ps, s, i, behind);
      |before| <= |u| && BehindStar(k, q, u, |before|)
  {
    hide Scan, MatchEnd, ScanFrom, Copied;
    if ps != [] && ps[0] == q {
      FirstPassMasks(k, ps, s, i);
      assert false;
    } else {
      var u := before + ScanFrom(k, ps, s, i, behind);
      var n := Copied(k, ps, s, i, behind);
      assert BehindStar(k, q, s, i);
      OutputWindow(k, ps, s, i, behind, before);
      DigitsBack(k, u, |before|, s, i, n);
    }
  }

  lemma PassLeaves(k: CharClasses, p: Pattern, q: Pattern, s: string)
    requires k.Valid() && (p == q || Gone(k, q, s))
    ensures Gone(k, q, Sub(k, p, s))
  {
    var u := Sub(k, p, s);
    PassIsScan(k, p, s, 0, false);
    assert u == "" + ScanFrom(k, [p], s, 0, false);
    forall j: nat | j <= |u| && Matches(k, q, u, j) ensures BehindStar(k, q, u, j) {
      ScanLeaves(k, [p], q, s, 0, false, "", j);
    }
  }

  /** For every input, the redacted text contains no match of the patterns of account numbers, mobile numbers (in
      all their prefixes) and national identifiers, and none of card numbers but those that begin with four digits
      and a separator right behind a star. */
  lemma RedactTextLeavesNoMatch(k: CharClasses, s: string, q: Pattern)
    requires k.Valid()
    ensures Gone(k, q, RedactText(k, s))
  {
    var t1 := Sub(k, Iban, s);
    var t2 := Sub(k, Card, t1);
    var t3 := Sub(k, Mobile, t2);
    PassLeaves(k, Iban, Iban, s);
    PassLeaves(k, Card, Card, t1);
    PassLeaves(k, Mobile, Mobile, t2);
    PassLeaves(k, NationalId, NationalId, t3);
    if q == Iban {
      PassLeaves(k, Card, Iban, t1);
    }
    if q == Iban || q == Card {
      PassLeaves(k, Mobile, q, t2);
    }
    if q != NationalId {
      PassLeaves(k, NationalId, q, t3);
    }
  }

  // ----- A card number behind a star can be left -----

  lemma {:induction false} NoMatchCopies(k: CharClasses, p: Pattern, s: string, i: nat)
    requires i <= |s| && forall j: nat :: i <= j < |s| ==> !Matches(k, p, s, j)
    ensures SubFrom(k, p, s, i) == s[i..]
    decreases |s| - i
  {
    hide MatchEnd;
    if i < |s| {
      SubUnfolds(k, p, s, i);
      assert !Matches(k, p, s, i);
      NoMatchCopies(k, p, s, i + 1);
    }
  }

  /** Sixteen digits, a separator, and twelve digits to the end. */
  ghost predicate CardThenTwelve(k: CharClasses, s: string) {
    |s| == 29 && DigitsAt(k, s, 0, 16) && SeparatorAt(s, 16) && DigitsAt(k, s, 17, 12)
  }

  lemma {:induction false} WholeCard(k: CharClasses, s: string, i: nat)
    requires k.Valid() && CardThenTwelve(k, s) && i <= 16
    ensures CardTail(k, s, i, 16 - i) == Some(16)
    decreases 16 - i
  {
    if i < 16 {
      WholeCard(k, s, i + 1);
    }
  }

  lemma {:induction false} DigitsStay(k: CharClasses, s: string)
    requires DigitsAt(k, s, 0, |s|)
    ensures OnlyDigits(k, s) == s
  {
    if s != "" {
      DigitsStay(k, s[1..]);
    }
  }

  /** The card number is masked, and its four readable digits make a card number with the twelve digits that follow. */
  lemma CardBehindMaskIsLeft(k: CharClasses, s: string)
    requires k.Valid() && CardThenTwelve(k, s)
    ensures RedactText(k, s) == Stars(12) + s[12..]
    ensures Matches(k, Card, Stars(12) + s[12..], 12)
  {
    var t := Stars(12) + s[12..];
    NoMatchCopies(k, Iban, s, 0);
    assert s[0..] == s;
    CardMasked(k, s);
    assert forall j :: 12 <= j < 29 ==> t[j] == s[j];
    assert !DigitAt(k, t, 11);
    forall p, j: nat | p in {Mobile, NationalId} && j < 29 ensures !Matches(k, p, t, j) {
      NothingMore(k, p, t, j);
    }
    NoMatchCopies(k, Mobile, t, 0);
    NoMatchCopies(k, NationalId, t, 0);
    assert t[0..] == t;
    FourAndTwelve(k, t, 12);
  }

  lemma CardMasked(k: CharClasses, s: string)
    requires k.Valid() && CardThenTwelve(k, s)
    ensures Sub(k, Card, s) == Stars(12) + s[12..]
  {
    WholeCard(k, s, 0);
    DigitsStay(k, s[0..16]);
    NoMatchCopies(k, Card, s, 16);
    assert s[0..16][12..] == s[12..16];
    assert s[12..] == s[12..16] + s[16..];
    SubUnfolds(k, Card, s, 0);
    assert Stars(12) + (s[12..16] + s[16..]) == Stars(12) + s[12..16] + s[16..];
    hide CardTail, OnlyDigits;
  }

  /** Twelve characters without digits, four digits, a separator and twelve digits. */
  ghost predicate FourThenTwelve(k: CharClasses, t: string) {
    && |t| == 29 && (forall j :: 0 <= j < 12 ==> t[j] == '*')
    && DigitsAt(k, t, 12, 4) && SeparatorAt(t, 16) && DigitsAt(k, t, 17, 12)
  }

  lemma NothingMore(k: CharClasses, p: Pattern, t: string, j: nat)
    requires k.Valid() && FourThenTwelve(k, t) && p in {Mobile, NationalId} && j < 29
    ensures !Matches(k, p, t, j)
  {
    assert !DigitAt(k, t, 16);
    if DigitAt(k, t, j) && p == Mobile {
      forall x | 12 <= x < 29 && MobileTail(k, t, x).Some? ensures x == 19 {
      }
      hide MobileTail;
    }
    if !DigitAt(k, t, j) && p == Mobile {
      NoMobileStart(k, t, j);
    }
  }

  lemma {:induction false} FourAndTwelve(k: CharClasses, t: string, i: nat)
    requires k.Valid() && FourThenTwelve(k, t) && (12 <= i < 16 || 17 <= i <= 29)
    ensures CardTail(k, t, i, if i < 16 then 28 - i else 29 - i).Some?
    decreases 29 - i
  {
    if i == 15 {
      FourAndTwelve(k, t, 17);
    } else if i < 29 {
      FourAndTwelve(k, t, i + 1);
    }
  }
}
