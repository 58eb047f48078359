/** Exactly which texts still hold a card number after `redact_text`, and which mobile numbers it leaves alone. */
module CardRemainders {
  import opened PyValues
  import opened Masking
  import opened Scanning
  import opened Leftovers
  import opened FusedPasses

  // ----- The condition -----

  /** What is copied from position `e` on, right behind something masked, begins with a separator and twelve digits,
      with at most one separator behind each. */
  predicate TwelveFollow(k: CharClasses, ps: seq<Pattern>, s: string, e: nat)
    requires e <= |s|
  {
    var copied := s[e..e + Copied(k, ps, s, e, true)];
    SeparatorAt(copied, 0) && CardTail(k, copied, 1, 12).Some?
  }

  /** Reading the text once: twelve digits follow something masked. */
  predicate KeepsCard(k: CharClasses, ps: seq<Pattern>, s: string, i: nat, behind: bool)
    requires i <= |s|
    decreases |s| - i
  {
    i < |s| &&
    match Scan(k, ps, s, i, behind)
    case Some(h) => TwelveFollow(k, ps, s, h.end) || KeepsCard(k, ps, s, h.end, true)
    case None => KeepsCard(k, ps, s, i + 1, false)
  }

  ghost predicate CardFrom(k: CharClasses, u: string, b: nat) {
    exists j: nat :: b <= j <= |u| && Matches(k, Card, u, j)
  }

  // ----- A card number in the output begins at four readable digits -----

  /** Four digits that are not followed by a fifth begin a card number exactly when a separator and twelve digits
      follow. */
  lemma {:induction false} DigitsThenTail(k: CharClasses, u: string, i: nat, c: nat, m: nat)
    requires k.Valid() && 0 < c < m && DigitsAt(k, u, i, c) && !DigitAt(k, u, i + c)
    ensures CardTail(k, u, i, m).Some? <==> SeparatorAt(u, i + c) && CardTail(k, u, i + c + 1, m - c).Some?
    decreases c
  {
    if c > 1 {
      assert DigitAt(k, u, i + 1);
      DigitsThenTail(k, u, i + 1, c - 1, m - 1);
    }
  }

  /** A tail of digits ends before a mask: it is the same in the copied part alone. */
  lemma {:induction false} TailInCopied(k: CharClasses, u: string, b: nat, n: nat, x: nat, c: nat)
    requires k.Valid() && b + n <= |u| && x <= n && (b + n < |u| ==> !k.digit(u[b + n]) && !SeparatorAt(u, b + n))
    ensures CardTail(k, u, b + x, c).Some? <==> CardTail(k, u[b..b + n], x, c).Some?
    decreases c
  {
    var part := u[b..b + n];
    assert DigitAt(k, u, b + x) <==> DigitAt(k, part, x);
    if c > 0 && DigitAt(k, part, x) {
      assert SeparatorAt(u, b + x + 1) <==> SeparatorAt(part, x + 1);
      TailInCopied(k, u, b, n, x + 1, c - 1);
      if SeparatorAt(part, x + 1) {
        TailInCopied(k, u, b, n, x + 2, c - 1);
      }
    }
  }

  /** Twelve digits follow in the output exactly when they do in what is copied. */
  lemma TwelveInWindow(k: CharClasses, u: string, b: nat, s: string, e: nat, n: nat)
    requires k.Valid() && Window(k, u, b, s, e, n)
    ensures e + n <= |s|
    ensures
      SeparatorAt(u, b) && CardTail(k, u, b + 1, 12).Some?
      <==> SeparatorAt(s[e..e + n], 0) && CardTail(k, s[e..e + n], 1, 12).Some?
  {
    hide CardTail;
    assert u[b..b + n] == s[e..e + n];
    WindowChars(k, u, b, s, e, n);
    if n > 0 {
      TailInCopied(k, u, b, n, 1, 12);
    }
  }

  /** The four readable digits begin a card number exactly when twelve digits follow in what is copied. */
  lemma FourBegin(k: CharClasses, ps: seq<Pattern>, s: string, e: nat, before: string)
    requires k.Valid() && e <= |s| && Joined(k, before, s, e, true)
    requires |before| >= 5 && DigitsAt(k, before, |before| - 4, 4) && !DigitAt(k, before, |before| - 5)
    requires !DigitAt(k, ScanFrom(k, ps, s, e, true), 0)
    ensures
      var u := before + ScanFrom(k, ps, s, e, true);
      Matches(k, Card, u, |before| - 4) <==> TwelveFollow(k, ps, s, e)
  {
    hide Scan, ScanFrom, Copied, CardTail;
    var u := before + ScanFrom(k, ps, s, e, true);
    OutputWindow(k, ps, s, e, true, before);
    TwelveInWindow(k, u, |before|, s, e, Copied(k, ps, s, e, true));
    FourStand(k, before, ScanFrom(k, ps, s, e, true));
    DigitsThenTail(k, u, |before| - 4, 4, 16);
    hide Window, Joined, DigitAt, DigitsAt, CharClasses.Valid, SeparatorAt;
    assert |before| - 4 + 4 + 1 == |before| + 1;
  }

  lemma FourStand(k: CharClasses, before: string, rest: string)
    requires |before| >= 5 && DigitsAt(k, before, |before| - 4, 4) && !DigitAt(k, before, |before| - 5)
        && !DigitAt(k, rest, 0)
    ensures
      var u := before + rest;
      DigitsAt(k, u, |before| - 4, 4) && !DigitAt(k, u, |before| - 5) && !DigitAt(k, u, |before|)
  {
  }

  /** Of a replacement only the four digits can begin a card number. */
  lemma ReplacementKeeps(k: CharClasses, ps: seq<Pattern>, s: string, i: nat, behind: bool, before: string)
    requires k.Valid() && i < |s| && Scan(k, ps, s, i, behind).Some?
    ensures
      var h := Scan(k, ps, s, i, behind).value;
      var u := before + ScanFrom(k, ps, s, i, behind);
      var next := |before| + |Replacement(k, h, s, i)|;
      CardFrom(k, u, |before|) <==> TwelveFollow(k, ps, s, h.end) || CardFrom(k, u, next)
  {
    hide Scan, ScanFrom, MatchEnd, Mask, Readable, TwelveFollow;
    var h := Scan(k, ps, s, i, behind).value;
    var u := before + ScanFrom(k, ps, s, i, behind);
    var before' := before + Replacement(k, h, s, i);
    var four := Readable(k, h.pattern, s[i..h.end]);
    HitShape(k, ps, s, i, behind);
    MaskHasNoDigits(k, h.pattern);
    BehindReplacement(k, ps, s, i, behind, before);
    assert before' == (before + Mask(h.pattern)) + four;
    assert before'[|before'| - 5] == Mask(h.pattern)[|Mask(h.pattern)| - 1];
    FourBegin(k, ps, s, h.end, before');
    forall j: nat | |before| <= j < |before'| && Matches(k, Card, u, j) ensures j == |before'| - 4 {
      ReplacedStart(k, ps, Card, s, i, behind, before, j);
    }
    hide Matches, Joined, Replacement;
  }

  /** In the output of a scan that begins with cards, a card number is left exactly where twelve digits follow. */
  lemma {:induction false} KeepsCardIff(k: CharClasses, ps: seq<Pattern>, s: string, i: nat, behind: bool,
      before: string)
    requires k.Valid() && i <= |s| && Joined(k, before, s, i, behind) && ps != [] && ps[0] == Card
    ensures CardFrom(k, before + ScanFrom(k, ps, s, i, behind), |before|) <==> KeepsCard(k, ps, s, i, behind)
    decreases |s| - i
  {
    hide Scan, ScanFrom, MatchEnd, TwelveFollow, Copied, Replacement;
    var u := before + ScanFrom(k, ps, s, i, behind);
    if i == |s| {
      NothingLeft(k, ps, s, behind);
      NoMatchAtEnd(k, Card, u);
    } else if Scan(k, ps, s, i, behind).Some? {
      var h := Scan(k, ps, s, i, behind).value;
      ReplacementKeeps(k, ps, s, i, behind, before);
      BehindReplacement(k, ps, s, i, behind, before);
      KeepsCardIff(k, ps, s, h.end, true, before + Replacement(k, h, s, i));
    } else {
      BehindCopy(k, ps, s, i, behind, before);
      assert |before| < |u|;
      if Matches(k, Card, u, |before|) {
        CopiedStart(k, ps, Card, s, i, behind, before);
        FirstPassMasks(k, ps, s, i);
      }
      KeepsCardIff(k, ps, s, i + 1, false, before + [s[i]]);
      hide Matches, Joined;
    }
  }

  /** The redacted text holds a card number exactly when, in the text with its account numbers masked, twelve digits
      follow a masked card number, mobile number or national identifier. */
  lemma CardIsLeftIff(k: CharClasses, s: string)
    requires k.Valid()
    ensures CardFrom(k, RedactText(k, s), 0) <==> KeepsCard(k, LAST_PASSES, Sub(k, Iban, s), 0, false)
  {
    hide Scan, ScanFrom, SubFrom, KeepsCard;
    var t := Sub(k, Iban, s);
    ThreePassesAreOneScan(k, t);
    KeepsCardIff(k, LAST_PASSES, t, 0, false, "");
    assert "" + ScanFrom(k, LAST_PASSES, t, 0, false) == ScanFrom(k, LAST_PASSES, t, 0, false);
  }

  /** No pattern at all matches the redacted text, exactly when no such twelve digits follow. */
  lemma NothingIsLeftIff(k: CharClasses, s: string)
    requires k.Valid()
    ensures
      (forall q, i: nat :: i <= |RedactText(k, s)| ==> !Matches(k, q, RedactText(k, s), i))
      <==> !KeepsCard(k, LAST_PASSES, Sub(k, Iban, s), 0, false)
  {
    hide RedactText, KeepsCard, MatchEnd;
    CardIsLeftIff(k, s);
    forall q: Pattern, i: nat | q != Card && i <= |RedactText(k, s)| ensures !Matches(k, q, RedactText(k, s), i) {
      RedactTextLeavesNoMatch(k, s, q);
    }
  }

  // ----- A condition on the text alone -----

  /** A digit, one or two separators, and a digit. */
  predicate Chain(k: CharClasses, s: string, j: nat) {
    DigitAt(k, s, j) && SeparatorAt(s, j + 1)
        && (DigitAt(k, s, j + 2) || (SeparatorAt(s, j + 2) && DigitAt(k, s, j + 3)))
  }

  ghost predicate NoChain(k: CharClasses, s: string) {
    forall j: nat :: !Chain(k, s, j)
  }

  /** A card match ends with a digit, or with the separator behind one. */
  lemma {:induction false} CardTailEnds(k: CharClasses, s: string, i: nat, c: nat)
    requires k.Valid() && c > 0 && CardTail(k, s, i, c).Some?
    ensures
      var e := CardTail(k, s, i, c).value;
      e > i && (DigitAt(k, s, e - 1) || (e > i + 1 && SeparatorAt(s, e - 1) && DigitAt(k, s, e - 2)))
    decreases c
  {
    if c > 1 {
      if SeparatorAt(s, i + 1) && CardTail(k, s, i + 2, c - 1).Some? {
        CardTailEnds(k, s, i + 2, c - 1);
      } else {
        CardTailEnds(k, s, i + 1, c - 1);
      }
    }
  }

  lemma HitEnds(k: CharClasses, ps: seq<Pattern>, s: string, i: nat, behind: bool)
    requires k.Valid() && i <= |s| && Scan(k, ps, s, i, behind).Some?
    ensures
      var e := Scan(k, ps, s, i, behind).value.end;
      DigitAt(k, s, e - 1) || (e > 1 && SeparatorAt(s, e - 1) && DigitAt(k, s, e - 2))
  {
    var h := Scan(k, ps, s, i, behind).value;
    hide Scan, CardTail;
    if h.pattern == Card {
      CardTailEnds(k, s, i, 16);
    } else {
      EndsWithDigit(k, h.pattern, s, i);
    }
  }

  lemma {:induction false} NoChainKeepsNone(k: CharClasses, ps: seq<Pattern>, s: string, i: nat, behind: bool)
    requires k.Valid() && i <= |s| && NoChain(k, s)
    ensures !KeepsCard(k, ps, s, i, behind)
    decreases |s| - i
  {
    hide Scan, Copied, TwelveFollow, Chain;
    if i < |s| {
      if Scan(k, ps, s, i, behind).Some? {
        var e := Scan(k, ps, s, i, behind).value.end;
        HitEnds(k, ps, s, i, behind);
        if TwelveFollow(k, ps, s, e) {
          TwelveStand(k, ps, s, e);
          ChainBehind(k, s, e);
        }
        NoChainKeepsNone(k, ps, s, e, true);
      } else {
        NoChainKeepsNone(k, ps, s, i + 1, false);
      }
    }
  }

  /** A separator and a digit behind something masked end a chain. */
  lemma ChainBehind(k: CharClasses, s: string, e: nat)
    requires e > 0 && SeparatorAt(s, e) && DigitAt(k, s, e + 1)
    requires DigitAt(k, s, e - 1) || (e > 1 && SeparatorAt(s, e - 1) && DigitAt(k, s, e - 2))
    ensures Chain(k, s, e - 1) || (e > 1 && Chain(k, s, e - 2))
  {
  }

  lemma TwelveStand(k: CharClasses, ps: seq<Pattern>, s: string, e: nat)
    requires e <= |s| && TwelveFollow(k, ps, s, e)
    ensures SeparatorAt(s, e) && DigitAt(k, s, e + 1)
  {
    hide Copied;
    var copied := s[e..e + Copied(k, ps, s, e, true)];
    assert DigitAt(k, copied, 1);
    assert copied[0] == s[e] && copied[1] == s[e + 1];
  }

  /** What goes on from a digit to another over separators does so in the input too. */
  lemma ChainInWindow(k: CharClasses, u: string, b: nat, s: string, i: nat, n: nat)
    requires k.Valid() && Window(k, u, b, s, i, n) && b > 0 && i > 0 && Chain(k, u, b - 1) && DigitAt(k, s, i - 1)
    ensures Chain(k, s, i - 1)
  {
    WindowChars(k, u, b, s, i, n);
    assert n > 0 && s[i] == u[b];
    if DigitAt(k, u, b + 1) {
      assert n > 1 && s[i + 1] == u[b + 1];
    } else {
      assert n > 1 && s[i + 1] == u[b + 1];
      assert n > 2 && s[i + 2] == u[b + 2];
    }
  }

  /** Masking account numbers joins no digits over separators. */
  lemma {:induction false} IbanAddsNoChain(k: CharClasses, s: string, i: nat, behind: bool, before: string, j: nat)
    requires k.Valid() && i <= |s| && Joined(k, before, s, i, behind) && NoChain(k, s)
    requires j >= |before|
    ensures !Chain(k, before + ScanFrom(k, [Iban], s, i, behind), j)
    decreases |s| - i
  {
    hide Scan, ScanFrom, Copied, MatchEnd, Mask, Readable, Chain;
    var ps := [Iban];
    var u := before + ScanFrom(k, ps, s, i, behind);
    if i == |s| {
      NothingLeft(k, ps, s, behind);
      ChainHasDigit(k, u, j);
    } else if Scan(k, ps, s, i, behind).Some? {
      var h := Scan(k, ps, s, i, behind).value;
      BehindReplacement(k, ps, s, i, behind, before);
      var next := before + Replacement(k, h, s, i);
      if j >= |next| {
        IbanAddsNoChain(k, s, h.end, true, next, j);
      } else {
        ReplacementHasNoChain(k, s, i, behind, before, j);
      }
    } else {
      BehindCopy(k, ps, s, i, behind, before);
      if j > |before| {
        IbanAddsNoChain(k, s, i + 1, false, before + [s[i]], j);
      } else {
        OutputWindow(k, ps, s, i + 1, false, before + [s[i]]);
        assert !Chain(k, s, i);
        CopiedHasNoChain(k, s, i, before, ScanFrom(k, ps, s, i + 1, false), Copied(k, ps, s, i + 1, false));
      }
    }
  }

  lemma ChainHasDigit(k: CharClasses, u: string, j: nat)
    requires k.Valid()
    ensures Chain(k, u, j) ==> j + 2 < |u| && k.digit(u[j]) && !k.digit(u[j + 1])
  {
  }

  lemma CopiedHasNoChain(k: CharClasses, s: string, i: nat, before: string, rest: string, n: nat)
    requires k.Valid() && i < |s| && !Chain(k, s, i)
    requires Window(k, (before + [s[i]]) + rest, |before| + 1, s, i + 1, n)
    ensures !Chain(k, (before + [s[i]]) + rest, |before|)
  {
    var u := (before + [s[i]]) + rest;
    assert u[|before|] == s[i];
    if Chain(k, u, |before|) {
      ChainInWindow(k, u, |before| + 1, s, i + 1, n);
    }
  }

  lemma ReplacementHasNoChain(k: CharClasses, s: string, i: nat, behind: bool, before: string, j: nat)
    requires k.Valid() && i < |s| && Scan(k, [Iban], s, i, behind).Some? && NoChain(k, s)
    requires |before| <= j < |before| + |Replacement(k, Scan(k, [Iban], s, i, behind).value, s, i)|
    ensures !Chain(k, before + ScanFrom(k, [Iban], s, i, behind), j)
  {
    var ps := [Iban];
    var h := Scan(k, ps, s, i, behind).value;
    assert h.pattern == Iban;
    EndsWithDigit(k, Iban, s, i);
    hide Scan, ScanFrom, Copied, MatchEnd, Mask, Readable, Chain;
    var u := before + ScanFrom(k, ps, s, i, behind);
    var four := Readable(k, Iban, s[i..h.end]);
    HitShape(k, ps, s, i, behind);
    BehindReplacement(k, ps, s, i, behind, before);
    var next := before + Replacement(k, h, s, i);
    var rest := ScanFrom(k, ps, s, h.end, true);
    assert next == (before + Mask(Iban)) + four;
    MaskHasNoDigits(k, Iban);
    if j < |before| + |Mask(Iban)| {
      assert u[j] == Mask(Iban)[j - |before|];
      ChainHasDigit(k, u, j);
    } else if j < |next| - 1 {
      assert u[j + 1] == four[j + 1 - |before| - |Mask(Iban)|];
      ChainHasDigit(k, u, j);
    } else {
      OutputWindow(k, ps, s, h.end, true, next);
      assert !Chain(k, s, h.end - 1);
      if Chain(k, u, j) {
        ChainInWindow(k, u, |next|, s, h.end, Copied(k, ps, s, h.end, true));
      }
    }
  }

  /** If no digit of the text is followed by one or two separators and a digit, no pattern matches the redacted text. */
  lemma WithoutChainsNothingIsLeft(k: CharClasses, s: string, q: Pattern, i: nat)
    requires k.Valid() && NoChain(k, s) && i <= |RedactText(k, s)|
    ensures !Matches(k, q, RedactText(k, s), i)
  {
    var t := Sub(k, Iban, s);
    PassIsScan(k, Iban, s, 0, false);
    assert t == "" + ScanFrom(k, [Iban], s, 0, false);
    forall j: nat ensures !Chain(k, t, j) {
      IbanAddsNoChain(k, s, 0, false, "", j);
    }
    NoChainKeepsNone(k, LAST_PASSES, t, 0, false);
    NothingIsLeftIff(k, s);
  }

  // ----- Texts that keep a card number -----

  /** A run of digits, a separator, and twelve digits to the end. */
  ghost predicate RunThenTwelve(k: CharClasses, s: string, m: nat) {
    |s| == m + 13 && DigitsAt(k, s, 0, m) && SeparatorAt(s, m) && DigitsAt(k, s, m + 1, 12)
  }

  /** Where nothing is masked at first, digits are copied to their end. */
  lemma {:induction false} CopiedThroughDigits(k: CharClasses, ps: seq<Pattern>, s: string, i: nat, behind: bool,
      m: nat)
    requires k.Valid() && i < m <= |s| && Scan(k, ps, s, i, behind).None?
    requires forall j :: i <= j < m - 1 ==> k.digit(s[j])
    ensures Copied(k, ps, s, i, behind) >= m - i
    decreases m - i
  {
    hide Scan, MatchEnd;
    CopiedUnfolds(k, ps, s, i, behind);
    if i + 1 < m {
      if Scan(k, ps, s, i + 1, false).Some? {
        NoMatchBehindDigit(k, Scan(k, ps, s, i + 1, false).value.pattern, s, i + 1);
      }
      CopiedThroughDigits(k, ps, s, i + 1, false, m);
    }
    hide Copied;
  }

  /** More digits than a card number has left do not end one. */
  lemma {:induction false} TooManyDigits(k: CharClasses, s: string, m: nat, i: nat, c: nat)
    requires k.Valid() && RunThenTwelve(k, s, m) && (if i < m then m - i < c < m - i + 12 else m < i && c < |s| - i)
    requires i <= |s|
    ensures CardTail(k, s, i, c).None?
    decreases c
  {
    if c > 0 {
      assert DigitAt(k, s, i);
      if i == m - 1 {
        TooManyDigits(k, s, m, i + 2, c - 1);
        assert !DigitAt(k, s, i + 1);
      } else {
        assert DigitAt(k, s, i + 1);
        TooManyDigits(k, s, m, i + 1, c - 1);
      }
    }
  }

  lemma {:induction false} WholeRun(k: CharClasses, s: string, m: nat, i: nat)
    requires k.Valid() && RunThenTwelve(k, s, m) && i <= m
    ensures CardTail(k, s, i, m - i) == Some(m)
    decreases m - i
  {
    if i < m {
      WholeRun(k, s, m, i + 1);
    }
  }

  /** Whatever matches at the beginning is the run in front. */
  lemma RunIsTheMatch(k: CharClasses, s: string, m: nat, p: Pattern)
    requires k.Valid() && RunThenTwelve(k, s, m) && 4 < m <= 16 && Matches(k, p, s, 0)
    ensures MatchEnd(k, p, s, 0) == Some(m)
  {
    assert !DigitAt(k, s, m) && DigitAt(k, s, 0);
    match p {
      case Iban =>
      case Card =>
        if m < 16 {
          TooManyDigits(k, s, m, 0, 16);
        } else {
          WholeRun(k, s, m, 0);
        }
      case Mobile =>
        var prefix := MobileHasAlternative(k, s, 0);
        AlternativeIsDigits(k, s, prefix);
        MobileByAlternative(k, s, 0, prefix);
      case NationalId =>
        assert !DigitAt(k, s, 10) && DigitsAt(k, s, 0, 10);
    }
  }

  lemma AlternativeIsDigits(k: CharClasses, s: string, prefix: string)
    requires k.Valid() && DigitAt(k, s, 0) && prefix in {"+98", "0098", "0", ""} && Alternative(k, s, 0, prefix)
    ensures DigitsAt(k, s, 0, |prefix| + 10) && !DigitAt(k, s, |prefix| + 10)
  {
    assert forall x :: 0 <= x < |prefix| ==> s[0..|prefix|][x] == prefix[x];
    assert forall x :: 0 <= x < |prefix| ==> s[x] == prefix[x];
  }

  /** The run in front is masked if it is one of the runs that identify a card, a mobile number or a person. */
  lemma RunIsMasked(k: CharClasses, s: string, m: nat)
    requires k.Valid() && RunThenTwelve(k, s, m) && IdentifierRun(s[..m])
    ensures Scan(k, LAST_PASSES, s, 0, false).Some? && Scan(k, LAST_PASSES, s, 0, false).value.end == m
  {
    assert !DigitAt(k, s, m);
    assert RunAt(k, s, 0) == s[..m] by { RunHere(k, s, 0, m); }
    var masking := if m == 16 then Card else if MobileRun(s[..m]) then Mobile else NationalId;
    assert Matches(k, masking, s, 0) by {
      if m == 16 {
        WholeRun(k, s, m, 0);
      } else if masking == Mobile {
        MobileCovers(k, s, 0);
      }
    }
    hide Scan, MatchEnd, Copied, IdentifierRun, MobileRun, RunAt;
    RunIsTheMatch(k, s, m, masking);
    assert LAST_PASSES == [Card] + [Mobile] + [NationalId] && [Card] + [Mobile] == [Card, Mobile];
    ScanMore(k, [], Card, s, 0, false);
    ScanMore(k, [Card], Mobile, s, 0, false);
    ScanMore(k, [Card] + [Mobile], NationalId, s, 0, false);
    assert [] + [Card] == [Card];
    MaskedOrCopied(k, [], s, m);
    MaskedOrCopied(k, [Card], s, m);
    MaskedOrCopied(k, [Card] + [Mobile], s, m);
    if Scan(k, LAST_PASSES, s, 0, false).Some? {
      RunIsTheMatch(k, s, m, Scan(k, LAST_PASSES, s, 0, false).value.pattern);
    }
  }

  lemma MaskedOrCopied(k: CharClasses, ps: seq<Pattern>, s: string, m: nat)
    requires k.Valid() && RunThenTwelve(k, s, m) && m > 0
    ensures Scan(k, ps, s, 0, false).Some? || Copied(k, ps, s, 0, false) >= m
  {
    hide Scan, Copied;
    if Scan(k, ps, s, 0, false).None? {
      CopiedThroughDigits(k, ps, s, 0, false, m);
    }
  }

  lemma {:induction false} RunHere(k: CharClasses, s: string, i: nat, m: nat)
    requires i <= m <= |s| && DigitsAt(k, s, i, m - i) && !DigitAt(k, s, m)
    ensures RunAt(k, s, i) == s[i..m]
    decreases m - i
  {
    if i < m {
      RunHere(k, s, i + 1, m);
      assert s[i..m] == [s[i]] + s[i + 1..m];
    }
  }

  /** The separator and the twelve digits are copied. */
  lemma TwelveAreCopied(k: CharClasses, s: string, m: nat)
    requires k.Valid() && RunThenTwelve(k, s, m)
    ensures TwelveFollow(k, LAST_PASSES, s, m)
  {
    var ps := LAST_PASSES;
    NoneAtTwelve(k, s, m);
    assert Scan(k, ps, s, m, true).None?;
    hide Scan, MatchEnd, Copied, CardTail;
    CopiedUnfolds(k, ps, s, m, true);
    CopiedThroughDigits(k, ps, s, m + 1, false, |s|);
    assert s[m..m + Copied(k, ps, s, m, true)] == s[m..];
    TwelveToTheEnd(k, s[m..]);
  }

  lemma TwelveToTheEnd(k: CharClasses, t: string)
    requires k.Valid() && |t| == 13 && SeparatorAt(t, 0) && DigitsAt(k, t, 1, 12)
    ensures CardTail(k, t, 1, 12).Some?
  {
    hide CardTail;
    RunHere(k, t, 1, 13);
    CardCovers(k, t, 1, 12);
  }

  /** Twelve digits to the end match no pattern of the last passes. */
  lemma NoneAtTwelve(k: CharClasses, s: string, m: nat)
    requires k.Valid() && RunThenTwelve(k, s, m)
    ensures Scan(k, LAST_PASSES, s, m + 1, false).None?
  {
    var h := Scan(k, LAST_PASSES, s, m + 1, false);
    if h.Some? {
      NoMatchAtTwelve(k, s, m, h.value.pattern);
    }
  }

  lemma NoMatchAtTwelve(k: CharClasses, s: string, m: nat, p: Pattern)
    requires k.Valid() && m + 13 == |s| && DigitsAt(k, s, m + 1, 12) && p in LAST_PASSES
    ensures !Matches(k, p, s, m + 1)
  {
    match p {
      case Card =>
      case Mobile =>
        if Matches(k, p, s, m + 1) {
          var prefix := MobileHasAlternative(k, s, m + 1);
          AlternativeHead(k, s, m + 1, prefix);
          NoTailInTwelve(k, s, m, m + 1 + |prefix|);
        }
      case NationalId =>
        assert DigitAt(k, s, m + 11);
    }
  }

  lemma NoTailInTwelve(k: CharClasses, s: string, m: nat, x: nat)
    requires m + 13 == |s| && DigitsAt(k, s, m + 1, 12) && m + 1 <= x <= m + 2
    ensures MobileTail(k, s, x).None?
  {
    assert DigitAt(k, s, x + 10);
  }

  /** Every masked card number, mobile number or national identifier with a separator and twelve digits behind it
      keeps a card number in the redacted text. */
  lemma TwelveBehindRunKeepCard(k: CharClasses, s: string, m: nat)
    requires k.Valid() && RunThenTwelve(k, s, m) && IdentifierRun(s[..m])
    ensures CardFrom(k, RedactText(k, s), 0)
  {
    hide Scan, SubFrom, RedactText, IdentifierRun;
    assert forall j: nat :: j < |s| ==> !Matches(k, Iban, s, j) by { NoIbanInDigits(k, s, m); }
    NoMatchCopies(k, Iban, s, 0);
    assert s[0..] == s;
    RunIsMasked(k, s, m);
    TwelveAreCopied(k, s, m);
    CardIsLeftIff(k, s);
    hide TwelveFollow, Copied, MatchEnd;
  }

  lemma NoIbanInDigits(k: CharClasses, s: string, m: nat)
    requires k.Valid() && RunThenTwelve(k, s, m)
    ensures forall j: nat :: j < |s| ==> !Matches(k, Iban, s, j)
  {
    forall j: nat | j < |s| ensures !Matches(k, Iban, s, j) {
      assert j != m ==> k.digit(s[j]);
      assert j == m ==> k.digit(s[j + 1]);
    }
  }

  // ----- Mobile numbers that are left alone -----

  /** Where the scan comes to a mobile number, it masks it as one exactly when it did not just mask something, and
      no card number begins there or, behind a plus, at its first digit. */
  lemma MobileIsMaskedIff(k: CharClasses, t: string, i: nat, behind: bool)
    requires k.Valid() && i < |t| && Matches(k, Mobile, t, i)
    ensures
      Scan(k, LAST_PASSES, t, i, behind) == Some(Hit(Mobile, MatchEnd(k, Mobile, t, i).value))
      <==> !behind && !Matches(k, Card, t, i) && (t[i] == '+' ==> !Matches(k, Card, t, i + 1))
  {
    var e := MatchEnd(k, Mobile, t, i).value;
    MobileDigits(k, t, i);
    assert LAST_PASSES == [Card] + [Mobile] + [NationalId] && [] + [Card] == [Card];
    assert Scan(k, [], t, i, false).None?;
    hide Scan, MatchEnd, Copied;
    NothingMasked(k, [], t, i);
    ScanMore(k, [], Card, t, i, false);
    ScanMore(k, [Card], Mobile, t, i, false);
    ScanMore(k, [Card] + [Mobile], NationalId, t, i, behind);
    if !Matches(k, Card, t, i) {
      CardFree(k, t, i, e);
    }
  }

  /** A mobile number is a digit or a plus, and digits. */
  lemma MobileDigits(k: CharClasses, t: string, i: nat)
    requires k.Valid() && i <= |t| && Matches(k, Mobile, t, i)
    ensures
      var e := MatchEnd(k, Mobile, t, i).value;
      i + 10 <= e <= |t| && (t[i] == '+' || k.digit(t[i])) && forall j :: i < j < e ==> k.digit(t[j])
  {
    var prefix := MobileHasAlternative(k, t, i);
    MobileByAlternative(k, t, i, prefix);
    AlternativeHead(k, t, i, prefix);
    assert DigitsAt(k, t, i + |prefix|, 10);
    forall j | i < j < i + |prefix| ensures k.digit(t[j]) {
      assert t[i..i + |prefix|][j - i] == prefix[j - i];
    }
  }

  lemma CardIsScanned(k: CharClasses, t: string, i: nat)
    requires i <= |t|
    ensures Scan(k, [Card], t, i, false).Some? <==> Matches(k, Card, t, i)
  {
    hide MatchEnd;
    SingleScan(k, Card, t, i, false);
  }

  /** No card number begins inside a mobile number, unless at its first digit behind a plus. */
  lemma CardFree(k: CharClasses, t: string, i: nat, e: nat)
    requires k.Valid() && i + 10 <= e <= |t| && !Matches(k, Card, t, i)
    requires (t[i] == '+' || k.digit(t[i])) && forall j :: i < j < e ==> k.digit(t[j])
    ensures e <= i + Copied(k, [Card], t, i, false) <==> (t[i] == '+' ==> !Matches(k, Card, t, i + 1))
  {
    hide Scan, MatchEnd, Copied;
    CardIsScanned(k, t, i);
    CardIsScanned(k, t, i + 1);
    CopiedUnfolds(k, [Card], t, i, false);
    CopiedUnfolds(k, [Card], t, i + 1, false);
    if Matches(k, Card, t, i + 1) {
      NoMatchBehindDigit(k, Card, t, i + 1);
      assert t[i] == '+' && Copied(k, [Card], t, i, false) == 1;
    } else {
      CopiedThroughDigits(k, [Card], t, i + 1, false, e);
      hide CharClasses.Valid;
      assert Copied(k, [Card], t, i, false) == 1 + Copied(k, [Card], t, i + 1, false);
    }
  }

  /** A card number, a separator, and a mobile number behind +98, to the end. */
  ghost predicate CardThenPlus(k: CharClasses, s: string) {
    && |s| == 30 && DigitsAt(k, s, 0, 16) && SeparatorAt(s, 16)
    && LiteralAt(s, 17, "+98") && s[20] == '9' && DigitsAt(k, s, 20, 10)
  }

  lemma {:induction false} CardAndSeparator(k: CharClasses, s: string, i: nat)
    requires k.Valid() && CardThenPlus(k, s) && i < 16
    ensures CardTail(k, s, i, 16 - i) == Some(17)
    decreases 16 - i
  {
    assert s[17] == "+98"[0] by { assert s[17..20][0] == s[17]; }
    if i == 15 {
      assert CardTail(k, s, 17, 0) == Some(17);
    } else {
      CardAndSeparator(k, s, i + 1);
    }
  }

  /** The card number takes the separator in, so that the plus stands right behind a digit of its mask, and the
      mobile number is left in full although the mobile pattern matches it where it stands alone. */
  lemma MobileBehindCardIsLeft(k: CharClasses, s: string)
    requires k.Valid() && CardThenPlus(k, s)
    ensures RedactText(k, s) == Stars(12) + s[12..16] + s[17..]
    ensures Matches(k, Mobile, s[17..], 0)
  {
    PlusAndDigits(k, s);
    assert forall j: nat :: j < |s| ==> !Matches(k, Iban, s, j) by { NoIbanHere(k, s); }
    CardAndSeparator(k, s, 0);
    assert Matches(k, Card, s, 0);
    CardReadable(k, s);
    NothingBehindCard(k, s);
    hide MatchEnd, CardTail, OnlyDigits, SubFrom;
    NoMatchCopies(k, Iban, s, 0);
    assert s[0..] == s;
    FirstHit(k, s);
    ThreePassesAreOneScan(k, s);
    hide Scan, Stars;
    ScanUnfolds(k, LAST_PASSES, s, 0, false);
  }

  lemma PlusAndDigits(k: CharClasses, s: string)
    requires k.Valid() && CardThenPlus(k, s)
    ensures s[17] == '+' && s[18] == '9' && s[19] == '8' && DigitsAt(k, s, 18, 12)
    ensures Matches(k, Mobile, s[17..], 0)
  {
    assert s[17..20][0] == s[17] && s[17..20][1] == s[18] && s[17..20][2] == s[19];
    var t := s[17..];
    assert t[0..3] == s[17..20];
    assert MobileTail(k, t, 3).Some? by {
      assert forall j :: 3 <= j < 13 ==> t[j] == s[j + 17];
    }
  }

  lemma NoIbanHere(k: CharClasses, s: string)
    requires k.Valid() && CardThenPlus(k, s)
    ensures forall j: nat :: j < |s| ==> !Matches(k, Iban, s, j)
  {
    forall j: nat | j < |s| ensures !Matches(k, Iban, s, j) {
      assert j + 26 <= 30 ==> j <= 4 && k.digit(s[j]);
    }
  }

  lemma CardReadable(k: CharClasses, s: string)
    requires k.Valid() && CardThenPlus(k, s)
    ensures Replacement(k, Hit(Card, 17), s, 0) == Stars(12) + s[12..16]
  {
    DigitsThenSeparator(k, s[0..17], 16);
    assert s[0..17][..16][12..] == s[12..16];
  }

  lemma {:induction false} DigitsThenSeparator(k: CharClasses, s: string, n: nat)
    requires k.Valid() && |s| == n + 1 && DigitsAt(k, s, 0, n) && SeparatorAt(s, n)
    ensures OnlyDigits(k, s) == s[..n]
    decreases n
  {
    if n > 0 {
      DigitsThenSeparator(k, s[1..], n - 1);
      assert s[..n] == [s[0]] + s[1..][..n - 1];
    } else {
      assert s[1..] == "";
    }
  }

  lemma FirstHit(k: CharClasses, s: string)
    requires k.Valid() && |s| > 0 && Matches(k, Card, s, 0)
    ensures Scan(k, LAST_PASSES, s, 0, false) == Some(Hit(Card, MatchEnd(k, Card, s, 0).value))
  {
    hide MatchEnd, Copied;
    assert LAST_PASSES == [Card] + [Mobile] + [NationalId];
    SingleScan(k, Card, s, 0, false);
    hide Scan;
    ScanMore(k, [Card], Mobile, s, 0, false);
    ScanMore(k, [Card] + [Mobile], NationalId, s, 0, false);
  }

  /** Behind the card number everything is copied. */
  lemma NothingBehindCard(k: CharClasses, s: string)
    requires k.Valid() && CardThenPlus(k, s)
    ensures ScanFrom(k, LAST_PASSES, s, 17, true) == s[17..]
  {
    PlusAndDigits(k, s);
    var ps := LAST_PASSES;
    assert Scan(k, ps, s, 17, true).None?;
    assert Scan(k, ps, s, 18, false).None? by {
      if Scan(k, ps, s, 18, false).Some? {
        NoMatchAtTwelve(k, s, 17, Scan(k, ps, s, 18, false).value.pattern);
      }
    }
    hide Scan, ScanFrom, Copied;
    CopiedUnfolds(k, ps, s, 17, true);
    CopiedThroughDigits(k, ps, s, 18, false, 30);
    CopiedThenRest(k, ps, s, 17, true);
    NothingLeft(k, ps, s, false);
    assert s[17..30] == s[17..];
  }
}
