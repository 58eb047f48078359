/** The last three passes of `redact_text` refined to one scan of the text, and from it exactly which texts keep a card
    number behind a mask, and which keep a mobile number. */
module FusedPasses {
  import opened PyValues
  import opened Masking
  import opened Scanning
  import opened Leftovers

  // ----- A pattern of digits matches alike in the output and in what is copied -----

  /** Digits of `s` inside the window are digits of `u`, and what follows them is a digit in both or in neither. */
  lemma DigitsKept(k: CharClasses, u: string, b: nat, s: string, i: nat, n: nat, x: nat, c: nat)
    requires k.Valid() && Window(k, u, b, s, i, n) && c > 0 && x + c <= n && DigitsAt(k, s, i + x, c)
    ensures DigitsAt(k, u, b + x, c) && DigitAt(k, u, b + x + c) == DigitAt(k, s, i + x + c)
  {
    WindowChars(k, u, b, s, i, n);
    assert k.digit(s[i + x + c - 1]);
    forall y | b + x <= y < b + x + c ensures k.digit(u[y]) {
      assert u[y] == s[y - b + i];
    }
  }

  /** One alternative of the mobile pattern: a prefix and the ten digits behind it. */
  predicate Alternative(k: CharClasses, s: string, i: nat, prefix: string) {
    LiteralAt(s, i, prefix) && MobileTail(k, s, i + |prefix|).Some?
  }

  /** The prefixes exclude one another. */
  lemma AlternativeHead(k: CharClasses, s: string, i: nat, prefix: string)
    requires prefix in {"+98", "0098", "0", ""} && Alternative(k, s, i, prefix)
    ensures i + |prefix| + 10 <= |s|
    ensures s[i] == if prefix == "+98" then '+' else if prefix == "" then '9' else '0'
    ensures prefix == "0098" ==> s[i + 1] == '0'
    ensures prefix == "0" ==> s[i + 1] == '9'
    ensures MobileTail(k, s, i + |prefix|) == Some(i + |prefix| + 10)
  {
    hide MobileTail;
    TailHead(k, s, i + |prefix|);
    forall x | 0 <= x < |prefix| ensures s[i + x] == prefix[x] {
      assert s[i..i + |prefix|][x] == prefix[x];
    }
    if prefix == "0098" {
      assert s[i + 0] == prefix[0] && s[i + 1] == prefix[1];
    } else if prefix != "" {
      assert s[i + 0] == prefix[0];
    }
  }

  lemma TailHead(k: CharClasses, s: string, i: nat)
    requires MobileTail(k, s, i).Some?
    ensures i + 10 <= |s| && s[i] == '9' && MobileTail(k, s, i) == Some(i + 10)
  {
  }

  /** The mobile pattern matches with the one alternative that fits. */
  lemma MobileByAlternative(k: CharClasses, s: string, i: nat, prefix: string)
    requires prefix in {"+98", "0098", "0", ""} && Alternative(k, s, i, prefix)
    ensures MobileEnd(k, s, i) == Some(i + |prefix| + 10)
  {
    hide MobileTail, LiteralAt;
    AlternativeHead(k, s, i, prefix);
    forall other | other in {"+98", "0098", "0"} && Alternative(k, s, i, other) ensures other == prefix {
      AlternativeHead(k, s, i, other);
    }
    assert prefix != "+98" ==> !Alternative(k, s, i, "+98");
    assert prefix != "0098" ==> !Alternative(k, s, i, "0098");
    assert prefix != "0" ==> !Alternative(k, s, i, "0");
    assert prefix == "" ==> i + |prefix| == i;
  }

  lemma MobileHasAlternative(k: CharClasses, s: string, i: nat) returns (prefix: string)
    requires MobileEnd(k, s, i).Some? && i <= |s|
    ensures prefix in {"+98", "0098", "0", ""} && Alternative(k, s, i, prefix)
  {
    if Alternative(k, s, i, "+98") {
      prefix := "+98";
    } else if Alternative(k, s, i, "0098") {
      prefix := "0098";
    } else if Alternative(k, s, i, "0") {
      prefix := "0";
    } else {
      prefix := "";
      assert s[i..i] == "";
    }
  }

  /** An alternative fits in the output exactly when it fits in the input and ends inside the window. */
  lemma AlternativeIff(k: CharClasses, u: string, b: nat, s: string, i: nat, n: nat, prefix: string)
    requires k.Valid() && Window(k, u, b, s, i, n) && n > 0 && prefix in {"+98", "0098", "0", ""}
    ensures Alternative(k, u, b, prefix) <==> Alternative(k, s, i, prefix) && |prefix| + 10 <= n
  {
    hide Window;
    if Alternative(k, u, b, prefix) {
      hide MobileTail;
      if prefix != "" {
        PrefixInWindow(k, u, b, s, i, n, prefix);
      }
      LiteralInWindow(k, u, b, s, i, n, prefix);
      MobileTailInWindow(k, u, b, s, i, n, |prefix|);
    }
    if Alternative(k, s, i, prefix) && |prefix| + 10 <= n {
      WindowChars(k, u, b, s, i, n);
      TailKept(k, u, b, s, i, n, |prefix|);
      hide MobileTail;
      LiteralKept(k, u, b, s, i, n, prefix);
    }
  }

  lemma TailKept(k: CharClasses, u: string, b: nat, s: string, i: nat, n: nat, x: nat)
    requires k.Valid() && Window(k, u, b, s, i, n) && x + 10 <= n && MobileTail(k, s, i + x).Some?
    ensures MobileTail(k, u, b + x).Some?
  {
    assert DigitsAt(k, s, i + x, 10);
    DigitsKept(k, u, b, s, i, n, x, 10);
    WindowChars(k, u, b, s, i, n);
    assert u[b + x] == s[i + x];
  }

  lemma LiteralKept(k: CharClasses, u: string, b: nat, s: string, i: nat, n: nat, literal: string)
    requires Window(k, u, b, s, i, n) && |literal| <= n && LiteralAt(s, i, literal)
    ensures LiteralAt(u, b, literal)
  {
    assert s[i..i + n][..|literal|] == s[i..i + |literal|];
    assert u[b..b + n][..|literal|] == u[b..b + |literal|];
  }

  lemma SameMobile(k: CharClasses, u: string, b: nat, s: string, i: nat, n: nat)
    requires k.Valid() && Window(k, u, b, s, i, n) && n > 0
    ensures MobileEnd(k, u, b)
      == match MobileEnd(k, s, i) case Some(e) => (if e <= i + n then Some(b + (e - i)) else None) case None => None
  {
    hide Window, MobileEnd, Alternative;
    forall prefix | prefix in {"+98", "0098", "0", ""}
      ensures Alternative(k, u, b, prefix) <==> Alternative(k, s, i, prefix) && |prefix| + 10 <= n
      ensures Alternative(k, u, b, prefix) ==> MobileEnd(k, u, b) == Some(b + |prefix| + 10)
      ensures Alternative(k, s, i, prefix) ==> MobileEnd(k, s, i) == Some(i + |prefix| + 10)
    {
      AlternativeIff(k, u, b, s, i, n, prefix);
      if Alternative(k, u, b, prefix) {
        MobileByAlternative(k, u, b, prefix);
      }
      if Alternative(k, s, i, prefix) {
        MobileByAlternative(k, s, i, prefix);
      }
    }
    assert b <= |u| && i <= |s| by { WindowInside(k, u, b, s, i, n); }
    if MobileEnd(k, u, b).Some? {
      var prefix := MobileHasAlternative(k, u, b);
    }
    if MobileEnd(k, s, i).Some? {
      var prefix := MobileHasAlternative(k, s, i);
    }
  }

  lemma WindowInside(k: CharClasses, u: string, b: nat, s: string, i: nat, n: nat)
    requires Window(k, u, b, s, i, n)
    ensures b + n <= |u| && i + n <= |s|
  {
  }

  /** A mobile number or national identifier matches in the output exactly when it does in the input, inside what is
      copied. */
  lemma SameMatch(k: CharClasses, q: Pattern, u: string, b: nat, s: string, i: nat, n: nat)
    requires k.Valid() && Window(k, u, b, s, i, n) && n > 0 && q in {Mobile, NationalId}
    requires DigitAt(k, u, b - 1) == DigitAt(k, s, i - 1)
    ensures b <= |u|
    ensures MatchEnd(k, q, u, b)
      == match MatchEnd(k, q, s, i) case Some(e) => (if e <= i + n then Some(b + (e - i)) else None) case None => None
  {
    if q == Mobile {
      hide MobileEnd;
      SameMobile(k, u, b, s, i, n);
    } else {
      if DigitsAt(k, u, b, 10) {
        DigitsInWindow(k, u, b, s, i, n, 0, 10);
      }
      if DigitsAt(k, s, i, 10) && 10 <= n {
        DigitsKept(k, u, b, s, i, n, 0, 10);
      }
    }
  }

  // ----- One more pass is one more pattern of the scan -----

  lemma {:induction false} CopiesRange(k: CharClasses, q: Pattern, u: string, b: nat, e: nat)
    requires b <= e <= |u| && forall j: nat :: b <= j < e ==> !Matches(k, q, u, j)
    ensures SubFrom(k, q, u, b) == u[b..e] + SubFrom(k, q, u, e)
    decreases e - b
  {
    hide MatchEnd;
    if b < e {
      SubUnfolds(k, q, u, b);
      assert !Matches(k, q, u, b);
      CopiesRange(k, q, u, b + 1, e);
      assert u[b..e] == [u[b]] + u[b + 1..e];
    } else {
      assert u[b..b] == "";
    }
  }

  lemma {:induction false} CopiedPart(k: CharClasses, ps: seq<Pattern>, s: string, i: nat, behind: bool, d: nat)
    requires i <= |s| && 0 < d <= Copied(k, ps, s, i, behind)
    ensures i + d <= |s| && ScanFrom(k, ps, s, i, behind) == s[i..i + d] + ScanFrom(k, ps, s, i + d, false)
    decreases d
  {
    hide Scan, ScanFrom, Copied;
    CopiedUnfolds(k, ps, s, i, behind);
    ScanUnfolds(k, ps, s, i, behind);
    if d > 1 {
      CopiedPart(k, ps, s, i + 1, false, d - 1);
      Regroup([s[i]], s[i + 1..i + d], ScanFrom(k, ps, s, i + d, false));
      assert s[i..i + d] == [s[i]] + s[i + 1..i + d];
    } else {
      assert s[i..i + 1] == [s[i]];
    }
  }

  /** Behind a digit nothing is masked, be it marked as masked or not. */
  lemma BehindDigit(k: CharClasses, ps: seq<Pattern>, s: string, i: nat)
    requires k.Valid() && 0 < i <= |s| && DigitAt(k, s, i - 1)
    ensures ScanFrom(k, ps, s, i, false) == ScanFrom(k, ps, s, i, true)
  {
    hide ScanFrom;
    if i < |s| {
      if Scan(k, ps, s, i, false).Some? {
        NoMatchBehindDigit(k, Scan(k, ps, s, i, false).value.pattern, s, i);
      }
      hide Scan;
      ScanUnfolds(k, ps, s, i, false);
      ScanUnfolds(k, ps, s, i, true);
      assert Scan(k, ps, s, i, true).None?;
    } else {
      NothingLeft(k, ps, s, false);
      NothingLeft(k, ps, s, true);
    }
  }

  /** What one more pass adds to the scan. */
  lemma ScanMore(k: CharClasses, ps: seq<Pattern>, q: Pattern, s: string, i: nat, behind: bool)
    requires i <= |s|
    ensures Scan(k, ps + [q], s, i, behind)
      == if behind then None
         else if Scan(k, ps, s, i, false).Some? then Scan(k, ps, s, i, false)
         else match MatchEnd(k, q, s, i)
              case Some(e) => (if e <= i + Copied(k, ps, s, i, false) then Some(Hit(q, e)) else None)
              case None => None
  {
    assert (ps + [q])[..|ps + [q]| - 1] == ps;
    hide MatchEnd;
  }

  lemma DigitBefore(k: CharClasses, before: string, rest: string, s: string, i: nat, behind: bool)
    requires i <= |s| && Joined(k, before, s, i, behind)
    ensures DigitAt(k, before + rest, |before| - 1) == if behind then true else DigitAt(k, s, i - 1)
  {
    assert before != "" ==> (before + rest)[|before| - 1] == before[|before| - 1];
  }

  /** What the pass masks in the output is what the longer scan masks in the input. */
  lemma NextMatch(k: CharClasses, ps: seq<Pattern>, q: Pattern, s: string, i: nat, behind: bool, before: string)
    requires k.Valid() && i < |s| && q in {Mobile, NationalId} && Joined(k, before, s, i, behind)
    requires Scan(k, ps, s, i, behind).None?
    ensures
      var u := before + ScanFrom(k, ps, s, i, behind);
      && |before| < |u|
      && MatchEnd(k, q, u, |before|)
           == match Scan(k, ps + [q], s, i, behind) case Some(h) => Some(|before| + (h.end - i)) case None => None
    ensures
      Scan(k, ps + [q], s, i, behind).Some? ==>
        var h := Scan(k, ps + [q], s, i, behind).value;
        !behind && h.pattern == q && h.end - i <= Copied(k, ps, s, i, false)
  {
    var u := before + ScanFrom(k, ps, s, i, behind);
    var n := Copied(k, ps, s, i, behind);
    assert n > 0;
    ScanMore(k, ps, q, s, i, behind);
    hide Scan, ScanFrom, Copied, MatchEnd;
    OutputWindow(k, ps, s, i, behind, before);
    WindowInside(k, u, |before|, s, i, n);
    DigitBefore(k, before, ScanFrom(k, ps, s, i, behind), s, i, behind);
    hide Window, Joined, DigitAt, CharClasses.Valid;
    if behind {
      if Matches(k, q, u, |before|) {
        NoMatchBehindDigit(k, q, u, |before|);
      }
    } else {
      SameMatch(k, q, u, |before|, s, i, n);
    }
  }

  /** The pass over the output of the scan gives the output of the scan with one more pattern. */
  lemma {:induction false} PassAfterScan(k: CharClasses, ps: seq<Pattern>, q: Pattern, s: string, i: nat, behind: bool,
      before: string)
    requires k.Valid() && i <= |s| && q in {Mobile, NationalId} && Joined(k, before, s, i, behind)
    ensures SubFrom(k, q, before + ScanFrom(k, ps, s, i, behind), |before|) == ScanFrom(k, ps + [q], s, i, behind)
    decreases |s| - i
  {
    hide Scan, MatchEnd, Mask, Readable, ScanFrom, SubFrom, Copied;
    var u := before + ScanFrom(k, ps, s, i, behind);
    var b := |before|;
    if i == |s| {
      NothingLeft(k, ps, s, behind);
      NothingLeft(k, ps + [q], s, behind);
      NothingToSubstitute(k, q, u);
    } else {
      ScanUnfolds(k, ps + [q], s, i, behind);
      if Scan(k, ps, s, i, behind).Some? {
        AfterMask(k, ps, q, s, i, behind, before);
        ScanMore(k, ps, q, s, i, behind);
        var h := Scan(k, ps, s, i, behind).value;
        BehindReplacement(k, ps, s, i, behind, before);
        PassAfterScan(k, ps, q, s, h.end, true, before + Replacement(k, h, s, i));
      } else {
        NextMatch(k, ps, q, s, i, behind, before);
        SubUnfolds(k, q, u, b);
        if Scan(k, ps + [q], s, i, behind).Some? {
          var e := Scan(k, ps + [q], s, i, behind).value.end;
          AfterMatch(k, ps, q, s, i, before, e);
          PassAfterScan(k, ps, q, s, e, false, before + s[i..e]);
        } else {
          BehindCopy(k, ps, s, i, behind, before);
          ScanUnfolds(k, ps, s, i, behind);
          PassAfterScan(k, ps, q, s, i + 1, false, before + [s[i]]);
        }
      }
    }
  }

  lemma NothingToSubstitute(k: CharClasses, q: Pattern, u: string)
    ensures SubFrom(k, q, u, |u|) == ""
  {
  }

  lemma NothingInReplacement(k: CharClasses, ps: seq<Pattern>, q: Pattern, s: string, i: nat, behind: bool,
      before: string, j: nat)
    requires k.Valid() && i < |s| && q in {Mobile, NationalId} && Scan(k, ps, s, i, behind).Some?
    requires |before| <= j < |before| + |Replacement(k, Scan(k, ps, s, i, behind).value, s, i)|
    ensures j <= |before + ScanFrom(k, ps, s, i, behind)|
    ensures !Matches(k, q, before + ScanFrom(k, ps, s, i, behind), j)
  {
    hide Scan, MatchEnd, Mask, Readable, ScanFrom, Replacement;
    BehindReplacement(k, ps, s, i, behind, before);
    ReplacedStart(k, ps, q, s, i, behind, before, j);
  }

  /** What earlier passes mask, a later pass copies. */
  lemma AfterMask(k: CharClasses, ps: seq<Pattern>, q: Pattern, s: string, i: nat, behind: bool, before: string)
    requires k.Valid() && i < |s| && q in {Mobile, NationalId} && Scan(k, ps, s, i, behind).Some?
    ensures
      var h := Scan(k, ps, s, i, behind).value;
      var u := before + ScanFrom(k, ps, s, i, behind);
      var replaced := Replacement(k, h, s, i);
      && |before| + |replaced| <= |u|
      && SubFrom(k, q, u, |before|) == replaced + SubFrom(k, q, u, |before| + |replaced|)
  {
    hide Scan, MatchEnd, Mask, Readable, ScanFrom, SubFrom, Copied, Replacement, Joined;
    var h := Scan(k, ps, s, i, behind).value;
    var replaced := Replacement(k, h, s, i);
    var rest := ScanFrom(k, ps, s, h.end, true);
    var u := before + ScanFrom(k, ps, s, i, behind);
    forall j: nat | |before| <= j < |before| + |replaced| ensures j <= |u| && !Matches(k, q, u, j) {
      NothingInReplacement(k, ps, q, s, i, behind, before, j);
    }
    ScanUnfolds(k, ps, s, i, behind);
    Regroup(before, replaced, rest);
    hide Matches, CharClasses.Valid;
    CopiesRange(k, q, u, |before|, |before| + |replaced|);
  }

  /** What the pass masks was copied so far, and the scan goes on behind a digit. */
  lemma AfterMatch(k: CharClasses, ps: seq<Pattern>, q: Pattern, s: string, i: nat, before: string, e: nat)
    requires k.Valid() && i < |s| && q in {Mobile, NationalId} && MatchEnd(k, q, s, i) == Some(e)
    requires i < e <= i + Copied(k, ps, s, i, false)
    ensures e <= |s|
    ensures
      var u := before + ScanFrom(k, ps, s, i, false);
      && Joined(k, before + s[i..e], s, e, false)
      && u == (before + s[i..e]) + ScanFrom(k, ps, s, e, false)
      && u[|before|..|before| + (e - i)] == s[i..e]
      && ScanFrom(k, ps + [q], s, e, true) == ScanFrom(k, ps + [q], s, e, false)
  {
    EndsWithDigit(k, q, s, i);
    hide Scan, MatchEnd, ScanFrom, Copied, DigitAt;
    CopiedPart(k, ps, s, i, false, e - i);
    BehindDigit(k, ps + [q], s, e);
    Regroup(before, s[i..e], ScanFrom(k, ps, s, e, false));
    JoinedBehind(k, before, s, i, e);
    hide Joined, CharClasses.Valid;
  }

  lemma JoinedBehind(k: CharClasses, before: string, s: string, i: nat, e: nat)
    requires i < e <= |s|
    ensures Joined(k, before + s[i..e], s, e, false)
  {
    assert (before + s[i..e])[|before + s[i..e]| - 1] == s[e - 1];
  }

  /** The passes for cards, mobile numbers and national identifiers, in this order. */
  const LAST_PASSES: seq<Pattern> := [Card, Mobile, NationalId]

  /** Three passes are one scan. */
  lemma ThreePassesAreOneScan(k: CharClasses, t: string)
    requires k.Valid()
    ensures Sub(k, NationalId, Sub(k, Mobile, Sub(k, Card, t))) == ScanFrom(k, LAST_PASSES, t, 0, false)
  {
    hide Scan, MatchEnd, ScanFrom, SubFrom, Copied;
    PassIsScan(k, Card, t, 0, false);
    PassAfterScan(k, [Card], Mobile, t, 0, false, "");
    PassAfterScan(k, [Card, Mobile], NationalId, t, 0, false, "");
    assert [Card] + [Mobile] == [Card, Mobile] && [Card, Mobile] + [NationalId] == LAST_PASSES;
    assert "" + ScanFrom(k, [Card], t, 0, false) == ScanFrom(k, [Card], t, 0, false);
    assert "" + ScanFrom(k, [Card, Mobile], t, 0, false) == ScanFrom(k, [Card, Mobile], t, 0, false);
  }
}
