/** Passes of `redact_text` as scanners: what one pass, or several passes after one another, mask and copy when the text
    is read once, and how matches in the output relate to matches in the input. */
module Scanning {
  import opened PyValues
  import opened Masking

  /** The pattern matches at position `i`. */
  predicate Matches(k: CharClasses, q: Pattern, s: string, i: nat)
    requires i <= |s|
  {
    MatchEnd(k, q, s, i).Some?
  }

  // ----- Several passes in one scan -----

  /** What is masked: the pattern that masks it, and where it ends. */
  datatype Hit = Hit(pattern: Pattern, end: nat)

  /** What the passes, one after the other, mask at position `i`. Each later pass masks a match only if it lies in
      what the earlier ones copy; and right behind something masked (`behind`) nothing is masked, because a digit
      stands there. */
  function Scan(k: CharClasses, ps: seq<Pattern>, s: string, i: nat, behind: bool): (h: Option<Hit>)
    requires i <= |s|
    ensures h.Some? ==> h.value.pattern in ps && MatchEnd(k, h.value.pattern, s, i) == Some(h.value.end)
    ensures h.Some? ==> !behind && i < h.value.end <= |s|
    decreases |ps|, 0, 0
  {
    if behind || ps == [] then None
    else
      var earlier, q := ps[..|ps| - 1], ps[|ps| - 1];
      var first := Scan(k, earlier, s, i, behind);
      if first.Some? then first
      else
        match MatchEnd(k, q, s, i)
        case Some(e) => if e <= i + Copied(k, earlier, s, i, behind) then Some(Hit(q, e)) else None
        case None => None
  }

  /** How many characters from position `i` on are copied before the next thing masked. */
  function Copied(k: CharClasses, ps: seq<Pattern>, s: string, i: nat, behind: bool): (n: nat)
    requires i <= |s|
    ensures i + n <= |s|
    decreases |ps|, 1, |s| - i
  {
    if i == |s| || Scan(k, ps, s, i, behind).Some? then 0 else 1 + Copied(k, ps, s, i + 1, false)
  }

  /** The output of the scan from position `i` on. */
  function ScanFrom(k: CharClasses, ps: seq<Pattern>, s: string, i: nat, behind: bool): string
    requires i <= |s|
    decreases |s| - i
  {
    if i == |s| then ""
    else
      match Scan(k, ps, s, i, behind)
      case Some(h) => Replacement(k, h, s, i) + ScanFrom(k, ps, s, h.end, true)
      case None => [s[i]] + ScanFrom(k, ps, s, i + 1, false)
  }

  /** What stands in the output for something masked. */
  function Replacement(k: CharClasses, h: Hit, s: string, i: nat): string
    requires i <= h.end <= |s|
  {
    Mask(h.pattern) + Readable(k, h.pattern, s[i..h.end])
  }

  lemma ScanUnfolds(k: CharClasses, ps: seq<Pattern>, s: string, i: nat, behind: bool)
    requires i < |s|
    ensures
      match Scan(k, ps, s, i, behind)
      case Some(h) => ScanFrom(k, ps, s, i, behind) == Replacement(k, h, s, i) + ScanFrom(k, ps, s, h.end, true)
      case None => ScanFrom(k, ps, s, i, behind) == [s[i]] + ScanFrom(k, ps, s, i + 1, false)
  {
    hide Scan, Replacement;
  }

  /** What is masked ends where no digit run is cut, does not begin inside one, and leaves four digits. */
  lemma HitShape(k: CharClasses, ps: seq<Pattern>, s: string, i: nat, behind: bool)
    requires k.Valid() && i <= |s| && Scan(k, ps, s, i, behind).Some?
    ensures
      var h := Scan(k, ps, s, i, behind).value;
      var four := Readable(k, h.pattern, s[i..h.end]);
      !DigitAt(k, s, h.end) && !DigitAt(k, s, i - 1) && |four| == 4 && DigitsAt(k, four, 0, 4)
  {
    var h := Scan(k, ps, s, i, behind).value;
    MatchShape(k, h.pattern, s, i);
    NoMatchBehindDigit(k, h.pattern, s, i);
  }

  /** The first pass matches on the text itself. */
  lemma {:induction false} FirstPassMasks(k: CharClasses, ps: seq<Pattern>, s: string, i: nat)
    requires ps != [] && i <= |s| && Matches(k, ps[0], s, i)
    ensures Scan(k, ps, s, i, false).Some?
    decreases |ps|
  {
    if |ps| == 1 {
      NothingMasked(k, [], s, i);
      assert ps[..0] == [];
    } else {
      FirstPassMasks(k, ps[..|ps| - 1], s, i);
    }
  }

  lemma {:induction false} NothingMasked(k: CharClasses, ps: seq<Pattern>, s: string, i: nat)
    requires ps == [] && i <= |s|
    ensures Copied(k, ps, s, i, false) == |s| - i
    decreases |s| - i
  {
    if i < |s| {
      NothingMasked(k, ps, s, i + 1);
    }
  }

  /** Right behind a match of a single pattern the pattern does not match: it ends with a digit, or before no digit. */
  lemma NoMatchBehindMatch(k: CharClasses, p: Pattern, s: string, i: nat)
    requires k.Valid() && i <= |s| && Matches(k, p, s, i)
    ensures !Matches(k, p, s, MatchEnd(k, p, s, i).value)
  {
    var e := MatchEnd(k, p, s, i).value;
    MatchShape(k, p, s, i);
    if p == Card {
      hide CardTail;
      NoCardStart(k, s, e);
    } else {
      assert DigitAt(k, s, e - 1) by { EndsWithDigit(k, p, s, i); }
      if Matches(k, p, s, e) {
        NoMatchBehindDigit(k, p, s, e);
      }
    }
  }

  lemma NoCardStart(k: CharClasses, s: string, i: nat)
    requires i <= |s| && !DigitAt(k, s, i)
    ensures !Matches(k, Card, s, i)
  {
  }

  lemma EndsWithDigit(k: CharClasses, p: Pattern, s: string, i: nat)
    requires i <= |s| && Matches(k, p, s, i) && p != Card
    ensures var e := MatchEnd(k, p, s, i).value; DigitAt(k, s, e - 1)
  {
  }

  /** A scan for a single pattern is the pass. */
  lemma {:induction false} PassIsScan(k: CharClasses, p: Pattern, s: string, i: nat, behind: bool)
    requires k.Valid() && i <= |s| && (behind ==> !Matches(k, p, s, i))
    ensures SubFrom(k, p, s, i) == ScanFrom(k, [p], s, i, behind)
    decreases |s| - i
  {
    if i < |s| {
      hide MatchEnd, Readable, Mask, ScanFrom, SubFrom;
      SubUnfolds(k, p, s, i);
      ScanUnfolds(k, [p], s, i, behind);
      SingleScan(k, p, s, i, behind);
      if Matches(k, p, s, i) {
        NoMatchBehindMatch(k, p, s, i);
        PassIsScan(k, p, s, MatchEnd(k, p, s, i).value, true);
      } else {
        PassIsScan(k, p, s, i + 1, false);
      }
    }
  }

  lemma SingleScan(k: CharClasses, p: Pattern, s: string, i: nat, behind: bool)
    requires i <= |s| && (behind ==> !Matches(k, p, s, i))
    ensures Scan(k, [p], s, i, behind)
      == match MatchEnd(k, p, s, i) case Some(e) => Some(Hit(p, e)) case None => None
  {
    hide MatchEnd;
    if Matches(k, p, s, i) {
      FirstPassMasks(k, [p], s, i);
      assert Scan(k, [p], s, i, behind).value.pattern in [p];
    }
  }

  // ----- How the output follows the input -----

  lemma Regroup(x: string, y: string, z: string)
    ensures x + (y + z) == (x + y) + z
    ensures (x + (y + z))[|x|..|x| + |y|] == y
  {
  }

  /** What the scan masks begins with its mask. */
  lemma MaskStands(k: CharClasses, ps: seq<Pattern>, s: string, i: nat)
    requires i < |s| && Scan(k, ps, s, i, false).Some?
    ensures Mask(Scan(k, ps, s, i, false).value.pattern) <= ScanFrom(k, ps, s, i, false)
  {
    hide Scan, Mask, Readable, ScanFrom;
    ScanUnfolds(k, ps, s, i, false);
  }

  lemma CopiedUnfolds(k: CharClasses, ps: seq<Pattern>, s: string, i: nat, behind: bool)
    requires i <= |s|
    ensures Copied(k, ps, s, i, behind)
      == if i == |s| || Scan(k, ps, s, i, behind).Some? then 0 else 1 + Copied(k, ps, s, i + 1, false)
  {
    hide Scan;
  }

  lemma {:induction false} CopiedThenRest(k: CharClasses, ps: seq<Pattern>, s: string, i: nat, behind: bool)
    requires i <= |s|
    ensures
      var m := i + Copied(k, ps, s, i, behind);
      && (m < |s| ==> Scan(k, ps, s, m, false).Some?)
      && ScanFrom(k, ps, s, i, behind) == s[i..m] + ScanFrom(k, ps, s, m, false)
    decreases |s| - i
  {
    hide Scan, ScanFrom, Copied;
    var m := i + Copied(k, ps, s, i, behind);
    CopiedUnfolds(k, ps, s, i, behind);
    if i == |s| {
      NothingLeft(k, ps, s, behind);
      NothingLeft(k, ps, s, false);
    } else if Scan(k, ps, s, i, behind).None? {
      CopiedThenRest(k, ps, s, i + 1, false);
      ScanUnfolds(k, ps, s, i, behind);
      Regroup([s[i]], s[i + 1..m], ScanFrom(k, ps, s, m, false));
      assert [s[i]] + s[i + 1..m] == s[i..m];
    } else {
      assert m == i && !behind && s[i..i] == "";
    }
  }

  lemma CopiedThenMask(k: CharClasses, ps: seq<Pattern>, s: string, i: nat, behind: bool)
    requires i <= |s|
    ensures
      var m := i + Copied(k, ps, s, i, behind);
      var rest := ScanFrom(k, ps, s, m, false);
      && ScanFrom(k, ps, s, i, behind) == s[i..m] + rest
      && (m < |s| ==> Scan(k, ps, s, m, false).Some? && Mask(Scan(k, ps, s, m, false).value.pattern) <= rest)
  {
    hide Scan, Mask, ScanFrom, Copied;
    var m := i + Copied(k, ps, s, i, behind);
    CopiedThenRest(k, ps, s, i, behind);
    if m < |s| {
      MaskStands(k, ps, s, m);
    }
  }

  /** No match begins right behind a digit. */
  lemma NoMatchBehindDigit(k: CharClasses, p: Pattern, s: string, i: nat)
    requires k.Valid() && i <= |s| && Matches(k, p, s, i)
    ensures !DigitAt(k, s, i - 1)
  {
  }

  /** From position `b` of `u` on, `n` characters are those of `s` from position `i` on; both strings end there, or `u`
      goes on with a mask and the last of the characters is not a digit. What stands before is no easier for `u`. */
  ghost predicate Window(k: CharClasses, u: string, b: nat, s: string, i: nat, n: nat) {
    && b + n <= |u| && i + n <= |s|
    && u[b..b + n] == s[i..i + n]
    && (b + n == |u| <==> i + n == |s|)
    && (b + n < |u| ==> u[b + n] == '*' || u[b + n] == 'I')
    && (b + n < |u| && n > 0 ==> !k.digit(s[i + n - 1]))
    && (!DigitAt(k, u, b - 1) ==> !DigitAt(k, s, i - 1))
    && (!WordAt(k, u, b - 1) ==> !WordAt(k, s, i - 1))
  }

  lemma WindowChars(k: CharClasses, u: string, b: nat, s: string, i: nat, n: nat)
    requires k.Valid() && Window(k, u, b, s, i, n)
    ensures forall y :: i <= y < i + n ==> s[y] == u[y - i + b]
    ensures forall x :: b <= x < b + n ==> u[x] == s[x - b + i]
    ensures b + n < |u| ==> !k.digit(u[b + n]) && !k.letterR(u[b + n])
  {
    var chars := s[i..i + n];
    forall y | i <= y < i + n ensures s[y] == chars[y - i] {
    }
    forall x | b <= x < b + n ensures u[x] == chars[x - b] {
      assert u[b..b + n][x - b] == u[x];
    }
  }

  /** Digits of `u` inside the window are digits of `s`, and what follows them is a digit in both or in neither. */
  lemma DigitsInWindow(k: CharClasses, u: string, b: nat, s: string, i: nat, n: nat, x: nat, c: nat)
    requires k.Valid() && Window(k, u, b, s, i, n) && x <= n && c > 0 && DigitsAt(k, u, b + x, c)
    ensures x + c <= n && DigitsAt(k, s, i + x, c)
    ensures DigitAt(k, u, b + x + c) == DigitAt(k, s, i + x + c)
    ensures WordAt(k, u, b + x + c) == WordAt(k, s, i + x + c)
  {
    WindowChars(k, u, b, s, i, n);
    assert s[i + x + c - 1] == u[b + x + c - 1];
    forall y | i + x <= y < i + x + c ensures k.digit(s[y]) {
      assert s[y] == u[y - i + b];
    }
  }

  lemma {:induction false} CardTailInWindow(k: CharClasses, u: string, b: nat, s: string, i: nat, n: nat, x: nat,
      c: nat)
    requires k.Valid() && Window(k, u, b, s, i, n) && x <= n && c > 0 && CardTail(k, u, b + x, c).Some?
    ensures CardTail(k, s, i + x, c).Some? && x + c <= n
    decreases c
  {
    DigitsInWindow(k, u, b, s, i, n, x, 1);
    WindowChars(k, u, b, s, i, n);
    assert DigitAt(k, s, i + x);
    if SeparatorAt(u, b + x + 1) {
      assert SeparatorAt(s, i + x + 1);
    }
    if c > 1 {
      if SeparatorAt(u, b + x + 1) && CardTail(k, u, b + x + 2, c - 1).Some? {
        CardTailInWindow(k, u, b, s, i, n, x + 2, c - 1);
      } else {
        CardTailInWindow(k, u, b, s, i, n, x + 1, c - 1);
      }
    }
  }

  lemma MobileTailInWindow(k: CharClasses, u: string, b: nat, s: string, i: nat, n: nat, x: nat)
    requires k.Valid() && Window(k, u, b, s, i, n) && x <= n && MobileTail(k, u, b + x).Some?
    ensures x + 10 <= n && MobileTail(k, s, i + x).Some?
  {
    assert DigitsAt(k, u, b + x, 10);
    DigitsInWindow(k, u, b, s, i, n, x, 10);
    WindowChars(k, u, b, s, i, n);
    assert s[i + x] == u[b + x];
  }

  lemma LiteralInWindow(k: CharClasses, u: string, b: nat, s: string, i: nat, n: nat, literal: string)
    requires Window(k, u, b, s, i, n) && |literal| <= n && LiteralAt(u, b, literal)
    ensures LiteralAt(s, i, literal)
  {
    assert s[i..i + n][..|literal|] == s[i..i + |literal|];
    assert u[b..b + n][..|literal|] == u[b..b + |literal|];
  }

  /** A literal of digits, or a plus and digits, lies inside the window. */
  lemma PrefixInWindow(k: CharClasses, u: string, b: nat, s: string, i: nat, n: nat, literal: string)
    requires k.Valid() && Window(k, u, b, s, i, n) && n > 0
    requires literal in {"+98", "0098", "0"} && LiteralAt(u, b, literal)
    ensures |literal| <= n
  {
    forall y | b <= y < b + |literal| ensures u[y] == literal[y - b] {
      assert u[b..b + |literal|][y - b] == u[y];
    }
    if literal == "+98" {
      DigitsInWindow(k, u, b, s, i, n, 1, 2);
    } else {
      DigitsInWindow(k, u, b, s, i, n, 0, |literal|);
    }
  }

  lemma MobileInWindow(k: CharClasses, u: string, b: nat, s: string, i: nat, n: nat)
    requires k.Valid() && Window(k, u, b, s, i, n) && n > 0 && MobileEnd(k, u, b).Some?
    ensures MobileEnd(k, s, i).Some? && n >= 10
  {
    hide Window, LiteralAt, MobileTail;
    if LiteralAt(u, b, "+98") && MobileTail(k, u, b + 3).Some? {
      PrefixInWindow(k, u, b, s, i, n, "+98");
      LiteralInWindow(k, u, b, s, i, n, "+98");
      MobileTailInWindow(k, u, b, s, i, n, 3);
    } else if LiteralAt(u, b, "0098") && MobileTail(k, u, b + 4).Some? {
      PrefixInWindow(k, u, b, s, i, n, "0098");
      LiteralInWindow(k, u, b, s, i, n, "0098");
      MobileTailInWindow(k, u, b, s, i, n, 4);
    } else if LiteralAt(u, b, "0") && MobileTail(k, u, b + 1).Some? {
      PrefixInWindow(k, u, b, s, i, n, "0");
      LiteralInWindow(k, u, b, s, i, n, "0");
      MobileTailInWindow(k, u, b, s, i, n, 1);
    } else {
      MobileTailInWindow(k, u, b, s, i, n, 0);
    }
  }

  /** A match at the start of the window is a match of the input. */
  lemma MatchInWindow(k: CharClasses, q: Pattern, u: string, b: nat, s: string, i: nat, n: nat)
    requires k.Valid() && Window(k, u, b, s, i, n) && n > 0 && Matches(k, q, u, b)
    ensures Matches(k, q, s, i) && n >= 5
  {
    hide CardTail, MobileEnd;
    match q {
      case Iban =>
        IbanInWindow(k, u, b, s, i, n);
      case Card =>
        CardTailInWindow(k, u, b, s, i, n, 0, 16);
      case Mobile =>
        MobileInWindow(k, u, b, s, i, n);
      case NationalId =>
        DigitsInWindow(k, u, b, s, i, n, 0, 10);
    }
  }

  lemma IbanInWindow(k: CharClasses, u: string, b: nat, s: string, i: nat, n: nat)
    requires k.Valid() && Window(k, u, b, s, i, n) && n > 0 && IbanEnd(k, u, b).Some?
    ensures IbanEnd(k, s, i).Some? && n >= 26
  {
    WindowChars(k, u, b, s, i, n);
    assert n > 1;
    DigitsInWindow(k, u, b, s, i, n, 2, 24);
    assert s[i] == u[b] && s[i + 1] == u[b + 1] && s[i + 25] == u[b + 25];
  }

  // ----- The scan and its output side by side -----

  /** The output so far fits the input read so far: something was just masked and the input does not go on with a
      digit, or both are empty, or the last character was copied. */
  ghost predicate Joined(k: CharClasses, before: string, s: string, i: nat, behind: bool)
    requires i <= |s|
  {
    if behind then before != "" && k.digit(before[|before| - 1]) && !DigitAt(k, s, i)
    else (before == "" && i == 0) || (before != "" && i > 0 && before[|before| - 1] == s[i - 1])
  }

  /** Copied characters between what stands before them and a mask, or the end, are a window. */
  lemma CopiedWindow(k: CharClasses, s: string, i: nat, m: nat, behind: bool, before: string, rest: string)
    requires k.Valid() && i <= m <= |s| && Joined(k, before, s, i, behind)
    requires if m < |s| then rest != "" && (rest[0] == '*' || rest[0] == 'I') && !DigitAt(k, s, m - 1) else rest == ""
    ensures Window(k, before + (s[i..m] + rest), |before|, s, i, m - i)
  {
    var u := before + (s[i..m] + rest);
    var b := |before|;
    assert u[b..b + (m - i)] == s[i..m];
    assert m < |s| ==> u[b + (m - i)] == rest[0];
    assert b > 0 ==> u[b - 1] == before[b - 1];
  }

  lemma OutputWindow(k: CharClasses, ps: seq<Pattern>, s: string, i: nat, behind: bool, before: string)
    requires k.Valid() && i <= |s| && Joined(k, before, s, i, behind)
    ensures Window(k, before + ScanFrom(k, ps, s, i, behind), |before|, s, i, Copied(k, ps, s, i, behind))
  {
    hide Scan, Mask, Readable, ScanFrom, Copied, Window, Joined;
    var m := i + Copied(k, ps, s, i, behind);
    CopiedThenMask(k, ps, s, i, behind);
    if m < |s| {
      HitShape(k, ps, s, m, false);
      MaskChars(Scan(k, ps, s, m, false).value.pattern);
    } else {
      NothingLeft(k, ps, s, false);
    }
    CopiedWindow(k, s, i, m, behind, before, ScanFrom(k, ps, s, m, false));
  }

  /** The output goes on with a digit only where the input does. */
  lemma RestStart(k: CharClasses, ps: seq<Pattern>, s: string, i: nat, behind: bool)
    requires k.Valid() && i <= |s|
    ensures DigitAt(k, ScanFrom(k, ps, s, i, behind), 0) ==> DigitAt(k, s, i)
  {
    hide Scan, Readable, ScanFrom;
    if i < |s| {
      ScanUnfolds(k, ps, s, i, behind);
      if Scan(k, ps, s, i, behind).Some? {
        MaskHasNoDigits(k, Scan(k, ps, s, i, behind).value.pattern);
      }
    } else {
      NothingLeft(k, ps, s, behind);
    }
  }

  lemma NothingLeft(k: CharClasses, ps: seq<Pattern>, s: string, behind: bool)
    ensures ScanFrom(k, ps, s, |s|, behind) == ""
  {
  }

  /** Four digits and a separator in the window stand in both strings. */
  lemma DigitsBack(k: CharClasses, u: string, b: nat, s: string, i: nat, n: nat)
    requires k.Valid() && Window(k, u, b, s, i, n) && n >= 5
    ensures DigitsAt(k, s, i, 4) ==> DigitsAt(k, u, b, 4)
    ensures SeparatorAt(s, i + 4) ==> SeparatorAt(u, b + 4)
  {
    WindowChars(k, u, b, s, i, n);
    assert u[b + 4] == s[i + 4];
  }

  /** A card number that does not begin with more than `c` digits in a row goes on with a separator. */
  lemma {:induction false} SeparatorFollows(k: CharClasses, u: string, i: nat, c: nat, m: nat)
    requires k.Valid() && 0 < c < m && DigitsAt(k, u, i, c) && !DigitAt(k, u, i + c) && CardTail(k, u, i, m).Some?
    ensures SeparatorAt(u, i + c)
    decreases c
  {
    if c > 1 {
      assert DigitAt(k, u, i + 1);
      SeparatorFollows(k, u, i + 1, c - 1, m - 1);
    }
  }

  // ----- Matches inside a replacement -----

  /** A mask consists of stars, behind the two letters of an account number. */
  lemma MaskChars(p: Pattern)
    ensures |Mask(p)| > 2
    ensures forall x :: 0 <= x < |Mask(p)| ==> Mask(p)[x] == if p == Iban && x < 2 then "IR"[x] else '*'
  {
  }

  lemma MaskStart(k: CharClasses, p: Pattern, q: Pattern, u: string, at: nat, j: nat)
    requires k.Valid() && at <= j < at + |Mask(p)| <= |u|
    requires forall x :: at <= x < at + |Mask(p)| ==> u[x] == Mask(p)[x - at]
    ensures !Matches(k, q, u, j)
  {
    MaskChars(p);
    hide Mask;
    assert !k.digit(u[j]) && u[j] != '+' && u[j] != '0';
    match q {
      case Iban =>
        if k.letterI(u[j]) && p == Iban && j == at {
          assert u[j + 2] == '*';
        }
      case Card =>
      case Mobile =>
        NoMobileStart(k, u, j);
      case NationalId =>
    }
  }

  lemma NoMobileStart(k: CharClasses, u: string, j: nat)
    requires k.Valid() && j < |u| && !k.digit(u[j]) && u[j] != '+'
    ensures MobileEnd(k, u, j).None?
  {
    forall literal | literal in {"+98", "0098", "0"} && LiteralAt(u, j, literal) ensures u[j] == literal[0] {
      assert u[j..j + |literal|][0] == literal[0];
    }
  }

  lemma FourStart(k: CharClasses, q: Pattern, u: string, j: nat)
    requires k.Valid() && DigitsAt(k, u, j, 4) && !DigitAt(k, u, j + 4)
    ensures Matches(k, q, u, j) ==> q == Card && SeparatorAt(u, j + 4)
  {
    assert k.digit(u[j]);
    if q == Card && Matches(k, q, u, j) {
      SeparatorFollows(k, u, j, 4, 16);
    }
  }

  /** Inside a replacement a match can only start at its four digits, and only that of a card number. */
  lemma ReplacementStart(k: CharClasses, p: Pattern, q: Pattern, before: string, four: string, rest: string, j: nat)
    requires k.Valid() && |four| == 4 && DigitsAt(k, four, 0, 4) && !DigitAt(k, rest, 0)
    requires |before| <= j < |before| + |Mask(p)| + 4
    ensures
      var u := before + (Mask(p) + four + rest);
      Matches(k, q, u, j) ==>
        && j == |before| + |Mask(p)| && q == Card
        && u[j - 1] == '*' && DigitsAt(k, u, j, 4) && SeparatorAt(u, j + 4)
  {
    var mask := Mask(p);
    var u := before + (mask + four + rest);
    var start := |before| + |mask|;
    assert forall x :: |before| <= x < start ==> u[x] == mask[x - |before|];
    assert forall x :: start <= x < start + 4 ==> u[x] == four[x - start];
    assert start + 4 < |u| ==> u[start + 4] == rest[0];
    assert u[start - 1] == '*' by { MaskChars(p); }
    if j < start {
      MaskStart(k, p, q, u, |before|, j);
    } else if j == start {
      FourStart(k, q, u, j);
    } else {
      assert DigitAt(k, u, j - 1);
    }
  }

  /** The scan goes on behind something masked as it began. */
  lemma BehindReplacement(k: CharClasses, ps: seq<Pattern>, s: string, i: nat, behind: bool, before: string)
    requires k.Valid() && i < |s| && Scan(k, ps, s, i, behind).Some?
    ensures
      var h := Scan(k, ps, s, i, behind).value;
      var before' := before + Replacement(k, h, s, i);
      && Joined(k, before', s, h.end, true)
      && before + ScanFrom(k, ps, s, i, behind) == before' + ScanFrom(k, ps, s, h.end, true)
      && |before'| == |before| + |Mask(h.pattern)| + 4
      && !DigitAt(k, ScanFrom(k, ps, s, h.end, true), 0)
  {
    hide Scan, Mask, Readable, ScanFrom;
    HitShape(k, ps, s, i, behind);
    ScanUnfolds(k, ps, s, i, behind);
    RestStart(k, ps, s, Scan(k, ps, s, i, behind).value.end, true);
  }

  lemma BehindCopy(k: CharClasses, ps: seq<Pattern>, s: string, i: nat, behind: bool, before: string)
    requires i < |s| && Scan(k, ps, s, i, behind).None?
    ensures Joined(k, before + [s[i]], s, i + 1, false)
    ensures before + ScanFrom(k, ps, s, i, behind) == (before + [s[i]]) + ScanFrom(k, ps, s, i + 1, false)
  {
    hide Scan, ScanFrom;
    ScanUnfolds(k, ps, s, i, behind);
  }

  /** A copied character starts a match in the output only if it starts one in the input, and is not right behind a
      mask. */
  lemma CopiedStart(k: CharClasses, ps: seq<Pattern>, q: Pattern, s: string, i: nat, behind: bool, before: string)
    requires k.Valid() && i < |s| && Joined(k, before, s, i, behind) && Scan(k, ps, s, i, behind).None?
    requires Matches(k, q, before + ScanFrom(k, ps, s, i, behind), |before|)
    ensures !behind && Matches(k, q, s, i) && Copied(k, ps, s, i, behind) >= 5
  {
    var u := before + ScanFrom(k, ps, s, i, behind);
    NoMatchBehindDigit(k, q, u, |before|);
    OutputWindow(k, ps, s, i, behind, before);
    var n := Copied(k, ps, s, i, behind);
    assert n > 0;
    hide MatchEnd, Scan, ScanFrom, Copied;
    MatchInWindow(k, q, u, |before|, s, i, n);
  }
}
