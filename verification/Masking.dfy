/** `redact_text` of src/jibit/redaction.py: four regular-expression passes as left-to-right scanners. */
module Masking {
  import opened PyValues

  /** The character classes of the regular-expression engine. Digits and word characters go beyond ASCII,
      and ignoring case lets more than two characters match each letter of the IBAN prefix. */
  datatype CharClasses = CharClasses(digit: char -> bool, word: char -> bool, letterI: char -> bool,
      letterR: char -> bool)
  {
    ghost predicate Valid() {
      && (forall c :: '0' <= c <= '9' ==> digit(c))
      && (forall c :: digit(c) ==> word(c))
      && (forall c :: letterI(c) || letterR(c) ==> word(c) && !digit(c))
      && !digit('I') && !digit('R') && !digit('*') && !digit('+')
      && !digit(' ') && !digit('-')
      && !word('*') && !letterR('I')
    }
  }

  /** The ASCII classes are such classes. */
  lemma ClassesExist()
    ensures exists k: CharClasses :: k.Valid()
  {
    var digit := (c: char) => '0' <= c <= '9';
    var word := (c: char) => '0' <= c <= '9' || 'a' <= c <= 'z' || 'A' <= c <= 'Z' || c == '_';
    var k := CharClasses(digit, word, c => c == 'i' || c == 'I', c => c == 'r' || c == 'R');
    assert k.Valid();
  }

  predicate DigitAt(k: CharClasses, s: string, i: int) {
    0 <= i < |s| && k.digit(s[i])
  }

  predicate WordAt(k: CharClasses, s: string, i: int) {
    0 <= i < |s| && k.word(s[i])
  }

  /** `\b` between positions `i - 1` and `i`. */
  predicate BoundaryAt(k: CharClasses, s: string, i: int) {
    WordAt(k, s, i - 1) != WordAt(k, s, i)
  }

  /** `\d{n}` from position `i`. */
  predicate DigitsAt(k: CharClasses, s: string, i: nat, n: nat) {
    i + n <= |s| && forall j :: i <= j < i + n ==> k.digit(s[j])
  }

  predicate LiteralAt(s: string, i: nat, literal: string) {
    i + |literal| <= |s| && s[i..i + |literal|] == literal
  }

  predicate SeparatorAt(s: string, i: nat) {
    i < |s| && (s[i] == ' ' || s[i] == '-')
  }

  // ----- The four patterns: where a match starting at `i` ends -----

  datatype Pattern = Iban | Card | Mobile | NationalId

  function IbanEnd(k: CharClasses, s: string, i: nat): Option<nat> {
    if i + 26 <= |s| && BoundaryAt(k, s, i) && k.letterI(s[i]) && k.letterR(s[i + 1])
       && DigitsAt(k, s, i + 2, 24) && BoundaryAt(k, s, i + 26)
    then Some(i + 26) else None
  }

  /** `(?:\d[ -]?){n}(?!\d)`: a separator is taken when that leads to a match, and given back otherwise. */
  function CardTail(k: CharClasses, s: string, i: nat, n: nat): (e: Option<nat>)
    ensures e.Some? ==> i + n <= e.value <= |s| || (n == 0 && e.value == i)
    ensures e.Some? ==> !DigitAt(k, s, e.value)
    decreases n
  {
    if n == 0 then if DigitAt(k, s, i) then None else Some(i)
    else if !DigitAt(k, s, i) then None
    else
      var taken := if SeparatorAt(s, i + 1) then CardTail(k, s, i + 2, n - 1) else None;
      if taken.Some? then taken else CardTail(k, s, i + 1, n - 1)
  }

  /** `9\d{9}(?!\d)` */
  function MobileTail(k: CharClasses, s: string, i: nat): Option<nat> {
    if i < |s| && s[i] == '9' && DigitsAt(k, s, i + 1, 9) && !DigitAt(k, s, i + 10) then Some(i + 10) else None
  }

  /** The optional prefixes in the order the pattern tries them. */
  function MobileEnd(k: CharClasses, s: string, i: nat): Option<nat> {
    if LiteralAt(s, i, "+98") && MobileTail(k, s, i + 3).Some? then MobileTail(k, s, i + 3)
    else if LiteralAt(s, i, "0098") && MobileTail(k, s, i + 4).Some? then MobileTail(k, s, i + 4)
    else if LiteralAt(s, i, "0") && MobileTail(k, s, i + 1).Some? then MobileTail(k, s, i + 1)
    else MobileTail(k, s, i)
  }

  function MatchEnd(k: CharClasses, p: Pattern, s: string, i: nat): (e: Option<nat>)
    ensures e.Some? ==> i < e.value <= |s|
  {
    match p
    case Iban => IbanEnd(k, s, i)
    case Card => if DigitAt(k, s, i - 1) then None else CardTail(k, s, i, 16)
    case Mobile => if DigitAt(k, s, i - 1) then None else MobileEnd(k, s, i)
    case NationalId =>
      if !DigitAt(k, s, i - 1) && DigitsAt(k, s, i, 10) && !DigitAt(k, s, i + 10) then Some(i + 10) else None
  }

  // ----- Replacement and substitution -----

  function Stars(n: nat): (r: string)
    ensures |r| == n && forall i :: 0 <= i < n ==> r[i] == '*'
  {
    seq(n, _ => '*')
  }

  /** `s[-4:]` */
  function LastFour(s: string): string {
    if |s| <= 4 then s else s[|s| - 4..]
  }

  function OnlyDigits(k: CharClasses, s: string): string {
    if s == "" then "" else (if k.digit(s[0]) then [s[0]] else "") + OnlyDigits(k, s[1..])
  }

  /** What stands in front of the four characters that stay readable. */
  function Mask(p: Pattern): string {
    match p
    case Iban => "IR" + Stars(20)
    case Card => Stars(12)
    case Mobile => Stars(7)
    case NationalId => Stars(6)
  }

  function Readable(k: CharClasses, p: Pattern, matched: string): string {
    if p == Card then LastFour(OnlyDigits(k, matched)) else LastFour(matched)
  }

  /** `pattern.sub(replacement, s)` from position `i` on. */
  function SubFrom(k: CharClasses, p: Pattern, s: string, i: nat): string
    requires i <= |s|
    decreases |s| - i
  {
    if i == |s| then ""
    else
      match MatchEnd(k, p, s, i)
      case Some(e) => Mask(p) + Readable(k, p, s[i..e]) + SubFrom(k, p, s, e)
      case None => [s[i]] + SubFrom(k, p, s, i + 1)
  }

  function Sub(k: CharClasses, p: Pattern, s: string): string {
    SubFrom(k, p, s, 0)
  }

  function RedactText(k: CharClasses, s: string): string {
    Sub(k, NationalId, Sub(k, Mobile, Sub(k, Card, Sub(k, Iban, s))))
  }

  // ----- Maximal digit runs -----

  /** `s[a..b]` is a digit run that cannot be extended on either side. */
  predicate MaximalRun(k: CharClasses, s: string, a: nat, b: nat) {
    a < b <= |s| && DigitsAt(k, s, a, b - a) && !DigitAt(k, s, a - 1) && !DigitAt(k, s, b)
  }

  /** No maximal digit run of the string is bad. */
  ghost predicate NoBadRun(k: CharClasses, bad: string -> bool, s: string) {
    forall a: nat, b: nat :: MaximalRun(k, s, a, b) ==> !bad(s[a..b])
  }

  /** The same by reading the string once: `run` is the digit run just before `s`. */
  predicate CleanAfter(k: CharClasses, bad: string -> bool, run: string, s: string)
    decreases |s|
  {
    if s == "" then !bad(run)
    else if k.digit(s[0]) then CleanAfter(k, bad, run + [s[0]], s[1..])
    else !bad(run) && CleanAfter(k, bad, "", s[1..])
  }

  /** The digits from position `i` up to the next other character. */
  function RunAt(k: CharClasses, s: string, i: nat): (r: string)
    requires i <= |s|
    ensures i + |r| <= |s| && s[i..i + |r|] == r
    ensures DigitsAt(k, s, i, |r|) && !DigitAt(k, s, i + |r|)
    decreases |s| - i
  {
    if DigitAt(k, s, i) then
      var rest := RunAt(k, s, i + 1);
      assert s[i..i + 1 + |rest|] == [s[i]] + s[i + 1..i + 1 + |rest|];
      [s[i]] + rest
    else ""
  }

  /** Reading from position `i` with the run before it decides the runs that start there or later. */
  lemma {:induction false} CleanIff(k: CharClasses, bad: string -> bool, s: string, start: nat, i: nat)
    requires start <= i <= |s| && DigitsAt(k, s, start, i - start) && !DigitAt(k, s, start - 1)
    requires !bad("")
    ensures CleanAfter(k, bad, s[start..i], s[i..])
      <==> forall a: nat, b: nat :: a >= start && MaximalRun(k, s, a, b) ==> !bad(s[a..b])
    decreases |s| - i
  {
    if i == |s| {
      assert s[i..] == "";
      if start < i {
        assert MaximalRun(k, s, start, i);
      }
      forall a: nat, b: nat | a >= start && MaximalRun(k, s, a, b) ensures a == start && b == i {
        SameRun(k, s, start, i, a, b);
      }
    } else if DigitAt(k, s, i) {
      assert s[start..i] + [s[i]] == s[start..i + 1];
      assert s[i..][1..] == s[i + 1..];
      CleanIff(k, bad, s, start, i + 1);
    } else {
      assert s[i..][1..] == s[i + 1..];
      assert s[i + 1..i + 1] == "";
      CleanIff(k, bad, s, i + 1, i + 1);
      if start < i {
        assert MaximalRun(k, s, start, i);
      }
      forall a: nat, b: nat | a >= start && MaximalRun(k, s, a, b) && !bad(s[start..i]) && a < i + 1
          ensures !bad(s[a..b]) {
        SameRun(k, s, start, i, a, b);
      }
    }
  }

  lemma SameRun(k: CharClasses, s: string, start: nat, i: nat, a: nat, b: nat)
    requires start <= a <= i <= |s| && DigitsAt(k, s, start, i - start) && !DigitAt(k, s, i)
    requires MaximalRun(k, s, a, b)
    ensures a == start && b == i
  {
    assert k.digit(s[a]);
  }

  lemma CleanMeansNoBadRun(k: CharClasses, bad: string -> bool, s: string)
    requires !bad("")
    ensures CleanAfter(k, bad, "", s) <==> NoBadRun(k, bad, s)
  {
    CleanIff(k, bad, s, 0, 0);
    assert s[0..0] == "" && s[0..] == s;
  }

  // ----- One pass -----

  /** Every match begins where no digit run is cut, ends where none is cut, and its readable rest is four digits. */
  lemma MatchShape(k: CharClasses, p: Pattern, s: string, i: nat)
    requires k.Valid() && i <= |s| && MatchEnd(k, p, s, i).Some?
    ensures
      var e := MatchEnd(k, p, s, i).value;
      && !DigitAt(k, s, e)
      && (DigitAt(k, s, i) ==> !DigitAt(k, s, i - 1))
      && |Readable(k, p, s[i..e])| == 4
      && DigitsAt(k, Readable(k, p, s[i..e]), 0, 4)
  {
    var e := MatchEnd(k, p, s, i).value;
    match p {
      case Iban => assert DigitsAt(k, s, i + 2, 24);
      case Card =>
        CardHasDigits(k, s, i, 16);
        LastFourDigits(k, OnlyDigits(k, s[i..e]));
      case Mobile =>
      case NationalId =>
    }
  }

  lemma {:induction false} OnlyDigitsAreDigits(k: CharClasses, s: string)
    ensures DigitsAt(k, OnlyDigits(k, s), 0, |OnlyDigits(k, s)|)
  {
    if s != "" {
      OnlyDigitsAreDigits(k, s[1..]);
    }
  }

  lemma LastFourDigits(k: CharClasses, s: string)
    requires DigitsAt(k, s, 0, |s|) && |s| >= 4
    ensures |LastFour(s)| == 4 && DigitsAt(k, LastFour(s), 0, 4)
  {
  }

  /** A card match contains its `n` digits. */
  lemma {:induction false} CardHasDigits(k: CharClasses, s: string, i: nat, n: nat)
    requires i <= |s| && CardTail(k, s, i, n).Some?
    ensures var e := CardTail(k, s, i, n).value;
      e <= |s| && |OnlyDigits(k, s[i..e])| >= n && DigitsAt(k, OnlyDigits(k, s[i..e]), 0, |OnlyDigits(k, s[i..e])|)
    decreases n
  {
    var e := CardTail(k, s, i, n).value;
    OnlyDigitsAreDigits(k, s[i..e]);
    if n > 0 {
      assert s[i..e][1..] == s[i + 1..e];
      if SeparatorAt(s, i + 1) && CardTail(k, s, i + 2, n - 1).Some? {
        CardHasDigits(k, s, i + 2, n - 1);
        assert s[i + 1..e][1..] == s[i + 2..e];
      } else {
        CardHasDigits(k, s, i + 1, n - 1);
      }
    }
  }

  lemma {:induction false} CleanBehind(k: CharClasses, bad: string -> bool, run: string, plain: string, rest: string)
    requires plain != "" && forall i :: 0 <= i < |plain| ==> !k.digit(plain[i])
    requires !bad("")
    ensures CleanAfter(k, bad, run, plain + rest) <==> !bad(run) && CleanAfter(k, bad, "", rest)
    decreases |plain|
  {
    assert (plain + rest)[1..] == plain[1..] + rest;
    if |plain| == 1 {
      assert plain[1..] + rest == rest;
    } else {
      CleanBehind(k, bad, "", plain[1..], rest);
    }
  }

  lemma {:induction false} CleanThroughDigits(k: CharClasses, bad: string -> bool, run: string, digits: string,
      rest: string)
    requires DigitsAt(k, digits, 0, |digits|)
    ensures CleanAfter(k, bad, run, digits + rest) == CleanAfter(k, bad, run + digits, rest)
    decreases |digits|
  {
    if digits == "" {
      assert digits + rest == rest && run + digits == run;
    } else {
      assert (digits + rest)[1..] == digits[1..] + rest;
      assert run + [digits[0]] + digits[1..] == run + digits;
      CleanThroughDigits(k, bad, run + [digits[0]], digits[1..], rest);
    }
  }

  lemma MaskHasNoDigits(k: CharClasses, p: Pattern)
    requires k.Valid()
    ensures Mask(p) != "" && forall i :: 0 <= i < |Mask(p)| ==> !k.digit(Mask(p)[i])
  {
  }

  /** The pass matches at the start of every bad run of its input. */
  ghost predicate Covers(k: CharClasses, p: Pattern, bad: string -> bool, s: string) {
    forall j: nat :: j <= |s| && !DigitAt(k, s, j - 1) && bad(RunAt(k, s, j)) ==> MatchEnd(k, p, s, j).Some?
  }

  /** Four digits are never bad, nor is the empty run. */
  ghost predicate SparesFour(bad: string -> bool) {
    !bad("") && forall r: string :: |r| == 4 ==> !bad(r)
  }

  /** At position `i` of the input the output ends with the digit run `run`: either copied so far, or left by a match
      that ended here. It will not become bad. */
  ghost predicate RunIsGood(k: CharClasses, bad: string -> bool, s: string, i: nat, run: string)
    requires i <= |s|
  {
    && (run == "" ==> !DigitAt(k, s, i - 1))
    && (run != "" && DigitAt(k, s, i) ==> DigitAt(k, s, i - 1))
    && (run != "" ==> !bad(run + RunAt(k, s, i)))
  }

  lemma GoodRunEnds(k: CharClasses, bad: string -> bool, s: string, i: nat, run: string)
    requires i <= |s| && SparesFour(bad) && RunIsGood(k, bad, s, i, run) && !DigitAt(k, s, i)
    ensures !bad(run)
  {
    assert run + "" == run;
  }

  lemma GoodRunContinues(k: CharClasses, p: Pattern, bad: string -> bool, s: string, i: nat, run: string)
    requires i < |s| && DigitAt(k, s, i) && Covers(k, p, bad, s) && MatchEnd(k, p, s, i).None?
    requires RunIsGood(k, bad, s, i, run)
    ensures RunIsGood(k, bad, s, i + 1, run + [s[i]])
  {
    hide MatchEnd;
    assert RunAt(k, s, i) == [s[i]] + RunAt(k, s, i + 1);
    assert run + RunAt(k, s, i) == run + [s[i]] + RunAt(k, s, i + 1);
    if run == "" {
      assert !bad(RunAt(k, s, i));
      assert run + RunAt(k, s, i) == RunAt(k, s, i);
    }
  }

  lemma SubUnfolds(k: CharClasses, p: Pattern, s: string, i: nat)
    requires i < |s|
    ensures
      match MatchEnd(k, p, s, i)
      case Some(e) => SubFrom(k, p, s, i) == Mask(p) + Readable(k, p, s[i..e]) + SubFrom(k, p, s, e)
      case None =>
        && SubFrom(k, p, s, i) == [s[i]] + SubFrom(k, p, s, i + 1)
        && SubFrom(k, p, s, i)[1..] == SubFrom(k, p, s, i + 1)
  {
    hide MatchEnd, Mask, Readable;
  }

  /** Whatever counts as bad, but never four digits: if the pass matches at the start of every bad run,
      its output has no bad run. */
  lemma {:induction false} PassRemovesBadRuns(k: CharClasses, p: Pattern, bad: string -> bool, s: string, i: nat,
      run: string)
    requires k.Valid() && i <= |s|
    requires SparesFour(bad) && Covers(k, p, bad, s) && RunIsGood(k, bad, s, i, run)
    ensures CleanAfter(k, bad, run, SubFrom(k, p, s, i))
    decreases |s| - i
  {
    if !DigitAt(k, s, i) {
      GoodRunEnds(k, bad, s, i, run);
    }
    if i < |s| {
      var m := MatchEnd(k, p, s, i);
      SubUnfolds(k, p, s, i);
      if m.Some? {
        var four := Readable(k, p, s[i..m.value]);
        MatchShape(k, p, s, i);
        MaskHasNoDigits(k, p);
        if DigitAt(k, s, i) {
          assert run == "";
        }
        assert RunAt(k, s, m.value) == "" && four + "" == four;
        hide SubFrom, MatchEnd, Mask, Readable, RunAt, CleanAfter, Covers, CharClasses.Valid;
        PassRemovesBadRuns(k, p, bad, s, m.value, four);
        AfterReplacement(k, bad, run, Mask(p), four, SubFrom(k, p, s, m.value));
      } else if DigitAt(k, s, i) {
        GoodRunContinues(k, p, bad, s, i, run);
        hide MatchEnd, RunAt, Covers, SubFrom, RunIsGood;
        PassRemovesBadRuns(k, p, bad, s, i + 1, run + [s[i]]);
      } else {
        hide MatchEnd, RunAt, Covers, SubFrom;
        PassRemovesBadRuns(k, p, bad, s, i + 1, "");
      }
    }
  }

  lemma AfterReplacement(k: CharClasses, bad: string -> bool, run: string, mask: string, four: string, rest: string)
    requires !bad("") && !bad(run)
    requires mask != "" && forall i :: 0 <= i < |mask| ==> !k.digit(mask[i])
    requires DigitsAt(k, four, 0, |four|)
    requires CleanAfter(k, bad, four, rest)
    ensures CleanAfter(k, bad, run, mask + four + rest)
  {
    assert mask + four + rest == mask + (four + rest);
    CleanBehind(k, bad, run, mask, four + rest);
    CleanThroughDigits(k, bad, "", four, rest);
    assert "" + four == four;
  }

  // ----- The four passes together -----

  /** A local mobile number, with or without its prefix. */
  predicate MobileRun(r: string) {
    || (|r| == 10 && r[0] == '9')
    || (|r| == 11 && r[..2] == "09")
    || (|r| == 14 && r[..5] == "00989")
  }

  predicate CardRun(r: string) { |r| == 16 }

  predicate CardOrMobileRun(r: string) { CardRun(r) || MobileRun(r) }

  /** The digit runs that identify a card, a mobile number or a person. */
  predicate IdentifierRun(r: string) { CardOrMobileRun(r) || |r| == 10 }

  lemma {:induction false} CardCovers(k: CharClasses, s: string, i: nat, n: nat)
    requires k.Valid() && i <= |s| && |RunAt(k, s, i)| == n
    ensures CardTail(k, s, i, n).Some?
    decreases n
  {
    if n > 0 {
      assert RunAt(k, s, i) == [s[i]] + RunAt(k, s, i + 1);
      CardCovers(k, s, i + 1, n - 1);
    }
  }

  lemma MobileCovers(k: CharClasses, s: string, i: nat)
    requires k.Valid() && i <= |s| && MobileRun(RunAt(k, s, i))
    ensures MobileEnd(k, s, i).Some?
  {
    var r := RunAt(k, s, i);
    assert forall j :: 0 <= j < |r| ==> r[j] == s[i + j];
    if |r| == 11 {
      assert r[..2] == s[i..i + 2] && r[..1] == "0" && r[1] == "09"[1];
      assert MobileTail(k, s, i + 1).Some?;
    } else if |r| == 14 {
      assert r[..4] == r[..5][..4] == "0098" && r[4] == r[..5][4];
      assert LiteralAt(s, i, "0098");
      assert MobileTail(k, s, i + 4).Some?;
    } else {
      assert MobileTail(k, s, i).Some?;
    }
  }

  /** A clean input has no bad run at any run start. */
  lemma CleanStart(k: CharClasses, bad: string -> bool, s: string, i: nat)
    requires NoBadRun(k, bad, s) && !bad("") && i <= |s| && !DigitAt(k, s, i - 1)
    ensures !bad(RunAt(k, s, i))
  {
    var r := RunAt(k, s, i);
    if r != "" {
      assert MaximalRun(k, s, i, i + |r|);
    }
  }

  lemma PassIsClean(k: CharClasses, p: Pattern, bad: string -> bool, s: string)
    requires k.Valid() && SparesFour(bad) && Covers(k, p, bad, s)
    ensures NoBadRun(k, bad, Sub(k, p, s))
  {
    PassRemovesBadRuns(k, p, bad, s, 0, "");
    CleanMeansNoBadRun(k, bad, Sub(k, p, s));
  }

  lemma CardPass(k: CharClasses, s: string)
    requires k.Valid()
    ensures NoBadRun(k, CardRun, Sub(k, Card, s))
  {
    forall j: nat | j <= |s| && !DigitAt(k, s, j - 1) && CardRun(RunAt(k, s, j)) ensures MatchEnd(k, Card, s, j).Some? {
      CardCovers(k, s, j, 16);
    }
    PassIsClean(k, Card, CardRun, s);
  }

  lemma MobilePass(k: CharClasses, s: string)
    requires k.Valid() && NoBadRun(k, CardRun, s)
    ensures NoBadRun(k, CardOrMobileRun, Sub(k, Mobile, s))
  {
    forall j: nat | j <= |s| && !DigitAt(k, s, j - 1) && CardOrMobileRun(RunAt(k, s, j))
        ensures MatchEnd(k, Mobile, s, j).Some? {
      CleanStart(k, CardRun, s, j);
      MobileCovers(k, s, j);
    }
    PassIsClean(k, Mobile, CardOrMobileRun, s);
  }

  lemma NationalIdPass(k: CharClasses, s: string)
    requires k.Valid() && NoBadRun(k, CardOrMobileRun, s)
    ensures NoBadRun(k, IdentifierRun, Sub(k, NationalId, s))
  {
    forall j: nat | j <= |s| && !DigitAt(k, s, j - 1) && IdentifierRun(RunAt(k, s, j))
        ensures MatchEnd(k, NationalId, s, j).Some? {
      CleanStart(k, CardOrMobileRun, s, j);
    }
    PassIsClean(k, NationalId, IdentifierRun, s);
  }

  /** For every input, the redacted text contains no maximal digit run of length sixteen or ten, and none of eleven
      digits starting 09 or of fourteen starting 00989. */
  lemma RedactTextLeavesNoIdentifier(k: CharClasses, s: string)
    requires k.Valid()
    ensures NoBadRun(k, IdentifierRun, RedactText(k, s))
  {
    CardPass(k, Sub(k, Iban, s));
    MobilePass(k, Sub(k, Card, Sub(k, Iban, s)));
    NationalIdPass(k, Sub(k, Mobile, Sub(k, Card, Sub(k, Iban, s))));
  }

  ghost predicate RunOf(k: CharClasses, s: string, r: string) {
    exists a: nat, b: nat :: MaximalRun(k, s, a, b) && s[a..b] == r
  }

  /** Every maximal digit run of `after` is four digits or stands in `before` as it is. */
  ghost predicate RunsKeptOrFour(k: CharClasses, before: string, after: string) {
    forall a: nat, b: nat :: MaximalRun(k, after, a, b) ==> b - a == 4 || RunOf(k, before, after[a..b])
  }

  lemma PassKeepsRuns(k: CharClasses, p: Pattern, s: string)
    requires k.Valid()
    ensures RunsKeptOrFour(k, s, Sub(k, p, s))
  {
    ghost var foreign := r => r != "" && |r| != 4 && !RunOf(k, s, r);
    forall j: nat | j <= |s| && !DigitAt(k, s, j - 1) ensures !foreign(RunAt(k, s, j)) {
      var r := RunAt(k, s, j);
      if r != "" {
        assert MaximalRun(k, s, j, j + |r|);
      }
    }
    PassIsClean(k, p, foreign, s);
  }

  /** Redaction never joins, splits or invents digits: what is left readable is four digits at a time,
      or a digit run of the input in full. */
  lemma RedactTextKeepsRuns(k: CharClasses, s: string)
    requires k.Valid()
    ensures RunsKeptOrFour(k, s, RedactText(k, s))
  {
    var t1 := Sub(k, Iban, s);
    var t2 := Sub(k, Card, t1);
    var t3 := Sub(k, Mobile, t2);
    PassKeepsRuns(k, Iban, s);
    PassKeepsRuns(k, Card, t1);
    PassKeepsRuns(k, Mobile, t2);
    PassKeepsRuns(k, NationalId, t3);
    hide Sub, MaximalRun;
  }
}
