/** The alias generator of src/jibit/models.py against the key normaliser of src/jibit/redaction.py. */
module KeyNames {
  import opened Text

  predicate IsUpper(c: char) { 'A' <= c <= 'Z' }

  predicate IsLower(c: char) { 'a' <= c <= 'z' }

  predicate IsDecimal(c: char) { '0' <= c <= '9' }

  function Lower(c: char): char {
    if IsUpper(c) then (c as int - 'A' as int + 'a' as int) as char else c
  }

  function Upper(c: char): char {
    if IsLower(c) then (c as int - 'a' as int + 'A' as int) as char else c
  }

  function LowerAll(s: string): string {
    if s == "" then "" else [Lower(s[0])] + LowerAll(s[1..])
  }

  function Capitalize(part: string): string {
    if part == "" then "" else [Upper(part[0])] + LowerAll(part[1..])
  }

  function CapitalizeAll(parts: seq<string>): string {
    if parts == [] then "" else Capitalize(parts[0]) + CapitalizeAll(parts[1..])
  }

  function ToCamel(name: string): string {
    var parts := Split(name, '_');
    parts[0] + CapitalizeAll(parts[1..])
  }

  /** Lower-case with dashes as underscores, and an underscore before every capital that is not at position `at`
      zero. */
  function NormalizeFrom(key: string, at: nat): string {
    if key == "" then ""
    else
      var c := Lower(key[0]);
      var plain := [if c == '-' then '_' else c] + NormalizeFrom(key[1..], at + 1);
      if IsUpper(key[0]) && at > 0 then "_" + plain else plain
  }

  function NormalizeKey(key: string): string {
    NormalizeFrom(key, 0)
  }

  // ----- Which names survive the round trip -----

  /** Lower-case letters and digits. */
  predicate IsPart(s: string) {
    forall i :: 0 <= i < |s| ==> IsLower(s[i]) || IsDecimal(s[i])
  }

  predicate AllParts(parts: seq<string>) {
    forall i :: 0 <= i < |parts| ==> IsPart(parts[i])
  }

  predicate SnakeName(name: string) {
    forall i :: 0 <= i < |name| ==> IsLower(name[i]) || IsDecimal(name[i]) || name[i] == '_'
  }

  predicate StartsWithLetter(part: string) {
    part != "" && IsLower(part[0])
  }

  /** Every part after the first starts with a letter, and a name with several parts does not start with an
      underscore. */
  predicate Recoverable(name: string) {
    var parts := Split(name, '_');
    && (|parts| > 1 ==> parts[0] != "")
    && (forall i :: 1 <= i < |parts| ==> StartsWithLetter(parts[i]))
  }

  lemma PlainCharacter(c: char, rest: string, at: nat)
    requires IsLower(c) || IsDecimal(c)
    ensures Lower(c) == c && NormalizeFrom([c] + rest, at) == [c] + NormalizeFrom(rest, at + 1)
  {
    assert ([c] + rest)[1..] == rest;
  }

  lemma {:induction false} PartIsKept(part: string, rest: string, at: nat)
    requires IsPart(part)
    ensures LowerAll(part) == part
    ensures NormalizeFrom(part + rest, at) == part + NormalizeFrom(rest, at + |part|)
  {
    if part == "" {
      assert part + rest == rest;
    } else {
      PlainCharacter(part[0], part[1..] + rest, at);
      PartIsKept(part[1..], rest, at + 1);
      hide NormalizeFrom, Lower, IsLower, IsDecimal;
      assert part + rest == [part[0]] + (part[1..] + rest);
      assert part == [part[0]] + part[1..];
      Reassemble(part, NormalizeFrom(rest, at + |part|));
    }
  }

  lemma Reassemble(part: string, rest: string)
    requires part != ""
    ensures [part[0]] + (part[1..] + rest) == part + rest
  {
  }

  function Behind(underscore: bool, s: string): string {
    if underscore then "_" + s else s
  }

  lemma CapitalizedBefore(part: string, rest: string)
    requires IsPart(part) && part != ""
    ensures Capitalize(part) + rest == [Upper(part[0])] + (part[1..] + rest)
  {
    PartIsKept(part[1..], rest, 0);
    hide NormalizeFrom, Upper, LowerAll;
  }

  /** A capitalised part comes back with its underscore exactly when it starts with a letter. */
  lemma CapitalizedPart(part: string, rest: string, at: nat)
    requires IsPart(part) && at > 0
    ensures NormalizeFrom(Capitalize(part) + rest, at)
      == Behind(StartsWithLetter(part), part + NormalizeFrom(rest, at + |part|))
  {
    if part == "" {
      assert Capitalize(part) + rest == rest;
    } else {
      hide NormalizeFrom, Upper, Lower, LowerAll, IsDecimal, Capitalize;
      PartIsKept(part[1..], rest, at + 1);
      LetterRestored(part[0], part[1..] + rest, at);
      CapitalizedBefore(part, rest);
      Reassemble(part, NormalizeFrom(rest, at + |part|));
    }
  }

  /** The parts, each behind the underscore it comes back with. */
  function Rebuilt(parts: seq<string>): string {
    if parts == [] then "" else Behind(StartsWithLetter(parts[0]), parts[0] + Rebuilt(parts[1..]))
  }

  function Underscored(parts: seq<string>): string {
    if parts == [] then "" else "_" + (parts[0] + Underscored(parts[1..]))
  }

  lemma {:induction false} NormalizeCapitalized(parts: seq<string>, at: nat)
    requires AllParts(parts)
    requires at > 0
    ensures NormalizeFrom(CapitalizeAll(parts), at) == Rebuilt(parts)
  {
    if parts != [] {
      CapitalizedPart(parts[0], CapitalizeAll(parts[1..]), at);
      NormalizeCapitalized(parts[1..], at + |parts[0]|);
    }
  }

  /** Without a head the first capital is at the start of the key, so its underscore is missing. */
  lemma {:induction false} NormalizeHeadless(parts: seq<string>)
    requires AllParts(parts)
    requires parts != []
    ensures |NormalizeFrom(CapitalizeAll(parts), 0)| < |Underscored(parts)|
  {
    var part, tail := parts[0], parts[1..];
    if part == "" {
      assert CapitalizeAll(parts) == CapitalizeAll(tail);
      if tail != [] {
        NormalizeHeadless(tail);
      }
    } else {
      FirstCapital(part, CapitalizeAll(tail));
      hide NormalizeFrom, Capitalize;
      NormalizeCapitalized(tail, |part|);
      RebuiltIff(tail);
    }
  }

  lemma FirstCapital(part: string, rest: string)
    requires IsPart(part) && part != ""
    ensures NormalizeFrom(Capitalize(part) + rest, 0) == part + NormalizeFrom(rest, |part|)
  {
    hide NormalizeFrom, Upper, Lower, LowerAll, IsLower, IsDecimal, Capitalize;
    PartIsKept(part[1..], rest, 1);
    LetterRestored(part[0], part[1..] + rest, 0);
    CapitalizedBefore(part, rest);
    Reassemble(part, NormalizeFrom(rest, |part|));
  }

  /** A capital made from a lower-case letter is that letter again, behind an underscore unless it is first; a digit
      stays. */
  lemma LetterRestored(c: char, rest: string, at: nat)
    requires IsLower(c) || IsDecimal(c)
    ensures NormalizeFrom([Upper(c)] + rest, at)
      == Behind(IsLower(c) && at > 0, [c] + NormalizeFrom(rest, at + 1))
  {
    assert ([Upper(c)] + rest)[1..] == rest;
  }

  lemma {:induction false} RebuiltIff(parts: seq<string>)
    ensures |Rebuilt(parts)| <= |Underscored(parts)|
    ensures Rebuilt(parts) == Underscored(parts) <==> forall i :: 0 <= i < |parts| ==> StartsWithLetter(parts[i])
    ensures Rebuilt(parts) == Underscored(parts) <==> |Rebuilt(parts)| == |Underscored(parts)|
  {
    if parts != [] {
      RebuiltIff(parts[1..]);
      assert forall i :: 1 <= i < |parts| ==> parts[i] == parts[1..][i - 1];
      if StartsWithLetter(parts[0]) {
        SameHead("_", parts[0] + Rebuilt(parts[1..]), parts[0] + Underscored(parts[1..]));
        SameHead(parts[0], Rebuilt(parts[1..]), Underscored(parts[1..]));
        assert forall i :: 0 <= i < |parts[1..]| ==> parts[1..][i] == parts[i + 1];
      } else {
        assert |Rebuilt(parts)| < |Underscored(parts)|;
      }
    }
  }

  lemma {:induction false} JoinIsUnderscored(parts: seq<string>)
    requires |parts| >= 1
    ensures Join(parts, '_') == parts[0] + Underscored(parts[1..])
  {
    if |parts| > 1 {
      JoinIsUnderscored(parts[1..]);
      assert parts[1..][1..] == parts[2..];
    }
  }

  lemma {:induction false} SplitGivesParts(name: string)
    requires SnakeName(name)
    ensures AllParts(Split(name, '_'))
  {
    if name != "" {
      SplitGivesParts(name[1..]);
      var rest := Split(name[1..], '_');
      assert IsPart(rest[0]);
      assert IsPart([name[0]] + rest[0]) || name[0] == '_';
    }
  }

  lemma SameHead(head: string, x: string, y: string)
    ensures head + x == head + y <==> x == y
  {
    assert (head + x)[|head|..] == x;
    assert (head + y)[|head|..] == y;
  }

  lemma EmptyParts()
    ensures CapitalizeAll([]) == "" && Underscored([]) == "" && NormalizeFrom("", 0) == ""
  {
  }

  lemma HeadedRoundTrip(head: string, tail: seq<string>)
    requires IsPart(head) && AllParts(tail) && head != ""
    ensures NormalizeKey(head + CapitalizeAll(tail)) == head + Underscored(tail) <==> Rebuilt(tail) == Underscored(tail)
  {
    PartIsKept(head, CapitalizeAll(tail), 0);
    NormalizeCapitalized(tail, |head|);
    hide NormalizeFrom, CapitalizeAll, Rebuilt, Underscored, LowerAll, IsPart;
    assert NormalizeKey(head + CapitalizeAll(tail)) == head + Rebuilt(tail);
    SameHead(head, Rebuilt(tail), Underscored(tail));
  }

  lemma RoundTripOfParts(head: string, tail: seq<string>)
    requires IsPart(head) && AllParts(tail)
    ensures NormalizeKey(head + CapitalizeAll(tail)) == head + Underscored(tail)
      <==> (tail != [] ==> head != "") && forall i :: 0 <= i < |tail| ==> StartsWithLetter(tail[i])
  {
    hide NormalizeFrom, CapitalizeAll, Rebuilt, Underscored, StartsWithLetter, IsPart;
    if head != "" {
      HeadedRoundTrip(head, tail);
      RebuiltIff(tail);
    } else if tail != [] {
      NormalizeHeadless(tail);
      assert head + CapitalizeAll(tail) == CapitalizeAll(tail);
      assert head + Underscored(tail) == Underscored(tail);
    } else {
      EmptyParts();
    }
  }

  /** Normalising the alias of a snake-case name gives the name back exactly for the recoverable names. */
  lemma AliasRoundTripIff(name: string)
    requires SnakeName(name)
    ensures NormalizeKey(ToCamel(name)) == name <==> Recoverable(name)
  {
    hide Split, CapitalizeAll, Rebuilt, Underscored, NormalizeKey, Join, StartsWithLetter;
    var parts := Split(name, '_');
    var head, tail := parts[0], parts[1..];
    SplitGivesParts(name);
    JoinOfSplit(name, '_');
    JoinIsUnderscored(parts);
    RoundTripOfParts(head, tail);
    assert forall i :: 1 <= i < |parts| ==> parts[i] == tail[i - 1];
    assert forall i :: 0 <= i < |tail| ==> tail[i] == parts[i + 1];
  }

  // ----- The alias of any snake-case name, normalised -----

  /** The name without the underscores that its alias cannot bring back: those before anything but a letter, and those
      before the first other character (`first`: no character was kept so far). */
  function Squash(name: string, first: bool): string {
    if name == "" then ""
    else if name[0] == '_' && (first || |name| == 1 || !IsLower(name[1])) then Squash(name[1..], first)
    else [name[0]] + Squash(name[1..], false)
  }

  lemma {:induction false} SquashKeepsPart(part: string, rest: string, first: bool)
    requires IsPart(part) && part != ""
    ensures Squash(part + rest, first) == part + Squash(rest, false)
  {
    assert (part + rest)[1..] == part[1..] + rest;
    if |part| == 1 {
      assert part[1..] + rest == rest;
    } else {
      SquashKeepsPart(part[1..], rest, false);
      Reassemble(part, Squash(rest, false));
    }
  }

  /** Behind a kept character, the underscores that stay are those that are rebuilt. */
  lemma {:induction false} SquashRebuilds(parts: seq<string>)
    requires AllParts(parts)
    ensures Squash(Underscored(parts), false) == Rebuilt(parts)
  {
    if parts != [] {
      var part, rest := parts[0], Underscored(parts[1..]);
      SquashRebuilds(parts[1..]);
      assert ("_" + (part + rest))[1..] == part + rest;
      if part == "" {
        assert part + rest == rest && part + Rebuilt(parts[1..]) == Rebuilt(parts[1..]);
        assert rest == "" || rest[0] == '_';
      } else {
        SquashKeepsPart(part, rest, false);
        assert ("_" + (part + rest))[1] == part[0];
      }
    }
  }

  /** Without a head, the first part that is not empty starts the key. */
  lemma {:induction false} SquashHeadless(parts: seq<string>)
    requires AllParts(parts)
    ensures NormalizeFrom(CapitalizeAll(parts), 0) == Squash(Underscored(parts), true)
  {
    if parts != [] {
      var part, rest := parts[0], Underscored(parts[1..]);
      assert ("_" + (part + rest))[1..] == part + rest;
      if part == "" {
        SquashHeadless(parts[1..]);
        assert part + rest == rest && CapitalizeAll(parts) == CapitalizeAll(parts[1..]);
      } else {
        FirstCapital(part, CapitalizeAll(parts[1..]));
        NormalizeCapitalized(parts[1..], |part|);
        SquashRebuilds(parts[1..]);
        SquashKeepsPart(part, rest, true);
      }
    }
  }

  lemma SquashOfParts(head: string, tail: seq<string>)
    requires IsPart(head) && AllParts(tail)
    ensures NormalizeKey(head + CapitalizeAll(tail)) == Squash(head + Underscored(tail), true)
  {
    hide NormalizeFrom, CapitalizeAll, Rebuilt, Underscored, StartsWithLetter, Squash;
    if head == "" {
      SquashHeadless(tail);
      assert head + CapitalizeAll(tail) == CapitalizeAll(tail) && head + Underscored(tail) == Underscored(tail);
    } else {
      PartIsKept(head, CapitalizeAll(tail), 0);
      NormalizeCapitalized(tail, |head|);
      SquashRebuilds(tail);
      SquashKeepsPart(head, Underscored(tail), true);
    }
  }

  /** For every snake-case name, the normalised alias is the squashed name. */
  lemma AliasIsSquashed(name: string)
    requires SnakeName(name)
    ensures NormalizeKey(ToCamel(name)) == Squash(name, true)
  {
    hide Split, CapitalizeAll, Rebuilt, Underscored, NormalizeKey, Join, Squash;
    var parts := Split(name, '_');
    SplitGivesParts(name);
    JoinOfSplit(name, '_');
    JoinIsUnderscored(parts);
    SquashOfParts(parts[0], parts[1..]);
  }

  // ----- Keys with hyphens -----

  /** A key without capitals is normalised character by character, hyphens to underscores. */
  lemma {:induction false} HyphensAreUnderscores(key: string, at: nat)
    requires forall i :: 0 <= i < |key| ==> !IsUpper(key[i])
    ensures |NormalizeFrom(key, at)| == |key|
    ensures forall i :: 0 <= i < |key| ==> NormalizeFrom(key, at)[i] == if key[i] == '-' then '_' else key[i]
  {
    if key != "" {
      HyphensAreUnderscores(key[1..], at + 1);
      assert forall i :: 1 <= i < |key| ==> key[i] == key[1..][i - 1];
    }
  }

  // ----- Keys in capitals -----

  /** No two lower-case letters stand side by side. */
  predicate Spread(s: string) {
    forall i :: 0 <= i < |s| - 1 ==> !(IsLower(s[i]) && IsLower(s[i + 1]))
  }

  /** A key without lower-case letters is normalised to single letters. */
  lemma {:induction false} CapitalsAreSpread(key: string, at: nat)
    requires forall i :: 0 <= i < |key| ==> !IsLower(key[i])
    ensures var normal := NormalizeFrom(key, at);
      Spread(normal) && (at > 0 && normal != "" ==> !IsLower(normal[0]))
  {
    if key != "" {
      CapitalsAreSpread(key[1..], at + 1);
    }
  }

  /** A capital at the start of a key makes no difference. */
  lemma FirstCapitalIsNormal(c: char, rest: string)
    ensures NormalizeKey([Upper(c)] + rest) == NormalizeKey([c] + rest) || IsUpper(c)
    ensures IsLower(c) ==> NormalizeKey([Upper(c)] + rest) == NormalizeKey([c] + rest)
  {
    assert ([Upper(c)] + rest)[1..] == rest && ([c] + rest)[1..] == rest;
  }

  /** Distinct recoverable names have distinct aliases. */
  lemma AliasesAreDistinct(a: string, b: string)
    requires SnakeName(a) && SnakeName(b) && Recoverable(a) && Recoverable(b) && a != b
    ensures ToCamel(a) != ToCamel(b)
  {
    AliasRoundTripIff(a);
    AliasRoundTripIff(b);
  }

  lemma {:induction false} SnakeNamesAreNormal(name: string, at: nat)
    requires SnakeName(name)
    ensures NormalizeFrom(name, at) == name
  {
    if name != "" {
      SnakeNamesAreNormal(name[1..], at + 1);
      assert name == [name[0]] + name[1..];
    }
  }
}
