/** The URL-safe base64 alphabet of section 5 of RFC 4648: an encoder, and the lenient decoder
    behind `base64.urlsafe_b64decode`, which skips foreign characters and stops at sufficient padding. */
module Base64Url {
  import opened PyValues
  import opened Config

  type Byte = b: int | 0 <= b < 256

  type Sextet = v: int | 0 <= v < 64

  function Letter(v: Sextet): char {
    if v < 26 then ('A' as int + v) as char
    else if v < 52 then ('a' as int + (v - 26)) as char
    else if v < 62 then ('0' as int + (v - 52)) as char
    else if v == 62 then '-'
    else '_'
  }

  /** Table 2 of section 5 of RFC 4648 by code points: capitals, small letters, digits, hyphen, underscore. */
  lemma LetterByCodePoint(v: Sextet)
    ensures Letter(v) as int ==
      if v <= 25 then 65 + v else if v <= 51 then 71 + v else if v <= 61 then v - 4 else if v == 62 then 45 else 95
  {
  }

  /** The value of a character in the standard or the URL-safe alphabet. */
  function ValueOf(c: char): Option<Sextet> {
    if 'A' <= c <= 'Z' then Some(c as int - 'A' as int)
    else if 'a' <= c <= 'z' then Some(c as int - 'a' as int + 26)
    else if '0' <= c <= '9' then Some(c as int - '0' as int + 52)
    else if c == '-' || c == '+' then Some(62)
    else if c == '_' || c == '/' then Some(63)
    else None
  }

  function Encode(bytes: seq<Byte>): string {
    if |bytes| == 0 then ""
    else if |bytes| == 1 then [Letter(bytes[0] / 4), Letter(bytes[0] % 4 * 16), '=', '=']
    else if |bytes| == 2 then
      [Letter(bytes[0] / 4), Letter(bytes[0] % 4 * 16 + bytes[1] / 16), Letter(bytes[1] % 16 * 4), '=']
    else
      [Letter(bytes[0] / 4), Letter(bytes[0] % 4 * 16 + bytes[1] / 16),
       Letter(bytes[1] % 16 * 4 + bytes[2] / 64), Letter(bytes[2] % 64)] + Encode(bytes[3..])
  }

  /** How far into a group of four characters the decoder is, and the bits not yet emitted. */
  predicate DecoderState(quad: int, left: int) {
    || (quad == 0 && left == 0)
    || (quad == 1 && 0 <= left < 64)
    || (quad == 2 && 0 <= left < 16)
    || (quad == 3 && 0 <= left < 4)
  }

  function Emit(b: Byte, rest: Option<seq<Byte>>): Option<seq<Byte>> {
    if rest.None? then None else Some([b] + rest.value)
  }

  /** None is the decoder's error. */
  function Decode(s: string, quad: int, left: int, pads: nat): Option<seq<Byte>>
    requires DecoderState(quad, left)
    decreases |s|
  {
    if s == "" then if quad == 0 then Some([]) else None
    else if s[0] == '=' then
      if quad >= 2 && quad + pads + 1 >= 4 then Some([])
      else Decode(s[1..], quad, left, if quad >= 2 then pads + 1 else pads)
    else
      match ValueOf(s[0])
      case None => Decode(s[1..], quad, left, pads)
      case Some(v) =>
        if quad == 0 then Decode(s[1..], 1, v, 0)
        else if quad == 1 then Emit(left * 4 + v / 16, Decode(s[1..], 2, v % 16, 0))
        else if quad == 2 then Emit(left * 16 + v / 4, Decode(s[1..], 3, v % 4, 0))
        else Emit(left * 64 + v, Decode(s[1..], 0, 0, 0))
  }

  /** The lenient decoder skips characters of neither alphabet, and takes the letters of the standard one for their
      URL-safe counterparts; a group that is neither complete nor filled up is an error. */
  lemma LenientDecoding(c: char, s: string, quad: int, left: int, pads: nat, u: Sextet, v: Sextet)
    requires DecoderState(quad, left)
    ensures
      !('A' <= c <= 'Z') && !('a' <= c <= 'z') && !('0' <= c <= '9') && c !in {'-', '+', '_', '/', '='} ==>
        Decode([c] + s, quad, left, pads) == Decode(s, quad, left, pads)
    ensures Decode(['+'] + s, quad, left, pads) == Decode(['-'] + s, quad, left, pads)
    ensures Decode(['/'] + s, quad, left, pads) == Decode(['_'] + s, quad, left, pads)
    ensures Decode([Letter(u)], 0, 0, 0) == None && Decode([Letter(u), Letter(v)], 0, 0, 0) == None
  {
    assert ([c] + s)[1..] == s;
    assert (['+'] + s)[1..] == s && (['-'] + s)[1..] == s && (['/'] + s)[1..] == s && (['_'] + s)[1..] == s;
    LetterHasValue(u);
    LetterHasValue(v);
    assert [Letter(u)][1..] == [] && [Letter(u), Letter(v)][1..] == [Letter(v)] && [Letter(v)][1..] == [];
    assert Decode([], 2, v % 16, 0) == None;
    assert Decode([Letter(v)], 1, u, 0) == Emit(u * 4 + v / 16, Decode([], 2, v % 16, 0));
  }

  lemma LetterHasValue(v: Sextet)
    ensures ValueOf(Letter(v)) == Some(v) && Letter(v) != '=' && Letter(v) != '.' && Letter(v) < 128 as char
  {
  }

  lemma DecodeLetter(v: Sextet, rest: string, quad: int, left: int, pads: nat)
    requires DecoderState(quad, left)
    ensures Decode([Letter(v)] + rest, quad, left, pads) ==
      if quad == 0 then Decode(rest, 1, v, 0)
      else if quad == 1 then Emit(left * 4 + v / 16, Decode(rest, 2, v % 16, 0))
      else if quad == 2 then Emit(left * 16 + v / 4, Decode(rest, 3, v % 4, 0))
      else Emit(left * 64 + v, Decode(rest, 0, 0, 0))
  {
    LetterHasValue(v);
    assert ([Letter(v)] + rest)[1..] == rest;
  }

  /** Splitting bytes into six-bit values and putting them together again. */
  lemma GroupArithmetic(a: Byte, b: Byte, c: Byte)
    ensures var x, y, z, u := a / 4, a % 4 * 16 + b / 16, b % 16 * 4 + c / 64, c % 64;
      && x < 64 && y < 64 && z < 64 && u < 64
      && x * 4 + y / 16 == a
      && y % 16 * 16 + z / 4 == b
      && z % 4 * 64 + u == c
  {
  }

  lemma DecodeOfGroup(a: Byte, b: Byte, c: Byte, rest: string)
    ensures
      var group := [Letter(a / 4), Letter(a % 4 * 16 + b / 16), Letter(b % 16 * 4 + c / 64), Letter(c % 64)];
      Decode(group + rest, 0, 0, 0)
      == Emit(a, Emit(b, Emit(c, Decode(rest, 0, 0, 0))))
  {
    hide Decode, Letter, ValueOf, Emit;
    GroupArithmetic(a, b, c);
    var x, y, z, u := a / 4, a % 4 * 16 + b / 16, b % 16 * 4 + c / 64, c % 64;
    DecodeLetter(x, [Letter(y), Letter(z), Letter(u)] + rest, 0, 0, 0);
    DecodeLetter(y, [Letter(z), Letter(u)] + rest, 1, x, 0);
    DecodeLetter(z, [Letter(u)] + rest, 2, y % 16, 0);
    DecodeLetter(u, rest, 3, z % 4, 0);
    assert [Letter(x), Letter(y), Letter(z), Letter(u)] + rest
      == [Letter(x)] + ([Letter(y), Letter(z), Letter(u)] + rest);
    assert [Letter(y), Letter(z), Letter(u)] + rest == [Letter(y)] + ([Letter(z), Letter(u)] + rest);
    assert [Letter(z), Letter(u)] + rest == [Letter(z)] + ([Letter(u)] + rest);
  }

  /** One or two bytes at the end: sufficient padding stops the decoder in the middle of a group. */
  lemma DecodeOfRemainder(a: Byte, b: Byte)
    ensures Decode([Letter(a / 4), Letter(a % 4 * 16), '=', '='], 0, 0, 0) == Some([a])
    ensures Decode([Letter(a / 4), Letter(a % 4 * 16 + b / 16), Letter(b % 16 * 4), '='], 0, 0, 0) == Some([a, b])
  {
    hide Decode, Letter, ValueOf;
    GroupArithmetic(a, b, 0);
    GroupArithmetic(a, 0, 0);
    DecodeStops();
    var x, y, z, w := a / 4, a % 4 * 16 + b / 16, b % 16 * 4, a % 4 * 16;
    assert x * 4 + w / 16 == a;
    assert [a] + [] == [a] && [a] + ([b] + []) == [a, b] && [b] + [] == [b];
    DecodeLetter(x, [Letter(w), '=', '='], 0, 0, 0);
    DecodeLetter(w, ['=', '='], 1, x, 0);
    assert [Letter(x), Letter(w), '=', '='] == [Letter(x)] + [Letter(w), '=', '='];
    assert [Letter(w), '=', '='] == [Letter(w)] + ['=', '='];
    DecodeLetter(x, [Letter(y), Letter(z), '='], 0, 0, 0);
    DecodeLetter(y, [Letter(z), '='], 1, x, 0);
    DecodeLetter(z, ['='], 2, y % 16, 0);
    assert [Letter(x), Letter(y), Letter(z), '='] == [Letter(x)] + [Letter(y), Letter(z), '='];
    assert [Letter(y), Letter(z), '='] == [Letter(y)] + [Letter(z), '='];
    assert [Letter(z), '='] == [Letter(z)] + ['='];
  }

  lemma DecodeStops()
    ensures Decode(['=', '='], 2, 0, 0) == Some([])
    ensures Decode(['='], 3, 0, 0) == Some([])
  {
    assert ['=', '='][1..] == ['='];
  }

  lemma EmitThree(a: Byte, b: Byte, c: Byte, rest: seq<Byte>)
    ensures Emit(a, Emit(b, Emit(c, Some(rest)))) == Some([a, b, c] + rest)
  {
    assert [a] + ([b] + ([c] + rest)) == [a, b, c] + rest;
  }

  lemma {:induction false} DecodeOfEncode(bytes: seq<Byte>)
    ensures Decode(Encode(bytes), 0, 0, 0) == Some(bytes)
  {
    if |bytes| == 0 {
    } else if |bytes| == 1 {
      hide Decode, Letter;
      DecodeOfRemainder(bytes[0], 0);
      assert bytes == [bytes[0]];
    } else if |bytes| == 2 {
      hide Decode, Letter;
      DecodeOfRemainder(bytes[0], bytes[1]);
      assert bytes == [bytes[0], bytes[1]];
    } else {
      hide Decode, Letter, Emit;
      DecodeOfEncode(bytes[3..]);
      EmitThree(bytes[0], bytes[1], bytes[2], bytes[3..]);
      DecodeOfGroup(bytes[0], bytes[1], bytes[2], Encode(bytes[3..]));
      assert [bytes[0], bytes[1], bytes[2]] + bytes[3..] == bytes;
    }
  }

  // ----- Stripping the padding and putting it back -----

  function Padding(n: nat): (r: string)
    ensures |r| == n && forall i :: 0 <= i < n ==> r[i] == '='
  {
    seq(n, _ => '=')
  }

  /** `text + "=" * (-len(text) % 4)` */
  function Repad(text: string): string {
    text + Padding(-|text| % 4)
  }

  function Unpadded(bytes: seq<Byte>): string {
    StripRight(Encode(bytes), '=')
  }

  lemma {:induction false} StripPadding(body: string, n: nat)
    requires body == "" || body[|body| - 1] != '='
    ensures StripRight(body + Padding(n), '=') == body
  {
    var s := body + Padding(n);
    if n == 0 {
      assert s == body;
    } else {
      assert s[..|s| - 1] == body + Padding(n - 1);
      StripPadding(body, n - 1);
    }
  }

  predicate PlainLetters(s: string) {
    forall i :: 0 <= i < |s| ==> s[i] != '=' && s[i] != '.' && s[i] < 128 as char
  }

  lemma LettersArePlain(vs: seq<Sextet>)
    ensures PlainLetters(seq(|vs|, i requires 0 <= i < |vs| => Letter(vs[i])))
  {
    forall i | 0 <= i < |vs| {
      LetterHasValue(vs[i]);
    }
  }

  /** The encoding without padding. */
  function Body(bytes: seq<Byte>): string {
    if |bytes| == 0 then ""
    else if |bytes| == 1 then [Letter(bytes[0] / 4), Letter(bytes[0] % 4 * 16)]
    else if |bytes| == 2 then
      [Letter(bytes[0] / 4), Letter(bytes[0] % 4 * 16 + bytes[1] / 16), Letter(bytes[1] % 16 * 4)]
    else Encode(bytes)[..4] + Body(bytes[3..])
  }

  lemma {:induction false} BodyIsPlain(bytes: seq<Byte>)
    ensures PlainLetters(Body(bytes))
  {
    if |bytes| == 0 {
    } else if |bytes| == 1 {
      var vs: seq<Sextet> := [bytes[0] / 4, bytes[0] % 4 * 16];
      LettersArePlain(vs);
      assert Body(bytes) == seq(|vs|, i requires 0 <= i < |vs| => Letter(vs[i]));
    } else if |bytes| == 2 {
      var vs: seq<Sextet> := [bytes[0] / 4, bytes[0] % 4 * 16 + bytes[1] / 16, bytes[1] % 16 * 4];
      LettersArePlain(vs);
      assert Body(bytes) == seq(|vs|, i requires 0 <= i < |vs| => Letter(vs[i]));
    } else {
      var vs: seq<Sextet> :=
        [bytes[0] / 4, bytes[0] % 4 * 16 + bytes[1] / 16, bytes[1] % 16 * 4 + bytes[2] / 64, bytes[2] % 64];
      LettersArePlain(vs);
      assert Encode(bytes)[..4] == seq(|vs|, i requires 0 <= i < |vs| => Letter(vs[i]));
      BodyIsPlain(bytes[3..]);
    }
  }

  lemma WholeGroups(n: int)
    ensures -(4 + n) % 4 == (-n) % 4
  {
  }

  lemma EncodeUnfolds(bytes: seq<Byte>)
    requires |bytes| >= 3
    ensures |Encode(bytes)| >= 4 && Encode(bytes) == Encode(bytes)[..4] + Encode(bytes[3..])
  {
    hide Letter;
  }

  /** An encoding is its letters followed by the padding that completes the last group. */
  lemma {:induction false} EncodeShape(bytes: seq<Byte>)
    ensures Encode(bytes) == Repad(Body(bytes))
  {
    hide Letter;
    if |bytes| <= 2 {
    } else {
      EncodeShape(bytes[3..]);
      EncodeUnfolds(bytes);
      BodyUnfolds(bytes);
      hide Encode, Body;
      var rest := Body(bytes[3..]);
      WholeGroups(|rest|);
    }
  }

  lemma BodyUnfolds(bytes: seq<Byte>)
    requires |bytes| >= 3
    ensures |Encode(bytes)| >= 4 && Body(bytes) == Encode(bytes)[..4] + Body(bytes[3..])
  {
    hide Letter;
  }

  /** Padding that was stripped off an encoding is restored exactly, so the bytes come back. */
  lemma RepadRestores(bytes: seq<Byte>)
    ensures Repad(Unpadded(bytes)) == Encode(bytes)
    ensures Decode(Repad(Unpadded(bytes)), 0, 0, 0) == Some(bytes)
    ensures PlainLetters(Unpadded(bytes))
  {
    hide Encode, Decode, Body, StripRight;
    var body := Body(bytes);
    EncodeShape(bytes);
    BodyIsPlain(bytes);
    StripPadding(body, -|body| % 4);
    DecodeOfEncode(bytes);
  }
}
