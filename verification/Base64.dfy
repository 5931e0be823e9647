/** Base64 (sections 4 and 5 of RFC 4648, with '.' as the padding of the URL
    form): the encoder that indexes its input, the one that fills a block of
    three octets, the decoder and the line breaks of PEM and MIME. */
module Base64 {
  import opened Bytes

  type Sextet = x: int | 0 <= x < 64

  const UPPER := "ABCDEFGHIJKLMNOPQRSTUVWXYZ"
  const LOWER := "abcdefghijklmnopqrstuvwxyz"
  const NUMERALS := "0123456789"

  type Digits = s: string | |s| == 64 witness seq(64, _ => 'A')

  /** The characters of a form of base64. */
  datatype Form = Form(digits: Digits, pad: char)

  function FormOf(url: bool): Form {
    Form(UPPER + LOWER + NUMERALS + if url then "-_" else "+/", if url then '.' else '=')
  }

  datatype Position = Invalid | Position(value: Sextet)

  /** The decoder takes both alphabets at once. */
  function PosOfChar(c: char): Position {
    if 'A' <= c <= 'Z' then Position(c as int - 'A' as int)
    else if 'a' <= c <= 'z' then Position(c as int - 'a' as int + 26)
    else if '0' <= c <= '9' then Position(c as int - '0' as int + 52)
    else if c == '+' || c == '-' then Position(62)
    else if c == '/' || c == '_' then Position(63)
    else Invalid
  }

  lemma UpperAt(v: nat)
    requires v < 26
    ensures UPPER[v] as int == 'A' as int + v
  {}

  lemma LowerAt(v: nat)
    requires v < 26
    ensures LOWER[v] as int == 'a' as int + v
  {}

  lemma NumeralAt(v: nat)
    requires v < 10
    ensures NUMERALS[v] as int == '0' as int + v
  {}

  lemma DigitAt(v: Sextet, url: bool)
    ensures FormOf(url).digits[v] ==
            if v < 26 then UPPER[v] else if v < 52 then LOWER[v - 26]
            else if v < 62 then NUMERALS[v - 52] else (if url then "-_" else "+/")[v - 62]
  {}

  lemma PosOfDigit(v: Sextet, url: bool)
    ensures PosOfChar(FormOf(url).digits[v]) == Position(v)
  {
    DigitAt(v, url);
    if v < 26 {
      UpperAt(v);
    } else if v < 52 {
      LowerAt(v - 26);
    } else if v < 62 {
      NumeralAt(v - 52);
    }
  }

  // ----------------------------------------------------------------- symbols

  /** What a character of the text stands for. */
  datatype Symbol = Value(v: Sextet) | Pad | Other

  function Glyph(x: Symbol, f: Form): char {
    match x
    case Value(v) => f.digits[v]
    case Pad => f.pad
    case Other => '\0'
  }

  function Meaning(c: char): Symbol {
    if c == '=' || c == '.' then Pad else if PosOfChar(c).Invalid? then Other else Value(PosOfChar(c).value)
  }

  lemma MeaningOfGlyph(x: Symbol, url: bool)
    ensures Meaning(Glyph(x, FormOf(url))) == x
  {
    if x.Value? {
      PosOfDigit(x.v, url);
    }
  }

  function Text(xs: seq<Symbol>, f: Form): string {
    seq(|xs|, i requires 0 <= i < |xs| => Glyph(xs[i], f))
  }

  function Symbols(s: string): seq<Symbol> {
    seq(|s|, i requires 0 <= i < |s| => Meaning(s[i]))
  }

  lemma SymbolsOfText(xs: seq<Symbol>, url: bool)
    ensures Symbols(Text(xs, FormOf(url))) == xs
  {
    forall i | 0 <= i < |xs| ensures Symbols(Text(xs, FormOf(url)))[i] == xs[i] {
      MeaningOfGlyph(xs[i], url);
    }
  }

  // ---------------------------------------------------------------- encoding

  /** The four sextets of three octets. */
  function First(b0: byte): Sextet { b0 / 4 }

  function Second(b0: byte, b1: byte): Sextet { b0 % 4 * 16 + b1 / 16 }

  function Third(b1: byte, b2: byte): Sextet { b1 % 16 * 4 + b2 / 64 }

  function Fourth(b2: byte): Sextet { b2 % 64 }

  /** The first group of up to three octets. */
  function Group(bs: seq<byte>): (xs: seq<Symbol>)
    requires bs != []
    ensures |xs| == 4
  {
    if |bs| == 1 then [Value(First(bs[0])), Value(Second(bs[0], 0)), Pad, Pad]
    else if |bs| == 2 then [Value(First(bs[0])), Value(Second(bs[0], bs[1])), Value(Third(bs[1], 0)), Pad]
    else [Value(First(bs[0])), Value(Second(bs[0], bs[1])), Value(Third(bs[1], bs[2])), Value(Fourth(bs[2]))]
  }

  /** What remains after it. */
  function Rest<T>(s: seq<T>, n: nat): seq<T> {
    if |s| <= n then [] else s[n..]
  }

  function Groups(bs: seq<byte>): seq<Symbol>
    decreases |bs|
  {
    if bs == [] then [] else Group(bs) + Groups(Rest(bs, 3))
  }

  function Encode(bs: seq<byte>, f: Form): string {
    Text(Groups(bs), f)
  }

  lemma {:induction false} EncodedLength(bs: seq<byte>, f: Form)
    ensures |Encode(bs, f)| == (|bs| + 2) / 3 * 4
    decreases |bs|
  {
    if bs != [] {
      EncodedLength(Rest(bs, 3), f);
    }
  }

  /** Three octets and four sextets are the same number, most significant part first. */
  lemma GroupNumber(b0: byte, b1: byte, b2: byte)
    ensures Group([b0, b1, b2])[0].Value? && Group([b0, b1, b2])[1].Value?
    ensures Group([b0, b1, b2])[2].Value? && Group([b0, b1, b2])[3].Value?
    ensures var g := Group([b0, b1, b2]);
            ((g[0].v * 64 + g[1].v) * 64 + g[2].v) * 64 + g[3].v == (b0 * 256 + b1) * 256 + b2
  {}

  /** An incomplete last group is that of the octets with zeros, its unused places padded. */
  lemma LastGroups(b0: byte, b1: byte)
    ensures Group([b0]) == Group([b0, 0, 0])[..2] + [Pad, Pad]
    ensures Group([b0, b1]) == Group([b0, b1, 0])[..3] + [Pad]
  {}

  /** The digits and the padding of the two forms. */
  lemma Forms(v: Sextet)
    ensures FormOf(false).pad == '=' && FormOf(true).pad == '.'
    ensures v < 26 ==> FormOf(false).digits[v] as int == FormOf(true).digits[v] as int == 'A' as int + v
    ensures 26 <= v < 52 ==> FormOf(false).digits[v] as int == FormOf(true).digits[v] as int == 'a' as int + v - 26
    ensures 52 <= v < 62 ==> FormOf(false).digits[v] as int == FormOf(true).digits[v] as int == '0' as int + v - 52
    ensures FormOf(false).digits[62..] == "+/" && FormOf(true).digits[62..] == "-_"
  {
    DigitAt(v, false);
    DigitAt(v, true);
    if v < 26 {
      UpperAt(v);
    } else if v < 52 {
      LowerAt(v - 26);
    } else if v < 62 {
      NumeralAt(v - 52);
    }
  }

  // ---------------------------------------------------------------- decoding

  /** The exception for a character outside both alphabets is `BadCharacter`. */
  datatype Decoded = BadCharacter | Decoded(octets: seq<byte>)

  function Then(a: Decoded, b: Decoded): Decoded {
    if a.Decoded? && b.Decoded? then Decoded(a.octets + b.octets) else BadCharacter
  }

  /** A string ends in a NUL, which is no symbol. */
  function At(xs: seq<Symbol>, i: nat): Symbol {
    if i < |xs| then xs[i] else Other
  }

  function Quad(xs: seq<Symbol>): Decoded {
    if !At(xs, 0).Value? || !At(xs, 1).Value? then BadCharacter
    else
      var b0: byte := xs[0].v * 4 + xs[1].v / 16;
      match At(xs, 2)
      case Pad => Decoded([b0])
      case Other => BadCharacter
      case Value(v2) =>
        var b1: byte := xs[1].v % 16 * 16 + v2 / 4;
        match At(xs, 3)
        case Pad => Decoded([b0, b1])
        case Other => BadCharacter
        case Value(v3) => Decoded([b0, b1, v2 % 4 * 64 + v3])
  }

  function Quads(xs: seq<Symbol>): Decoded
    decreases |xs|
  {
    if xs == [] then Decoded([]) else Then(Quad(xs), Quads(Rest(xs, 4)))
  }

  function Decode(s: string): Decoded {
    Quads(Symbols(s))
  }

  lemma Octet0(b0: byte, b1: byte)
    ensures First(b0) * 4 + Second(b0, b1) / 16 == b0
  {}

  lemma Octet1(b0: byte, b1: byte, b2: byte)
    ensures Second(b0, b1) % 16 * 16 + Third(b1, b2) / 4 == b1
  {}

  lemma Octet2(b1: byte, b2: byte)
    ensures Third(b1, b2) % 4 * 64 + Fourth(b2) == b2
  {}

  lemma QuadOfGroup(bs: seq<byte>, xs: seq<Symbol>)
    requires bs != []
    ensures Quad(Group(bs) + xs) == Decoded(if |bs| <= 3 then bs else bs[..3])
  {
    var b0, b1, b2 := bs[0], if |bs| > 1 then bs[1] else 0, if |bs| > 2 then bs[2] else 0;
    Octet0(b0, b1);
    Octet1(b0, b1, b2);
    Octet2(b1, b2);
  }

  lemma {:induction false} QuadsOfGroups(bs: seq<byte>)
    ensures Quads(Groups(bs)) == Decoded(bs)
    decreases |bs|
  {
    if bs != [] {
      QuadOfGroup(bs, Groups(Rest(bs, 3)));
      QuadsOfGroups(Rest(bs, 3));
      assert Rest(Groups(bs), 4) == Groups(Rest(bs, 3));
      assert |bs| > 3 ==> bs[..3] + bs[3..] == bs;
    }
  }

  /** Decoding gives back what was encoded, in either alphabet. */
  lemma {:induction false} RoundTrip(bs: seq<byte>, url: bool)
    ensures Decode(Encode(bs, FormOf(url))) == Decoded(bs)
  {
    SymbolsOfText(Groups(bs), url);
    QuadsOfGroups(bs);
  }

  // ------------------------------------------------------------- line breaks

  /** Lines of `distance` characters, the last one perhaps shorter. */
  function Lines(s: string, distance: nat): string
    requires distance > 0
  {
    if |s| <= distance then s else s[..distance] + "\n" + Lines(s[distance..], distance)
  }

  function Unbroken(s: string): string {
    if s == "" then "" else (if s[0] == '\n' then "" else [s[0]]) + Unbroken(s[1..])
  }

  lemma {:induction false} UnbrokenAppend(s: string, t: string)
    ensures Unbroken(s + t) == Unbroken(s) + Unbroken(t)
  {
    if s == "" {
      assert s + t == t;
    } else {
      assert (s + t)[1..] == s[1..] + t;
      UnbrokenAppend(s[1..], t);
    }
  }

  lemma {:induction false} UnbrokenSame(s: string)
    requires '\n' !in s
    ensures Unbroken(s) == s
  {
    if s != "" {
      UnbrokenSame(s[1..]);
    }
  }

  lemma UnbrokenJoin(a: string, b: string)
    requires '\n' !in a
    ensures Unbroken(a + "\n" + b) == a + Unbroken(b)
  {
    UnbrokenSame(a);
    assert a + "\n" + b == a + ("\n" + b);
    UnbrokenAppend(a, "\n" + b);
    assert ("\n" + b)[1..] == b;
  }

  /** Removing the line breaks undoes inserting them. */
  lemma {:induction false} UnbrokenLines(s: string, distance: nat)
    requires distance > 0 && '\n' !in s
    ensures Unbroken(Lines(s, distance)) == s
  {
    if |s| <= distance {
      UnbrokenSame(s);
    } else {
      UnbrokenLines(s[distance..], distance);
      UnbrokenJoin(s[..distance], Lines(s[distance..], distance));
    }
  }

  lemma GlyphNoBreak(x: Symbol, url: bool)
    ensures Glyph(x, FormOf(url)) != '\n'
  {
    MeaningOfGlyph(x, url);
  }

  lemma EncodeNoBreak(bs: seq<byte>, url: bool)
    ensures '\n' !in Encode(bs, FormOf(url))
  {
    var xs := Groups(bs);
    forall i | 0 <= i < |xs| ensures Text(xs, FormOf(url))[i] != '\n' {
      GlyphNoBreak(xs[i], url);
    }
  }

  /** PEM (64) and MIME (76) text, decoded with removal of line breaks, gives the
      octets back. */
  lemma BrokenRoundTrip(bs: seq<byte>, distance: nat)
    requires distance > 0
    ensures Decode(Unbroken(Lines(Encode(bs, FormOf(false)), distance))) == Decoded(bs)
  {
    EncodeNoBreak(bs, false);
    UnbrokenLines(Encode(bs, FormOf(false)), distance);
    RoundTrip(bs, false);
  }

  // ------------------------------------------------------------------- loops

  lemma TextAppend(xs: seq<Symbol>, ys: seq<Symbol>, f: Form)
    ensures Text(xs + ys, f) == Text(xs, f) + Text(ys, f)
  {}

  /** The text of the octets from `pos` on. */
  function Remaining(bs: seq<byte>, pos: nat, f: Form): string {
    Encode(Rest(bs, pos), f)
  }

  /** `ret` is the text of the octets before `pos`. */
  predicate Written(bs: seq<byte>, pos: nat, ret: string, f: Form) {
    ret + Remaining(bs, pos, f) == Encode(bs, f)
  }

  lemma WrittenNext(bs: seq<byte>, pos: nat, ret: string, s: string, f: Form)
    requires Written(bs, pos, ret, f) && pos < |bs| && s == Text(Group(bs[pos..]), f)
    ensures Written(bs, pos + 3, ret + s, f)
  {
    RemainingNext(bs, pos, f);
    assert ret + s + Remaining(bs, pos + 3, f) == ret + (s + Remaining(bs, pos + 3, f));
  }

  lemma WrittenAll(bs: seq<byte>, pos: nat, ret: string, f: Form)
    requires Written(bs, pos, ret, f) && pos >= |bs|
    ensures ret == Encode(bs, f)
  {}

  lemma RemainingNext(bs: seq<byte>, pos: nat, f: Form)
    requires pos < |bs|
    ensures Remaining(bs, pos, f) == Text(Group(bs[pos..]), f) + Remaining(bs, pos + 3, f)
  {
    assert Rest(bs[pos..], 3) == Rest(bs, pos + 3);
    TextAppend(Group(bs[pos..]), Groups(Rest(bs, pos + 3)), f);
  }

  method EncodeGroup(bs: seq<byte>, pos: nat, f: Form) returns (s: string)
    requires pos < |bs|
    ensures s == Text(Group(bs[pos..]), f)
  {
    s := [f.digits[bs[pos] / 4]];
    if pos + 1 < |bs| {
      s := s + [f.digits[bs[pos] % 4 * 16 + bs[pos + 1] / 16]];
      if pos + 2 < |bs| {
        s := s + [f.digits[bs[pos + 1] % 16 * 4 + bs[pos + 2] / 64]];
        s := s + [f.digits[bs[pos + 2] % 64]];
      } else {
        s := s + [f.digits[bs[pos + 1] % 16 * 4]];
        s := s + [f.pad];
      }
    } else {
      s := s + [f.digits[bs[pos] % 4 * 16]];
      s := s + [f.pad];
      s := s + [f.pad];
    }
  }

  method EncodeIndexed(bs: seq<byte>, url: bool) returns (ret: string)
    ensures ret == Encode(bs, FormOf(url))
  {
    var f := FormOf(url);
    ret := "";
    var pos := 0;
    while pos < |bs|
      invariant ret + Remaining(bs, pos, f) == Encode(bs, f)
    {
      RemainingNext(bs, pos, f);
      var s := EncodeGroup(bs, pos, f);
      ret := ret + s;
      pos := pos + 3;
    }
  }

  /** Writes the sextets of a block of three octets. */
  method Split(block: array<byte>, sextets: array<Sextet>)
    requires block.Length == 3 && sextets.Length == 4
    modifies sextets
    ensures sextets[..] == [First(block[0]), Second(block[0], block[1]), Third(block[1], block[2]), Fourth(block[2])]
  {
    sextets[0] := block[0] / 4;
    sextets[1] := block[0] % 4 * 16 + block[1] / 16;
    sextets[2] := block[1] % 16 * 4 + block[2] / 64;
    sextets[3] := block[2] % 64;
  }

  function Values(vs: seq<Sextet>): seq<Symbol> {
    seq(|vs|, i requires 0 <= i < |vs| => Value(vs[i]))
  }

  method Emit(sextets: array<Sextet>, n: nat, f: Form) returns (s: string)
    requires n <= sextets.Length
    ensures s == Text(Values(sextets[..n]), f)
  {
    s := "";
    for i := 0 to n
      invariant |s| == i && forall j :: 0 <= j < i ==> s[j] == f.digits[sextets[j]]
    {
      s := s + [f.digits[sextets[i]]];
    }
  }

  /** The end of the block-filling encoder: `i` octets are left in the block. */
  method Flush(block: array<byte>, sextets: array<Sextet>, i: nat, f: Form) returns (s: string)
    requires block.Length == 3 && sextets.Length == 4 && 1 <= i <= 2
    modifies block, sextets
    ensures s == Text(Group(old(block[..i])), f)
  {
    for j := i to 3
      invariant block[..i] == old(block[..i]) && forall k :: i <= k < j ==> block[k] == 0
    {
      block[j] := 0;
    }
    Split(block, sextets);
    s := Emit(sextets, i + 1, f);
    var n := i;
    while n < 3
      invariant i <= n <= 3 && s == Text(Values(sextets[..i + 1]) + seq(n - i, _ => Pad), f)
    {
      s := s + [f.pad];
      n := n + 1;
    }
    assert block[0] == old(block[..i])[0];
    assert i == 2 ==> block[1] == old(block[..i])[1];
    assert Group(old(block[..i])) == Values(sextets[..i + 1]) + seq(3 - i, _ => Pad);
  }

  lemma FullBlock(bs: seq<byte>, pos: nat, block: seq<byte>, sextets: seq<Sextet>)
    requires pos + 3 <= |bs| && block == bs[pos..pos + 3]
    requires sextets == [First(block[0]), Second(block[0], block[1]), Third(block[1], block[2]), Fourth(block[2])]
    ensures Group(bs[pos..]) == Values(sextets[..4])
  {}

  /** A full block. */
  method Full(ghost bs: seq<byte>, ghost pos: nat, block: array<byte>, sextets: array<Sextet>, f: Form)
    returns (s: string)
    requires block.Length == 3 && sextets.Length == 4 && pos + 3 <= |bs| && block[..] == bs[pos..pos + 3]
    modifies sextets
    ensures s == Text(Group(bs[pos..]), f)
  {
    Split(block, sextets);
    s := Emit(sextets, 4, f);
    FullBlock(bs, pos, block[..], sextets[..]);
  }

  /** `i` octets before position `k` are in the block, those before are written. */
  ghost predicate Filled(bs: seq<byte>, k: nat, i: nat, block: array<byte>, ret: string, f: Form)
    reads block
  {
    && i <= k <= |bs| && i <= block.Length == 3 && Written(bs, k - i, ret, f)
    && forall j :: 0 <= j < i ==> block[j] == bs[k - i + j]
  }

  method Put(bs: seq<byte>, k: nat, i: nat, block: array<byte>, sextets: array<Sextet>, ret: string, f: Form)
    returns (i1: nat, ret1: string)
    requires k < |bs| && i < 3 && sextets.Length == 4 && Filled(bs, k, i, block, ret, f)
    modifies block, sextets
    ensures i1 < 3 && Filled(bs, k + 1, i1, block, ret1, f)
  {
    block[i] := bs[k];
    i1, ret1 := i + 1, ret;
    if i1 == 3 {
      assert block[..] == bs[k - 2..k + 1];
      var s := Full(bs, k - 2, block, sextets, f);
      WrittenNext(bs, k - 2, ret, s, f);
      ret1, i1 := ret + s, 0;
    }
  }

  method FillBlocks(bs: seq<byte>, f: Form) returns (ret: string)
    ensures ret == Encode(bs, f)
  {
    var block, sextets := new byte[3], new Sextet[4];
    var i: nat := 0;
    ret := "";
    for k := 0 to |bs|
      invariant i < 3 && Filled(bs, k, i, block, ret, f)
    {
      i, ret := Put(bs, k, i, block, sextets, ret, f);
    }
    if i > 0 {
      assert bs[|bs| - i..] == block[..i];
      var s := Flush(block, sextets, i, f);
      WrittenNext(bs, |bs| - i, ret, s, f);
      ret := ret + s;
    }
    WrittenAll(bs, if i > 0 then |bs| - i + 3 else |bs|, ret, f);
  }

  /** The encoder that fills blocks writes the same text as the one that indexes. */
  method EncodeBlocks(bs: seq<byte>) returns (ret: string)
    ensures ret == Encode(bs, FormOf(false))
  {
    ret := FillBlocks(bs, FormOf(false));
  }

  /** Characters may be read up to the terminating NUL and no further. */
  function CharAt(s: string, i: nat): char
    requires i <= |s|
  {
    if i < |s| then s[i] else '\0'
  }

  method DecodeQuad(s: string, pos: nat) returns (r: Decoded)
    requires pos < |s|
    ensures r == Quad(Symbols(Rest(s, pos)))
  {
    var p1 := PosOfChar(CharAt(s, pos + 1));
    var p0 := PosOfChar(CharAt(s, pos));
    if p1.Invalid? || p0.Invalid? { return BadCharacter; }
    var b0: byte := p0.value * 4 + p1.value / 16;
    if CharAt(s, pos + 2) == '=' || CharAt(s, pos + 2) == '.' { return Decoded([b0]); }
    var p2 := PosOfChar(CharAt(s, pos + 2));
    if p2.Invalid? { return BadCharacter; }
    var b1: byte := p1.value % 16 * 16 + p2.value / 4;
    if CharAt(s, pos + 3) == '=' || CharAt(s, pos + 3) == '.' { return Decoded([b0, b1]); }
    var p3 := PosOfChar(CharAt(s, pos + 3));
    if p3.Invalid? { return BadCharacter; }
    return Decoded([b0, b1, p2.value % 4 * 64 + p3.value]);
  }

  method DecodeText(s: string) returns (r: Decoded)
    ensures r == Decode(s)
  {
    var ret: seq<byte> := [];
    var pos := 0;
    while pos < |s|
      invariant Decode(s) == Then(Decoded(ret), Decode(Rest(s, pos)))
    {
      assert Rest(Symbols(Rest(s, pos)), 4) == Symbols(Rest(s, pos + 4));
      var q := DecodeQuad(s, pos);
      if q.BadCharacter? { return BadCharacter; }
      ret := ret + q.octets;
      pos := pos + 4;
    }
    return Decoded(ret);
  }

  method InsertLinebreaks(s: string, distance: nat) returns (str: string)
    requires distance > 0
    ensures str == Lines(s, distance)
  {
    str := s;
    if s == "" { return; }
    var pos := distance;
    ghost var done, rest := "", s;
    while pos < |str|
      invariant str == done + rest && pos == |done| + distance
      invariant Lines(s, distance) == done + Lines(rest, distance)
    {
      str := str[..pos] + "\n" + str[pos..];
      done, rest := done + rest[..distance] + "\n", rest[distance..];
      pos := pos + distance + 1;
    }
  }

  method FindBreak(s: string, from: nat) returns (pos: nat)
    requires from <= |s|
    ensures from <= pos <= |s| && '\n' !in s[from..pos] && (pos < |s| ==> s[pos] == '\n')
  {
    pos := from;
    while pos < |s| && s[pos] != '\n'
      invariant from <= pos <= |s| && '\n' !in s[from..pos]
    {
      pos := pos + 1;
    }
  }

  /** Line breaks are removed up to `at`: what the whole will be. */
  predicate Removing(s: string, copy: string, at: nat) {
    at <= |copy| && Unbroken(s) == copy[..at] + Unbroken(copy[at..])
  }

  lemma RemovingNext(s: string, copy: string, at: nat, pos: nat)
    requires Removing(s, copy, at) && at <= pos < |copy| && '\n' !in copy[at..pos] && copy[pos] == '\n'
    ensures Removing(s, copy[..pos] + copy[pos + 1..], pos)
  {
    var t := copy[..pos] + copy[pos + 1..];
    assert t[..pos] == copy[..at] + copy[at..pos] && t[pos..] == copy[pos + 1..];
    assert copy[at..] == copy[at..pos] + "\n" + copy[pos + 1..];
    UnbrokenJoin(copy[at..pos], copy[pos + 1..]);
  }

  lemma RemovingEnd(s: string, copy: string, at: nat)
    requires Removing(s, copy, at) && '\n' !in copy[at..]
    ensures copy == Unbroken(s)
  {
    UnbrokenSame(copy[at..]);
  }

  lemma RemovingStart(s: string)
    ensures Removing(s, s, 0)
  {
    assert s[0..] == s;
  }

  method RemoveLinebreaks(s: string) returns (copy: string)
    ensures copy == Unbroken(s)
  {
    copy := s;
    RemovingStart(s);
    ghost var at := 0;
    var pos := FindBreak(copy, 0);
    while pos < |copy|
      invariant at <= pos <= |copy| && Removing(s, copy, at)
      invariant '\n' !in copy[at..pos] && (pos < |copy| ==> copy[pos] == '\n')
      decreases |copy| - pos
    {
      RemovingNext(s, copy, at, pos);
      copy := copy[..pos] + copy[pos + 1..];
      at := pos;
      pos := FindBreak(copy, pos);
    }
    assert copy[at..] == copy[at..pos];
    RemovingEnd(s, copy, at);
  }

  method EncodeWithLineBreaks(bs: seq<byte>, distance: nat) returns (s: string)
    requires distance > 0
    ensures s == Lines(Encode(bs, FormOf(false)), distance) && Decode(Unbroken(s)) == Decoded(bs)
  {
    var text := EncodeIndexed(bs, false);
    s := InsertLinebreaks(text, distance);
    BrokenRoundTrip(bs, distance);
  }

  method Base64Decode(s: string, removeLinebreaks: bool) returns (r: Decoded)
    ensures r == Decode(if removeLinebreaks then Unbroken(s) else s)
  {
    if removeLinebreaks {
      var copy := RemoveLinebreaks(s);
      r := DecodeText(copy);
    } else {
      r := DecodeText(s);
    }
  }
}
