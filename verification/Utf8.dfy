// str.encode("utf-8", errors="replace"): a lone surrogate becomes a question mark, and
// nothing else is lost.
module Utf8 {
  import opened Text

  type Byte = b: int | 0 <= b < 0x100

  type CodePoint = c: int | 0 <= c < 0x11_0000

  const QUESTION_MARK: CodePoint := 0x3F

  predicate IsSurrogate(c: CodePoint)
  {
    0xD800 <= c < 0xE000
  }

  function EncodeOne(c: CodePoint): (bytes: seq<Byte>)
    ensures |bytes| > 0
  {
    if c < 0x80 then [c]
    else if c < 0x800 then [0xC0 + c / 0x40, 0x80 + c % 0x40]
    else if IsSurrogate(c) then [QUESTION_MARK]
    else if c < 0x1_0000 then [0xE0 + c / 0x1000, 0x80 + c / 0x40 % 0x40, 0x80 + c % 0x40]
    else [0xF0 + c / 0x4_0000, 0x80 + c / 0x1000 % 0x40, 0x80 + c / 0x40 % 0x40, 0x80 + c % 0x40]
  }

  function Encode(text: seq<CodePoint>): seq<Byte>
  {
    if text == [] then [] else EncodeOne(text[0]) + Encode(text[1..])
  }

  /** The code point that an encoding stands for. */
  function Shown(c: CodePoint): CodePoint
  {
    if IsSurrogate(c) then QUESTION_MARK else c
  }

  function Replaced(text: seq<CodePoint>): (shown: seq<CodePoint>)
    ensures |shown| == |text|
    ensures forall i | 0 <= i < |text| :: shown[i] == Shown(text[i])
  {
    seq(|text|, i requires 0 <= i < |text| => Shown(text[i]))
  }

  /** The length of an encoded code point, read off its first byte. */
  function Width(lead: Byte): nat
  {
    if lead < 0x80 then 1 else if lead < 0xE0 then 2 else if lead < 0xF0 then 3 else 4
  }

  lemma WidthOfOne(c: CodePoint)
    ensures |EncodeOne(c)| == Width(EncodeOne(c)[0])
  {
  }

  /** The code point that the bytes of one encoding spell. */
  function DecodeOne(bytes: seq<Byte>): int
    requires 1 <= |bytes| <= 4
  {
    if |bytes| == 1 then bytes[0]
    else if |bytes| == 2 then (bytes[0] - 0xC0) * 0x40 + Tail(bytes[1])
    else if |bytes| == 3 then ((bytes[0] - 0xE0) * 0x40 + Tail(bytes[1])) * 0x40 + Tail(bytes[2])
    else (((bytes[0] - 0xF0) * 0x40 + Tail(bytes[1])) * 0x40 + Tail(bytes[2])) * 0x40 + Tail(bytes[3])
  }

  /** The six bits of a continuation byte. */
  function Tail(b: Byte): int { b - 0x80 }

  lemma OneRoundTrip(c: CodePoint)
    ensures |EncodeOne(c)| <= 4 && DecodeOne(EncodeOne(c)) == Shown(c)
  {
    assert c / 0x1000 == c / 0x40 / 0x40;
    assert c / 0x4_0000 == c / 0x1000 / 0x40;
  }

  lemma OneIsPrefixFree(c: CodePoint, x: seq<Byte>, d: CodePoint, y: seq<Byte>)
    requires EncodeOne(c) + x == EncodeOne(d) + y
    ensures Shown(c) == Shown(d) && x == y
  {
    var s, t := EncodeOne(c), EncodeOne(d);
    WidthOfOne(c);
    WidthOfOne(d);
    assert s[0] == (s + x)[0] == (t + y)[0] == t[0];
    assert s == (s + x)[..|s|] == (t + y)[..|t|] == t;
    assert x == (s + x)[|s|..] == (t + y)[|t|..] == y;
    OneRoundTrip(c);
    OneRoundTrip(d);
  }

  /** Two texts have one encoding exactly if they differ in what surrogates become only. */
  lemma {:induction false} EncodeExactly(p: seq<CodePoint>, q: seq<CodePoint>)
    ensures Encode(p) == Encode(q) <==> Replaced(p) == Replaced(q)
  {
    if Encode(p) == Encode(q) {
      ReplacedIsDecided(p, q);
    }
    if Replaced(p) == Replaced(q) {
      EncodeReplaced(p);
      EncodeReplaced(q);
    }
  }

  lemma {:induction false} ReplacedIsDecided(p: seq<CodePoint>, q: seq<CodePoint>)
    requires Encode(p) == Encode(q)
    ensures Replaced(p) == Replaced(q)
  {
    if p != [] && q != [] {
      OneIsPrefixFree(p[0], Encode(p[1..]), q[0], Encode(q[1..]));
      ReplacedIsDecided(p[1..], q[1..]);
      ReplacedCons(p);
      ReplacedCons(q);
    }
  }

  lemma ReplacedCons(p: seq<CodePoint>)
    requires p != []
    ensures Replaced(p) == [Shown(p[0])] + Replaced(p[1..])
  {
  }

  lemma {:induction false} EncodeReplaced(p: seq<CodePoint>)
    ensures Encode(Replaced(p)) == Encode(p)
  {
    if p != [] {
      ReplacedCons(p);
      EncodeReplaced(p[1..]);
      assert Replaced(p)[1..] == Replaced(p[1..]);
    }
  }

  lemma {:induction false} EncodeKeepsNul(p: seq<CodePoint>)
    ensures 0 in Encode(p) <==> 0 in p
  {
    if p != [] {
      EncodeKeepsNul(p[1..]);
      assert p == [p[0]] + p[1..];
      assert 0 in EncodeOne(p[0]) <==> p[0] == 0;
    }
  }

  /** A string by its code points. */
  function CodePoints(s: string): seq<CodePoint>
  {
    seq(|s|, i requires 0 <= i < |s| => s[i] as int)
  }

  lemma {:induction false} LengthCons(s: string)
    requires s != []
    ensures Utf8Length(s) == Utf8Length([s[0]]) + Utf8Length(s[1..])
  {
    if |s| == 1 {
      assert s == [s[0]] && s[1..] == [];
    } else {
      LengthCons(s[..|s| - 1]);
      assert s[1..][..|s| - 2] == s[..|s| - 1][1..];
    }
  }

  lemma LengthOfOne(c: char)
    ensures Utf8Length([c]) == |EncodeOne(c as int)|
  {
    assert [c][..0] == [];
  }

  /** Patch sizes count the bytes of the encoded text. */
  lemma {:induction false} LengthIsBytes(s: string)
    ensures Utf8Length(s) == |Encode(CodePoints(s))|
  {
    if s == [] {
      assert CodePoints(s) == [];
    } else {
      LengthIsBytes(s[1..]);
      LengthCons(s);
      LengthOfOne(s[0]);
      assert CodePoints(s)[1..] == CodePoints(s[1..]);
    }
  }
}
