/**
 Wide strings from the HID library as UTF-8. The reference side is the grammar of
 section 4 of RFC 3629 and the pairing rule of section 2.2 of RFC 2781; the
 transcoder is proved to produce the one byte sequence that decodes to the text.

 Bit fields are written as sums: the fields joined by `|` never overlap.
 */
module WideText {
  import opened Wrappers

  const REPLACEMENT: nat := 0xFFFD

  predicate HighSurrogate(u: nat) {
    0xD800 <= u <= 0xDBFF
  }

  predicate LowSurrogate(u: nat) {
    0xDC00 <= u <= 0xDFFF
  }

  /** A Unicode scalar value. */
  predicate IsScalar(c: nat) {
    c <= 0x10FFFF && !HighSurrogate(c) && !LowSurrogate(c)
  }

  // ------------------------------------------------------------ UTF-8, RFC 3629

  predicate Tail(b: nat) {
    0x80 <= b <= 0xBF
  }

  /** The second byte a lead byte admits. */
  predicate SecondFits(lead: nat, second: nat) {
    if lead == 0xE0 then 0xA0 <= second <= 0xBF
    else if lead == 0xED then 0x80 <= second <= 0x9F
    else if lead == 0xF0 then 0x90 <= second <= 0xBF
    else if lead == 0xF4 then 0x80 <= second <= 0x8F
    else Tail(second)
  }

  /** The number of bytes of a character by its lead byte; 0 for a byte that starts none. */
  function Length(lead: nat): nat {
    if lead <= 0x7F then 1
    else if 0xC2 <= lead <= 0xDF then 2
    else if 0xE0 <= lead <= 0xEF then 3
    else if 0xF0 <= lead <= 0xF4 then 4
    else 0
  }

  predicate WellFormedChar(b: seq<nat>) {
    && b != [] && Length(b[0]) == |b|
    && (|b| > 1 ==> SecondFits(b[0], b[1]))
    && forall i | 2 <= i < |b| :: Tail(b[i])
  }

  /** The scalar value of one well-formed character. */
  function CharValue(b: seq<nat>): nat
    requires WellFormedChar(b)
  {
    if |b| == 1 then b[0]
    else if |b| == 2 then (b[0] - 0xC0) * 0x40 + (b[1] - 0x80)
    else if |b| == 3 then (b[0] - 0xE0) * 0x1000 + (b[1] - 0x80) * 0x40 + (b[2] - 0x80)
    else (b[0] - 0xF0) * 0x40000 + (b[1] - 0x80) * 0x1000 + (b[2] - 0x80) * 0x40 + (b[3] - 0x80)
  }

  /** The text of a byte sequence, None unless it is well-formed. */
  function Decode(b: seq<nat>): Option<seq<nat>> {
    if b == [] then Some([])
    else
      var n := Length(b[0]);
      if n == 0 || n > |b| || !WellFormedChar(b[..n]) then None
      else
        var rest := Decode(b[n..]);
        if rest.None? then None else Some([CharValue(b[..n])] + rest.value)
  }

  function EncodeScalar(c: nat): seq<nat>
    requires IsScalar(c)
  {
    if c <= 0x7F then [c]
    else if c <= 0x7FF then [0xC0 + c / 0x40, 0x80 + c % 0x40]
    else if c <= 0xFFFF then [0xE0 + c / 0x1000, 0x80 + c / 0x40 % 0x40, 0x80 + c % 0x40]
    else [0xF0 + c / 0x40000, 0x80 + c / 0x1000 % 0x40, 0x80 + c / 0x40 % 0x40, 0x80 + c % 0x40]
  }

  predicate AllScalars(text: seq<nat>) {
    forall i | 0 <= i < |text| :: IsScalar(text[i])
  }

  function Encode(text: seq<nat>): seq<nat>
    requires AllScalars(text)
  {
    if text == [] then [] else EncodeScalar(text[0]) + Encode(text[1..])
  }

  lemma EncodedIsWellFormed(c: nat)
    requires IsScalar(c)
    ensures WellFormedChar(EncodeScalar(c)) && CharValue(EncodeScalar(c)) == c
    ensures EncodeScalar(c) != [] && Length(EncodeScalar(c)[0]) == |EncodeScalar(c)|
  {
    if c > 0xFFFF {
      FourByteForm(c);
    } else if c > 0x7FF {
      ThreeByteForm(c);
    }
  }

  lemma ThreeByteForm(c: nat)
    requires IsScalar(c) && 0x7FF < c <= 0xFFFF
    ensures WellFormedChar(EncodeScalar(c)) && CharValue(EncodeScalar(c)) == c
  {
    assert c / 0x40 == c / 0x1000 * 0x40 + c / 0x40 % 0x40;
  }

  lemma FourByteForm(c: nat)
    requires IsScalar(c) && c > 0xFFFF
    ensures WellFormedChar(EncodeScalar(c)) && CharValue(EncodeScalar(c)) == c
  {
    assert c / 0x1000 == c / 0x40000 * 0x40 + c / 0x1000 % 0x40;
    assert c / 0x40 == c / 0x1000 * 0x40 + c / 0x40 % 0x40;
  }

  /** Encoding then decoding gives the text back. */
  lemma {:induction false} DecodeEncode(text: seq<nat>)
    requires AllScalars(text)
    ensures Decode(Encode(text)) == Some(text)
  {
    hide EncodeScalar, WellFormedChar, CharValue, Length, IsScalar;
    if text != [] {
      var first, rest := EncodeScalar(text[0]), Encode(text[1..]);
      EncodedIsWellFormed(text[0]);
      DecodeEncode(text[1..]);
      var b := first + rest;
      assert b[0] == first[0] && b[..|first|] == first && b[|first|..] == rest;
      assert text == [text[0]] + text[1..];
    }
  }

  /** A digit in base 64. */
  lemma LastDigit(q: nat, r: nat)
    requires r < 0x40
    ensures (q * 0x40 + r) / 0x40 == q && (q * 0x40 + r) % 0x40 == r
  {
  }

  lemma Digits(x: nat, y: nat, z: nat)
    requires y < 0x40 && z < 0x40
    ensures var c := x * 0x1000 + y * 0x40 + z;
            c / 0x1000 == x && c / 0x40 == x * 0x40 + y && c / 0x40 % 0x40 == y && c % 0x40 == z
  {
    LastDigit(x * 0x40 + y, z);
    LastDigit(x, y);
  }

  lemma WellFormedIsEncoded(b: seq<nat>)
    requires WellFormedChar(b)
    ensures IsScalar(CharValue(b)) && EncodeScalar(CharValue(b)) == b
  {
    if |b| == 2 {
      LastDigit(b[0] - 0xC0, b[1] - 0x80);
    } else if |b| == 3 {
      ThreeBytes(b);
    } else if |b| == 4 {
      FourBytes(b);
    }
  }

  lemma ThreeBytes(b: seq<nat>)
    requires WellFormedChar(b) && |b| == 3
    ensures IsScalar(CharValue(b)) && EncodeScalar(CharValue(b)) == b
  {
    Digits(b[0] - 0xE0, b[1] - 0x80, b[2] - 0x80);
  }

  lemma FourBytes(b: seq<nat>)
    requires WellFormedChar(b) && |b| == 4
    ensures IsScalar(CharValue(b)) && EncodeScalar(CharValue(b)) == b
  {
    var w, x := b[0] - 0xF0, b[1] - 0x80;
    Digits(w * 0x40 + x, b[2] - 0x80, b[3] - 0x80);
    LastDigit(w, x);
    assert CharValue(b) == (w * 0x40 + x) * 0x1000 + (b[2] - 0x80) * 0x40 + (b[3] - 0x80);
    assert CharValue(b) / 0x40000 == w;
  }

  /** A text has one well-formed encoding: whatever decodes to it is its encoding. */
  lemma {:induction false} EncodeDecode(b: seq<nat>)
    requires Decode(b).Some?
    ensures AllScalars(Decode(b).value) && Encode(Decode(b).value) == b
  {
    if b != [] {
      var n, text := Length(b[0]), Decode(b).value;
      WellFormedIsEncoded(b[..n]);
      EncodeDecode(b[n..]);
      assert text[1..] == Decode(b[n..]).value;
      assert b == b[..n] + b[n..];
    }
  }

  // -------------------------------------------------- wide strings, RFC 2781

  datatype Width = Wide16 | Wide32

  predicate Fits(width: Width, u: nat) {
    u < if width == Wide16 then 0x1_0000 else 0x1_0000_0000
  }

  /** The scalar a code unit stands for on its own. */
  function Single(u: nat): nat {
    if IsScalar(u) then u else REPLACEMENT
  }

  predicate PairAt(units: seq<nat>, width: Width) {
    width == Wide16 && |units| > 1 && HighSurrogate(units[0]) && LowSurrogate(units[1])
  }

  function JoinPair(high: nat, low: nat): nat
    requires HighSurrogate(high) && LowSurrogate(low)
  {
    0x10000 + (high - 0xD800) * 0x400 + (low - 0xDC00)
  }

  /** The text of a wide string: pairs joined, everything else that is no scalar replaced. */
  function Scalars(units: seq<nat>, width: Width): (text: seq<nat>)
    ensures AllScalars(text)
  {
    if units == [] then []
    else if PairAt(units, width) then [JoinPair(units[0], units[1])] + Scalars(units[2..], width)
    else [Single(units[0])] + Scalars(units[1..], width)
  }

  function WideUnits(c: nat, width: Width): seq<nat>
    requires IsScalar(c)
  {
    if width == Wide16 && c > 0xFFFF then [0xD800 + (c - 0x10000) / 0x400, 0xDC00 + (c - 0x10000) % 0x400] else [c]
  }

  function Widen(text: seq<nat>, width: Width): seq<nat>
    requires AllScalars(text)
  {
    if text == [] then [] else WideUnits(text[0], width) + Widen(text[1..], width)
  }

  /** Reading a wide string gives the text it was made from, so no text is lost or replaced. */
  lemma {:induction false} ScalarsWiden(text: seq<nat>, width: Width)
    requires AllScalars(text)
    ensures Scalars(Widen(text, width), width) == text
  {
    if text != [] {
      var c, units, rest := text[0], WideUnits(text[0], width), Widen(text[1..], width);
      ScalarsWiden(text[1..], width);
      var all := units + rest;
      if |units| == 2 {
        assert all[2..] == rest && PairAt(all, width);
        assert JoinPair(units[0], units[1]) == c;
      } else {
        assert all[1..] == rest && !PairAt(all, width);
      }
    }
  }

  // ----------------------------------------------------------------- transcoder

  /** The units before the terminator; a missing string is empty. */
  function Text(value: Option<seq<nat>>): seq<nat> {
    if value.None? then [] else Prefix(value.value)
  }

  function Prefix(buffer: seq<nat>): seq<nat> {
    if buffer == [] || buffer[0] == 0 then [] else [buffer[0]] + Prefix(buffer[1..])
  }

  method AppendUtf8(output: seq<nat>, c: nat) returns (appended: seq<nat>)
    ensures appended == output + EncodeScalar(Single(c))
  {
    if c <= 0x7F {
      return output + [c];
    } else if c <= 0x7FF {
      return output + [0xC0 + c / 0x40, 0x80 + c % 0x40];
    } else if HighSurrogate(c) || LowSurrogate(c) {
      return output + [0xEF, 0xBF, 0xBD];
    } else if c <= 0xFFFF {
      return output + [0xE0 + c / 0x1000, 0x80 + c / 0x40 % 0x40, 0x80 + c % 0x40];
    } else if c <= 0x10FFFF {
      return output + [0xF0 + c / 0x40000, 0x80 + c / 0x1000 % 0x40, 0x80 + c / 0x40 % 0x40, 0x80 + c % 0x40];
    }
    return output + [0xEF, 0xBF, 0xBD];
  }

  lemma {:induction false} PrefixAt(buffer: seq<nat>, i: nat)
    requires 0 in buffer && i <= |Prefix(buffer)|
    ensures |Prefix(buffer)| < |buffer|
    ensures i < |Prefix(buffer)| ==> buffer[i] != 0 && Prefix(buffer)[i] == buffer[i]
    ensures i == |Prefix(buffer)| ==> buffer[i] == 0
  {
    if buffer[0] != 0 {
      if i > 0 {
        PrefixAt(buffer[1..], i - 1);
      } else {
        PrefixAt(buffer[1..], 0);
      }
    }
  }

  /** What is left to write when the cursor stands at `i`. */
  ghost function Remaining(text: seq<nat>, i: nat, width: Width): seq<nat>
    requires i <= |text|
  {
    Encode(Scalars(text[i..], width))
  }

  lemma RemainingStep(text: seq<nat>, i: nat, width: Width)
    requires i < |text|
    ensures PairAt(text[i..], width) ==>
              && i + 2 <= |text|
              && IsScalar(JoinPair(text[i], text[i + 1]))
              && Remaining(text, i, width)
                 == EncodeScalar(JoinPair(text[i], text[i + 1])) + Remaining(text, i + 2, width)
    ensures !PairAt(text[i..], width) ==>
              Remaining(text, i, width) == EncodeScalar(Single(text[i])) + Remaining(text, i + 1, width)
  {
    hide EncodeScalar;
    var units := text[i..];
    var first, rest := Single(text[i]), text[i + 1..];
    assert units[1..] == text[i + 1..];
    if PairAt(units, width) {
      assert units[2..] == text[i + 2..];
      first, rest := JoinPair(text[i], text[i + 1]), text[i + 2..];
    }
    assert Scalars(units, width) == [first] + Scalars(rest, width);
    EncodeFirst(first, Scalars(rest, width));
  }

  lemma EncodeFirst(c: nat, text: seq<nat>)
    requires IsScalar(c) && AllScalars(text)
    ensures AllScalars([c] + text) && Encode([c] + text) == EncodeScalar(c) + Encode(text)
  {
    hide EncodeScalar;
    assert ([c] + text)[1..] == text;
  }

  /** The bytes are well-formed UTF-8 and decode to the text of the wide string. */
  method WideToUtf8(value: Option<seq<nat>>, width: Width) returns (output: seq<nat>)
    requires value.Some? ==> 0 in value.value && forall u | u in value.value :: Fits(width, u)
    ensures Decode(output) == Some(Scalars(Text(value), width))
    ensures output == Encode(Scalars(Text(value), width))
  {
    hide Scalars, Encode, EncodeScalar, Decode, Remaining, Prefix;
    ghost var text := Text(value);
    output := [];
    DecodeEncode(Scalars(text, width));
    AllRemains(text, width);
    if value.Some? {
      var buffer, i := value.value, 0;
      PrefixAt(buffer, 0);
      while buffer[i] != 0
        invariant i <= |text| < |buffer|
        invariant output + Remaining(text, i, width) == Encode(Scalars(text, width))
        decreases |text| - i
      {
        PrefixAt(buffer, i);
        RemainingStep(text, i, width);
        var c := buffer[i];
        if width == Wide16 && HighSurrogate(c) {
          PrefixAt(buffer, i + 1);
          var low := buffer[i + 1];
          if LowSurrogate(low) {
            output := AppendUtf8(output, JoinPair(c, low));
            i := i + 2;
          } else {
            output := output + [0xEF, 0xBF, 0xBD];
            ReplacementBytes();
            i := i + 1;
          }
        } else if width == Wide16 && LowSurrogate(c) {
          output := output + [0xEF, 0xBF, 0xBD];
          ReplacementBytes();
          i := i + 1;
        } else {
          output := AppendUtf8(output, c);
          i := i + 1;
        }
      }
      PrefixAt(buffer, i);
      assert i == |text| && output + [] == output;
    }
  }

  lemma ReplacementBytes()
    ensures EncodeScalar(REPLACEMENT) == [0xEF, 0xBF, 0xBD]
  {
  }

  lemma AllRemains(text: seq<nat>, width: Width)
    ensures Remaining(text, 0, width) == Encode(Scalars(text, width)) && Remaining(text, |text|, width) == []
  {
    assert text[0..] == text;
  }
}
