/**
 * The conversion and shape-checking helpers of lib/utils.js.
 */
module Utils {
  import opened Js

  // ---------------------------------------------------------------------
  // convertToBuffer

  /** `/[0-9a-f]+/.test(s)`: some character is a lowercase hexadecimal digit. */
  predicate HasLowerHexDigit(s: string)
  {
    s != [] && (IsLowerHexDigit(s[0]) || HasLowerHexDigit(s[1..]))
  }

  /**
   * A Buffer is returned as it is; a string is lowercased and decoded when it
   * contains a hexadecimal digit somewhere; anything else gives null.
   */
  function ConvertToBuffer(data: Value): (r: Value)
    ensures r == Null || r.Buf?
    ensures IsBuffer(data) ==> r == data
    ensures !data.Buf? && !data.Str? ==> r == Null
  {
    if IsBuffer(data) then data
    else if data.Str? then
      var lower := AsciiLower(data.s);
      if HasLowerHexDigit(lower) then Buf(HexDecode(lower)) else Null
    else Null
  }

  lemma {:induction false} HasLowerHexDigitOfLower(s: string)
    ensures HasLowerHexDigit(AsciiLower(s)) <==> exists i :: 0 <= i < |s| && IsHexDigit(s[i])
    decreases |s|
  {
    if s != [] {
      HasLowerHexDigitOfLower(s[1..]);
      assert AsciiLower(s)[1..] == AsciiLower(s[1..]);
      if exists i :: 0 <= i < |s| && IsHexDigit(s[i]) {
        var i :| 0 <= i < |s| && IsHexDigit(s[i]);
        if i > 0 { assert IsHexDigit(s[1..][i - 1]); }
      }
      if exists i :: 0 <= i < |s| - 1 && IsHexDigit(s[1..][i]) {
        var i :| 0 <= i < |s| - 1 && IsHexDigit(s[1..][i]);
        assert IsHexDigit(s[i + 1]);
      }
    }
  }

  lemma {:induction false} HexDecodeOfLower(s: string)
    ensures HexDecode(AsciiLower(s)) == HexDecode(s)
    decreases |s|
  {
    if |s| >= 2 {
      assert AsciiLower(s)[2..] == AsciiLower(s[2..]);
      HexDecodeOfLower(s[2..]);
    }
  }

  /**
   * A string is accepted exactly when it holds a hexadecimal digit of either
   * case anywhere; it then decodes as `Buffer.from(s, 'hex')` does.
   */
  lemma ConvertToBufferOfString(s: string)
    ensures ConvertToBuffer(Str(s)) != Null <==> exists i :: 0 <= i < |s| && IsHexDigit(s[i])
    ensures ConvertToBuffer(Str(s)) != Null ==> ConvertToBuffer(Str(s)) == Buf(HexDecode(s))
  {
    HasLowerHexDigitOfLower(s);
    HexDecodeOfLower(s);
  }

  /** The hexadecimal text of a non-empty Buffer converts back to that Buffer. */
  lemma ConvertToBufferRoundTrip(b: seq<Byte>)
    requires b != []
    ensures ConvertToBuffer(Str(BytesToHex(b))) == Buf(b)
  {
    var s := BytesToHex(b);
    assert IsHexDigit(s[0]);
    ConvertToBufferOfString(s);
    HexDecodeOfBytesToHex(b);
  }

  // ---------------------------------------------------------------------
  // convertToHexString

  /**
   * The text `convertToHexString` builds before any byte reversal: the
   * digits of a non-negative integer, of a Buffer or the string itself,
   * left-padded with '0' to `2 * length` characters; null for any other kind.
   */
  function PaddedHexString(data: Value, length: int): (h: Value)
    ensures h == Null || h.Str?
  {
    if IsInteger(data) && data.n >= 0.0 then Str(PadStart(HexDigits(data.n.Floor), length * 2))
    else if IsBuffer(data) then Str(PadStart(BytesToHex(data.bytes), length * 2))
    else if data.Str? then Str(PadStart(data.s, length * 2))
    else Null
  }

  /** `h.match(/.{2}/g).reverse().join('')`; a TypeError when nothing matches. */
  function SwapPairs(h: string): Completion<string>
  {
    var pairs := MatchPairs(h);
    if pairs == [] then Thrown else Normal(Concat(Reverse(pairs)))
  }

  /** convertToHexString(data, length, reverseEndianness). */
  function ConvertToHexString(data: Value, length: int, reverseEndianness: Value): (r: Completion<Value>)
    ensures r.Normal? ==> r.value == Null || r.value.Str?
    ensures r.Thrown? ==> reverseEndianness == Bool(true)
  {
    var hexString := PaddedHexString(data, length);
    if Truthy(hexString) && reverseEndianness == Bool(true) then
      match SwapPairs(hexString.s)
      case Thrown => Thrown
      case Normal(t) => Normal(Str(t))
    else Normal(hexString)
  }

  /** With `reverseEndianness` anything but `true`, the padded text is returned as it is. */
  lemma NoReversalUnlessTrue(data: Value, length: int, reverseEndianness: Value)
    requires reverseEndianness != Bool(true)
    ensures ConvertToHexString(data, length, reverseEndianness) == Normal(PaddedHexString(data, length))
  {
  }

  /** With `reverseEndianness === true` a non-empty padded string has its pairs swapped. */
  lemma ReversalOfString(s: string, length: int)
    requires PadStart(s, length * 2) != []
    ensures ConvertToHexString(Str(s), length, Bool(true)) ==
      match SwapPairs(PadStart(s, length * 2))
      case Thrown => Thrown
      case Normal(t) => Normal(Str(t))
  {
    assert PaddedHexString(Str(s), length) == Str(PadStart(s, length * 2));
  }

  lemma {:induction false} PaddedDigitsAreLowerHex(k: nat, d: string)
    requires AllLowerHex(d)
    ensures AllLowerHex(Zeros(k) + d)
  {
    var h := Zeros(k) + d;
    forall i | 0 <= i < |h| ensures IsLowerHexDigit(h[i]) {
      if i >= k { assert h[i] == d[i - k]; }
    }
  }

  /**
   * A non-negative integer gives its lowercase hexadecimal digits, left-padded
   * with '0' to at least `2 * length` characters and never truncated; the
   * text still denotes the integer.
   */
  lemma HexStringOfNonNegativeInteger(n: nat, length: int, reverseEndianness: Value)
    requires reverseEndianness != Bool(true)
    ensures var r := ConvertToHexString(Num(n as real), length, reverseEndianness);
            var d := HexDigits(n);
            && r.Normal? && r.value.Str?
            && |r.value.s| == (if 2 * length <= |d| then |d| else 2 * length)
            && r.value.s == Zeros(|r.value.s| - |d|) + d
            && AllLowerHex(r.value.s) && HexValue(r.value.s) == n
  {
    var d := HexDigits(n);
    var x := Num(n as real);
    assert x.n.Floor == n;
    var h := PadStart(d, length * 2);
    assert PaddedHexString(x, length) == Str(h);
    NoReversalUnlessTrue(x, length, reverseEndianness);
    HexValueIgnoresLeadingZeros(|h| - |d|, d);
    PaddedDigitsAreLowerHex(|h| - |d|, d);
  }

  /** A negative or fractional number, NaN, and every kind other than a number, Buffer or string, give null. */
  lemma UnacceptedDataGivesNull(data: Value, length: int, reverseEndianness: Value)
    requires !(IsInteger(data) && data.n >= 0.0) && !data.Buf? && !data.Str?
    ensures ConvertToHexString(data, length, reverseEndianness) == Normal(Null)
  {
  }

  /**
   * A string is left-padded with '0' to at least `2 * length` characters and
   * otherwise returned as it is, whatever characters it holds.
   */
  lemma HexStringOfString(s: string, length: int, reverseEndianness: Value)
    requires reverseEndianness != Bool(true)
    ensures var r := ConvertToHexString(Str(s), length, reverseEndianness);
            && r.Normal? && r.value.Str?
            && |r.value.s| == (if 2 * length <= |s| then |s| else 2 * length)
            && r.value.s == Zeros(|r.value.s| - |s|) + s
  {
    NoReversalUnlessTrue(Str(s), length, reverseEndianness);
  }

  /**
   * Swapping the pairs of an even-length text without line terminators
   * reverses the order of its 2-character groups, and doing it twice gives
   * the text back.
   */
  lemma {:induction false} SwapPairsInvolution(h: string)
    requires NoLineTerminator(h) && |h| % 2 == 0 && |h| > 0
    ensures SwapPairs(h).Normal?
    ensures var t := SwapPairs(h).value;
            && |t| == |h| && NoLineTerminator(t)
            && MatchPairs(t) == Reverse(MatchPairs(h))
            && SwapPairs(t) == Normal(h)
  {
    var ps := MatchPairs(h);
    ConcatMatchPairs(h);
    assert h[..|h| - |h| % 2] == h;
    var rs := Reverse(ps);
    var t := Concat(rs);
    ConcatOfPairs(rs);
    MatchPairsOfConcat(rs);
    ReverseReverse(ps);
    assert |rs| > 0;
  }

  lemma {:induction false} PaddingKeepsNoLineTerminator(s: string, target: int)
    requires NoLineTerminator(s)
    ensures NoLineTerminator(PadStart(s, target))
  {
    var p := PadStart(s, target);
    var k := |p| - |s|;
    forall i | 0 <= i < |p| ensures !IsLineTerminator(p[i]) {
      if i >= k { assert p[i] == s[i - k]; } else { assert p[i] == '0'; }
    }
  }

  /**
   * With `reverseEndianness === true` a string's padded text comes back with
   * its 2-character groups in reverse order, and converting the result again
   * restores the padded text.
   */
  lemma ReversedHexString(s: string, length: int)
    requires NoLineTerminator(s)
    requires |PadStart(s, 2 * length)| % 2 == 0 && |PadStart(s, 2 * length)| > 0
    ensures var p := PadStart(s, 2 * length);
            var r := ConvertToHexString(Str(s), length, Bool(true));
            && r.Normal? && r.value.Str? && |r.value.s| == |p|
            && MatchPairs(r.value.s) == Reverse(MatchPairs(p))
            && ConvertToHexString(r.value, length, Bool(true)) == Normal(Str(p))
  {
    assert length * 2 == 2 * length;
    var p := PadStart(s, 2 * length);
    assert PaddedHexString(Str(s), length) == Str(p);
    PaddingKeepsNoLineTerminator(s, 2 * length);
    ReversalOfPaddedText(Str(s), length, p);
  }

  /**
   * With `reverseEndianness === true`, padded text of even, non-zero length
   * without line terminators comes back with its 2-character groups in
   * reverse order, and converting the result again restores the padded text.
   */
  lemma ReversalOfPaddedText(data: Value, length: int, p: string)
    requires PaddedHexString(data, length) == Str(p) && |p| >= 2 * length
    requires NoLineTerminator(p) && |p| % 2 == 0 && |p| > 0
    ensures var r := ConvertToHexString(data, length, Bool(true));
            && r.Normal? && r.value.Str? && |r.value.s| == |p|
            && MatchPairs(r.value.s) == Reverse(MatchPairs(p))
            && ConvertToHexString(r.value, length, Bool(true)) == Normal(Str(p))
  {
    SwapPairsInvolution(p);
    var t := SwapPairs(p).value;
    assert ConvertToHexString(data, length, Bool(true)) == Normal(Str(t));
    assert PadStart(t, length * 2) == t;
    ReversalOfString(t, length);
  }

  /**
   * With `reverseEndianness === true` a non-negative integer's padded digits
   * come back with their 2-character groups in reverse order, and converting
   * the result again restores the padded digits.
   */
  lemma ReversedHexStringOfInteger(n: nat, length: int)
    requires |PadStart(HexDigits(n), 2 * length)| % 2 == 0
    ensures var p := PadStart(HexDigits(n), 2 * length);
            var r := ConvertToHexString(Num(n as real), length, Bool(true));
            && r.Normal? && r.value.Str? && |r.value.s| == |p|
            && MatchPairs(r.value.s) == Reverse(MatchPairs(p))
            && ConvertToHexString(r.value, length, Bool(true)) == Normal(Str(p))
  {
    assert length * 2 == 2 * length;
    var d := HexDigits(n);
    var p := PadStart(d, 2 * length);
    assert Num(n as real).n.Floor == n;
    assert PaddedHexString(Num(n as real), length) == Str(p);
    HexHasNoLineTerminator(d);
    PaddingKeepsNoLineTerminator(d, 2 * length);
    ReversalOfPaddedText(Num(n as real), length, p);
  }

  /**
   * With `reverseEndianness === true` a Buffer's padded hexadecimal text
   * comes back with its bytes in reverse order, and converting the result
   * again restores the padded text.
   */
  lemma ReversedHexStringOfBuffer(b: seq<Byte>, length: int)
    requires |b| > 0 || length >= 1
    ensures var p := PadStart(BytesToHex(b), 2 * length);
            var r := ConvertToHexString(Buf(b), length, Bool(true));
            && r.Normal? && r.value.Str? && |r.value.s| == |p|
            && MatchPairs(r.value.s) == Reverse(MatchPairs(p))
            && ConvertToHexString(r.value, length, Bool(true)) == Normal(Str(p))
  {
    assert length * 2 == 2 * length;
    var h := BytesToHex(b);
    var p := PadStart(h, 2 * length);
    assert PaddedHexString(Buf(b), length) == Str(p);
    HexHasNoLineTerminator(h);
    PaddingKeepsNoLineTerminator(h, 2 * length);
    ReversalOfPaddedText(Buf(b), length, p);
  }

  lemma HexHasNoLineTerminator(s: string)
    requires AllHex(s)
    ensures NoLineTerminator(s)
  {
    forall i | 0 <= i < |s| ensures !IsLineTerminator(s[i]) {
      assert IsHexDigit(s[i]);
    }
  }

  lemma PairsOfLongText(h: string)
    requires |h| >= 2 && NoLineTerminator(h)
    ensures MatchPairs(h) != []
  {
    assert !IsLineTerminator(h[0]) && !IsLineTerminator(h[1]);
  }

  /**
   * With a length of at least one byte, `convertToHexString` can throw only
   * for a string holding line terminators: a number or a Buffer always gives
   * hexadecimal digits, and padding leaves at least one pair to match.
   */
  lemma ThrowsOnlyOnLineTerminators(data: Value, length: int, reverseEndianness: Value)
    requires length >= 1
    ensures ConvertToHexString(data, length, reverseEndianness).Thrown? ==> data.Str? && !NoLineTerminator(data.s)
  {
    if IsInteger(data) && data.n >= 0.0 {
      HexHasNoLineTerminator(HexDigits(data.n.Floor));
      PaddedTextHasPairs(HexDigits(data.n.Floor), length);
    } else if IsBuffer(data) {
      HexHasNoLineTerminator(BytesToHex(data.bytes));
      PaddedTextHasPairs(BytesToHex(data.bytes), length);
    } else if data.Str? && NoLineTerminator(data.s) {
      PaddedTextHasPairs(data.s, length);
    }
  }

  lemma PaddedTextHasPairs(digits: string, length: int)
    requires length >= 1 && NoLineTerminator(digits)
    ensures SwapPairs(PadStart(digits, length * 2)).Normal?
  {
    PaddingKeepsNoLineTerminator(digits, length * 2);
    PairsOfLongText(PadStart(digits, length * 2));
  }

  /** The serial-number example: '78563412' with length 4, reversed, is '12345678'. */
  lemma SerialNumberExample()
    ensures ConvertToHexString(Str("78563412"), 4, Bool(true)) == Normal(Str("12345678"))
  {
    var h := "78563412";
    assert PadStart(h, 4 * 2) == h;
    ReversalOfString(h, 4);
    SerialNumberPairs();
    SerialNumberSwap();
  }

  lemma SerialNumberPairs()
    ensures MatchPairs("78563412") == ["78", "56", "34", "12"]
  {
    MatchPairsStep('1', '2', "");
    assert "12" == ['1', '2'] + "";
    MatchPairsStep('3', '4', "12");
    assert "3412" == ['3', '4'] + "12";
    MatchPairsStep('5', '6', "3412");
    assert "563412" == ['5', '6'] + "3412";
    MatchPairsStep('7', '8', "563412");
    assert "78563412" == ['7', '8'] + "563412";
  }

  lemma SerialNumberSwap()
    ensures Concat(Reverse(["78", "56", "34", "12"])) == "12345678"
  {
    var ps := ["78", "56", "34", "12"];
    var r := Reverse(ps);
    assert r == ["12", "34", "56", "78"] by {
      assert r[0] == "12" && r[1] == "34" && r[2] == "56" && r[3] == "78";
    }
    assert Concat(["78"]) == "78";
    assert Concat(["56", "78"]) == "5678";
    assert Concat(["34", "56", "78"]) == "345678";
  }

  // ---------------------------------------------------------------------
  // Shape checks

  /** isProtocolSpecificData(data). */
  predicate IsProtocolSpecificData(data: Value)
  {
    data != Null && TypeOf(data) == "object" && !IsBuffer(data)
  }

  /** isGattCharacteristicFormat(data). */
  predicate IsGattCharacteristicFormat(data: Value)
  {
    && data != Null && TypeOf(data) == "object"
    && TypeOf(Get(data, "serviceUuid")) == "string"
    && TypeOf(Get(data, "characteristicUuid")) == "string"
  }

  /** Protocol-specific data is exactly a plain object or an array. */
  lemma ProtocolSpecificDataShape(data: Value)
    ensures IsProtocolSpecificData(data) <==> data.Obj? || data.Arr?
  {
  }

  /** The GATT characteristic format is exactly an object whose two UUID properties are strings. */
  lemma GattCharacteristicFormatShape(data: Value)
    ensures IsGattCharacteristicFormat(data) <==>
      && data.Obj?
      && "serviceUuid" in data.props && data.props["serviceUuid"].Str?
      && "characteristicUuid" in data.props && data.props["characteristicUuid"].Str?
    ensures IsGattCharacteristicFormat(data) ==> IsProtocolSpecificData(data)
  {
  }
}
