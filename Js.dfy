/**
 * The JavaScript values the GATT decoder handles, and the behaviour of the
 * built-ins it relies on: `typeof`, truthiness, property reads,
 * `parseInt(_, 16)`, `Buffer.from(_, 'hex')`, `readInt16LE`/`readUInt16LE`,
 * `Number.prototype.toString(16)`, `String.prototype.padStart` and the
 * global regular-expression match `/.{2}/g`.
 */
module Js {

  type Byte = x: int | 0 <= x < 256

  /** A JavaScript value. Numbers are exact reals, NaN is its own case. */
  datatype Value =
    | Undefined
    | Null
    | Bool(b: bool)
    | Num(n: real)
    | NotANumber
    | Str(s: string)
    | Buf(bytes: seq<Byte>)
    | Arr(elems: seq<Value>)
    | Obj(props: map<string, Value>)

  /** The own properties of a plain object. */
  type Record = map<string, Value>

  /** How a call ends: with a value, or by throwing. */
  datatype Completion<+T> = Normal(value: T) | Thrown

  // ---------------------------------------------------------------------
  // Operators and property access

  /** The `typeof` operator. */
  function TypeOf(v: Value): string
  {
    match v
    case Undefined => "undefined"
    case Null => "object"
    case Bool(_) => "boolean"
    case Num(_) => "number"
    case NotANumber => "number"
    case Str(_) => "string"
    case Buf(_) => "object"
    case Arr(_) => "object"
    case Obj(_) => "object"
  }

  /** `Buffer.isBuffer`. */
  predicate IsBuffer(v: Value)
  {
    v.Buf?
  }

  /** `Number.isInteger`. */
  predicate IsInteger(v: Value)
  {
    v.Num? && v.n == v.n.Floor as real
  }

  /** Reading the named property `v.key`: an object's own property, else undefined. */
  function Get(v: Value, key: string): Value
  {
    if v.Obj? && key in v.props then v.props[key] else Undefined
  }

  /** What `if (v)` tests. */
  predicate Truthy(v: Value)
  {
    match v
    case Undefined => false
    case Null => false
    case Bool(b) => b
    case Num(n) => n != 0.0
    case NotANumber => false
    case Str(s) => s != ""
    case Buf(_) => true
    case Arr(_) => true
    case Obj(_) => true
  }

  /** Array element access `table[i]` with a numeric index. */
  function Index(table: seq<Value>, i: Value): Value
  {
    if IsInteger(i) && 0 <= i.n.Floor < |table| then table[i.n.Floor] else Undefined
  }

  // ---------------------------------------------------------------------
  // Characters

  predicate IsHexDigit(c: char)
  {
    ('0' <= c <= '9') || ('a' <= c <= 'f') || ('A' <= c <= 'F')
  }

  predicate IsLowerHexDigit(c: char)
  {
    ('0' <= c <= '9') || ('a' <= c <= 'f')
  }

  predicate AllHex(s: string)
  {
    forall i :: 0 <= i < |s| ==> IsHexDigit(s[i])
  }

  predicate AllLowerHex(s: string)
  {
    forall i :: 0 <= i < |s| ==> IsLowerHexDigit(s[i])
  }

  function HexDigitValue(c: char): (d: nat)
    requires IsHexDigit(c)
    ensures d < 16
  {
    if '0' <= c <= '9' then c as int - '0' as int
    else if 'a' <= c <= 'f' then c as int - 'a' as int + 10
    else c as int - 'A' as int + 10
  }

  /** The lowercase hexadecimal digit for `d`. */
  function HexChar(d: nat): (c: char)
    requires d < 16
    ensures IsLowerHexDigit(c) && IsHexDigit(c) && HexDigitValue(c) == d
  {
    if d < 10 then ('0' as int + d) as char else ('a' as int + d - 10) as char
  }

  /** The line terminators, which `.` in a regular expression does not match. */
  predicate IsLineTerminator(c: char)
  {
    c == '\n' || c == '\r' || c == '\U{2028}' || c == '\U{2029}'
  }

  /** The white space and line terminators that `parseInt` skips. */
  predicate IsStrWhiteSpace(c: char)
  {
    c == '\t' || c == '\n' || c == '\U{B}' || c == '\U{C}' || c == '\r' || c == ' '
    || c == '\U{A0}' || c == '\U{1680}' || ('\U{2000}' <= c <= '\U{200A}')
    || c == '\U{2028}' || c == '\U{2029}' || c == '\U{202F}' || c == '\U{205F}'
    || c == '\U{3000}' || c == '\U{FEFF}'
  }

  function AsciiLowerChar(c: char): char
  {
    if 'A' <= c <= 'Z' then (c as int + 32) as char else c
  }

  /** `String.prototype.toLowerCase` on the ASCII letters. */
  function AsciiLower(s: string): (t: string)
    ensures |t| == |s| && forall i :: 0 <= i < |s| ==> t[i] == AsciiLowerChar(s[i])
  {
    seq(|s|, i requires 0 <= i < |s| => AsciiLowerChar(s[i]))
  }

  // ---------------------------------------------------------------------
  // Hexadecimal numerals

  /** The value of a numeral of hexadecimal digits, most significant first. */
  function HexValue(s: string): nat
    requires AllHex(s)
  {
    if s == [] then 0 else HexValue(s[..|s| - 1]) * 16 + HexDigitValue(s[|s| - 1])
  }

  /** `n.toString(16)` for a non-negative integer `n`. */
  function HexDigits(n: nat): (s: string)
    ensures |s| > 0 && AllLowerHex(s) && AllHex(s)
    ensures HexValue(s) == n
    ensures n > 0 ==> s[0] != '0'
    decreases n
  {
    if n < 16 then [HexChar(n)]
    else
      var high := HexDigits(n / 16);
      var s := high + [HexChar(n % 16)];
      assert s[..|s| - 1] == high;
      s
  }

  /** The decimal digits of `n`, without leading zeros. */
  function DecimalDigits(n: nat): (s: string)
    ensures |s| > 0 && forall i :: 0 <= i < |s| ==> '0' <= s[i] <= '9'
    decreases n
  {
    if n < 10 then [('0' as int + n) as char]
    else DecimalDigits(n / 10) + [('0' as int + n % 10) as char]
  }

  function Zeros(k: nat): (z: string)
    ensures |z| == k && forall i :: 0 <= i < k ==> z[i] == '0'
  {
    seq(k, _ => '0')
  }

  /** `s.padStart(target, '0')`. */
  function PadStart(s: string, target: int): (p: string)
    ensures |p| == if target <= |s| then |s| else target
    ensures p == Zeros(|p| - |s|) + s
  {
    if target <= |s| then (assert s == Zeros(0) + s; s) else Zeros(target - |s|) + s
  }

  lemma {:induction false} HexValueOfZeros(k: nat)
    ensures AllHex(Zeros(k)) && HexValue(Zeros(k)) == 0
  {
    if k > 0 {
      assert Zeros(k)[..k - 1] == Zeros(k - 1);
      HexValueOfZeros(k - 1);
    }
  }

  /** Leading zeros do not change the value of a numeral. */
  lemma {:induction false} HexValueIgnoresLeadingZeros(k: nat, s: string)
    requires AllHex(s)
    ensures AllHex(Zeros(k) + s) && HexValue(Zeros(k) + s) == HexValue(s)
    decreases |s|
  {
    var t := Zeros(k) + s;
    if s == [] {
      assert t == Zeros(k);
      HexValueOfZeros(k);
    } else {
      var init := s[..|s| - 1];
      assert t[..|t| - 1] == Zeros(k) + init;
      HexValueIgnoresLeadingZeros(k, init);
    }
  }

  // ---------------------------------------------------------------------
  // Conversion to text and parseInt

  /**
   * The text of a number as far as `parseInt` reads it: its sign and the
   * digits of its integer part, then a "." when it has a fractional part.
   * This is JavaScript's text only for numbers it writes without an
   * exponent (zero, or a magnitude from 1e-6 up to 1e21).
   */
  function NumberText(n: real): string
  {
    var magnitude := if n < 0.0 then -n else n;
    var whole := magnitude.Floor;
    (if n < 0.0 then "-" else "") + DecimalDigits(whole)
      + (if whole as real == magnitude then "" else ".")
  }

  /**
   * The text of a Buffer up to its first byte above 0x7f, which is modelled
   * as one U+FFFD that ends the text. Node decodes UTF-8 there, which this
   * model does not: the two agree wherever `parseInt` stops at that byte.
   */
  function AsciiText(bytes: seq<Byte>): string
  {
    if bytes == [] then ""
    else if bytes[0] < 128 then [bytes[0] as char] + AsciiText(bytes[1..])
    else "\U{FFFD}"
  }

  /** `String(v)`. */
  function ToJsString(v: Value): string
    decreases v, 1
  {
    match v
    case Undefined => "undefined"
    case Null => "null"
    case Bool(b) => if b then "true" else "false"
    case Num(n) => NumberText(n)
    case NotANumber => "NaN"
    case Str(s) => s
    case Buf(bytes) => AsciiText(bytes)
    case Arr(elems) => JoinElements(elems)
    case Obj(_) => "[object Object]"
  }

  /** `elems.join(',')`: undefined and null elements contribute nothing. */
  function JoinElements(elems: seq<Value>): string
    decreases elems, 0
  {
    if |elems| == 0 then ""
    else
      (if elems[0].Undefined? || elems[0].Null? then "" else ToJsString(elems[0]))
      + (if |elems| == 1 then "" else "," + JoinElements(elems[1..]))
  }

  function TrimStart(s: string): (t: string)
    ensures |t| <= |s| && t == s[|s| - |t|..]
    ensures t != [] ==> !IsStrWhiteSpace(t[0])
    ensures s != [] && !IsStrWhiteSpace(s[0]) ==> t == s
  {
    if s != [] && IsStrWhiteSpace(s[0]) then TrimStart(s[1..]) else s
  }

  /** The longest prefix of hexadecimal digits. */
  function HexPrefix(s: string): (z: string)
    ensures AllHex(z) && z <= s
    ensures |z| < |s| ==> !IsHexDigit(s[|z|])
  {
    if s != [] && IsHexDigit(s[0]) then [s[0]] + HexPrefix(s[1..]) else []
  }

  /** The text after an optional leading sign. */
  function Unsigned(t: string): (u: string)
    ensures t != [] && t[0] != '-' && t[0] != '+' ==> u == t
  {
    if t != [] && (t[0] == '-' || t[0] == '+') then t[1..] else t
  }

  /** The text after an optional "0x" or "0X". */
  function WithoutHexPrefix(u: string): (w: string)
    ensures !(|u| >= 2 && u[0] == '0' && (u[1] == 'x' || u[1] == 'X')) ==> w == u
  {
    if |u| >= 2 && u[0] == '0' && (u[1] == 'x' || u[1] == 'X') then u[2..] else u
  }

  /** The signed value of the leading digits of `w`; NaN when there are none. */
  function LeadingNumeral(w: string, negative: bool): (r: Value)
    ensures r == NotANumber || IsInteger(r)
    ensures HexPrefix(w) != [] && !negative ==> r == Num(HexValue(HexPrefix(w)) as real)
  {
    var z := HexPrefix(w);
    if z == [] then NotANumber
    else
      var m: int := HexValue(z);
      Num((if negative then -m else m) as real)
  }

  /**
   * `parseInt(text, 16)`: skip leading white space, read an optional sign and
   * an optional "0x"/"0X", then the longest run of hexadecimal digits; NaN
   * when there is none.
   */
  function ParseIntHex(text: string): (r: Value)
    ensures r == NotANumber || IsInteger(r)
  {
    var t := TrimStart(text);
    LeadingNumeral(WithoutHexPrefix(Unsigned(t)), t != [] && t[0] == '-')
  }

  /** `parseInt(v, 16)`: the argument is first converted to a string. */
  function ParseIntValue(v: Value): (r: Value)
    ensures r == NotANumber || IsInteger(r)
  {
    ParseIntHex(ToJsString(v))
  }

  lemma {:induction false} HexPrefixOfDigits(z: string, rest: string)
    requires AllHex(z)
    requires rest == [] || !IsHexDigit(rest[0])
    ensures HexPrefix(z + rest) == z
    decreases |z|
  {
    if z == [] {
      assert z + rest == rest;
    } else {
      assert (z + rest)[1..] == z[1..] + rest;
      HexPrefixOfDigits(z[1..], rest);
    }
  }

  /** A text that starts with a hexadecimal digit and no "0x" is read from its first character. */
  lemma ParseIntOfUnprefixed(s: string)
    requires s != [] && IsHexDigit(s[0])
    requires |s| >= 2 && s[0] == '0' ==> s[1] != 'x' && s[1] != 'X'
    ensures ParseIntHex(s) == Num(HexValue(HexPrefix(s)) as real)
  {
    assert !IsStrWhiteSpace(s[0]);
    assert TrimStart(s) == s;
    assert Unsigned(s) == s;
    assert WithoutHexPrefix(s) == s;
    assert HexPrefix(s) != [];
  }

  /** `parseInt` reads a numeral of hexadecimal digits up to the first character that is not one. */
  lemma ParseIntReadsLeadingDigits(z: string, rest: string)
    requires z != [] && AllHex(z)
    requires rest == [] || !IsHexDigit(rest[0])
    requires z == "0" && rest != [] ==> rest[0] != 'x' && rest[0] != 'X'
    ensures ParseIntHex(z + rest) == Num(HexValue(z) as real)
  {
    var s := z + rest;
    assert s[0] == z[0];
    if |s| >= 2 && s[0] == '0' {
      if |z| == 1 {
        assert z == "0" && s[1] == rest[0];
      } else {
        assert s[1] == z[1];
      }
    }
    ParseIntOfUnprefixed(s);
    HexPrefixOfDigits(z, rest);
  }

  lemma ParseIntOfDigits(z: string)
    requires z != [] && AllHex(z)
    ensures ParseIntHex(z) == Num(HexValue(z) as real)
    ensures ParseIntValue(Str(z)) == Num(HexValue(z) as real)
  {
    assert z + [] == z;
    ParseIntReadsLeadingDigits(z, []);
  }

  // ---------------------------------------------------------------------
  // Buffers

  /** `Buffer.from(s, 'hex')`: pairs of hexadecimal digits, up to the first pair that is not one. */
  function HexDecode(s: string): (b: seq<Byte>)
    ensures |b| <= |s| / 2
    ensures AllHex(s) ==> |b| == |s| / 2
  {
    if |s| >= 2 && IsHexDigit(s[0]) && IsHexDigit(s[1]) then
      [HexDigitValue(s[0]) * 16 + HexDigitValue(s[1])] + HexDecode(s[2..])
    else []
  }

  /** `buffer.toString('hex')`. */
  function BytesToHex(b: seq<Byte>): (s: string)
    ensures |s| == 2 * |b| && AllLowerHex(s) && AllHex(s)
  {
    if b == [] then "" else [HexChar(b[0] / 16), HexChar(b[0] % 16)] + BytesToHex(b[1..])
  }

  /** Decoding the hexadecimal text of a buffer gives the buffer back. */
  lemma {:induction false} HexDecodeOfBytesToHex(b: seq<Byte>)
    ensures HexDecode(BytesToHex(b)) == b
  {
    if b != [] {
      var s := BytesToHex(b);
      assert s[2..] == BytesToHex(b[1..]);
      HexDecodeOfBytesToHex(b[1..]);
    }
  }

  /**
   * `Buffer.from(v, 'hex')` for a string or a Buffer: a string is decoded and
   * a Buffer copied. Every other kind is modelled as a TypeError, which is
   * what Node raises for undefined, null, booleans, numbers and plain objects
   * that have no `length` and are not of the form `{type: 'Buffer', data:
   * <array>}`. Node copies arrays and array-like objects element by element,
   * and copies the `data` array of a `{type: 'Buffer', data: <array>}`
   * object (what `JSON.stringify` makes of a Buffer); neither is modelled.
   */
  function BufferFrom(v: Value): (r: Completion<seq<Byte>>)
    ensures r.Thrown? <==> !(v.Str? || v.Buf?)
  {
    match v
    case Str(s) => Normal(HexDecode(s))
    case Buf(b) => Normal(b)
    case _ => Thrown
  }

  /** `buffer.readUInt16LE()`: a RangeError on fewer than two bytes. */
  function ReadUInt16LE(b: seq<Byte>): (r: Completion<int>)
    ensures r.Thrown? <==> |b| < 2
    ensures r.Normal? ==> 0 <= r.value < 65536
  {
    if |b| < 2 then Thrown else Normal(b[0] as int + 256 * (b[1] as int))
  }

  /** `buffer.readInt16LE()`: the two's-complement reading of the same 16 bits. */
  function ReadInt16LE(b: seq<Byte>): (r: Completion<int>)
    ensures r.Thrown? <==> |b| < 2
    ensures r.Normal? ==> -32768 <= r.value < 32768
    ensures r.Normal? ==> r.value % 65536 == ReadUInt16LE(b).value
  {
    match ReadUInt16LE(b)
    case Thrown => Thrown
    case Normal(u) => Normal(if u >= 32768 then u - 65536 else u)
  }

  /** The two bytes that `writeInt16LE`/`writeUInt16LE` store for `k`. */
  function Int16LEBytes(k: int): (b: seq<Byte>)
    requires -32768 <= k < 65536
    ensures |b| == 2
  {
    var u := if k < 0 then k + 65536 else k;
    [u % 256, u / 256]
  }

  /** Reading back the bytes written for a 16-bit value gives that value. */
  lemma Int16LERoundTrip(k: int)
    requires -32768 <= k < 65536
    ensures k < 32768 ==> ReadInt16LE(Int16LEBytes(k)) == Normal(k)
    ensures 0 <= k ==> ReadUInt16LE(Int16LEBytes(k)) == Normal(k)
  {
  }

  // ---------------------------------------------------------------------
  // Sequences of strings

  /**
   * `s.match(/.{2}/g)`: the successive non-overlapping pairs of characters
   * that are not line terminators, in order.
   */
  function MatchPairs(s: string): (ps: seq<string>)
    ensures forall i :: 0 <= i < |ps| ==> |ps[i]| == 2 && NoLineTerminator(ps[i])
    decreases |s|
  {
    if |s| < 2 then []
    else if !IsLineTerminator(s[0]) && !IsLineTerminator(s[1]) then [s[..2]] + MatchPairs(s[2..])
    else MatchPairs(s[1..])
  }

  lemma MatchPairsStep(a: char, b: char, rest: string)
    requires !IsLineTerminator(a) && !IsLineTerminator(b)
    ensures MatchPairs([a, b] + rest) == [[a, b]] + MatchPairs(rest)
  {
    var s := [a, b] + rest;
    assert s[..2] == [a, b] && s[2..] == rest;
  }

  /** `ps.join('')`. */
  function Concat(ps: seq<string>): string
  {
    if ps == [] then "" else ps[0] + Concat(ps[1..])
  }

  function Reverse<T>(xs: seq<T>): (r: seq<T>)
    ensures |r| == |xs| && forall i :: 0 <= i < |xs| ==> r[i] == xs[|xs| - 1 - i]
  {
    if xs == [] then [] else Reverse(xs[1..]) + [xs[0]]
  }

  predicate NoLineTerminator(s: string)
  {
    forall i :: 0 <= i < |s| ==> !IsLineTerminator(s[i])
  }

  /** Of a string without line terminators, the regular expression takes every pair, dropping an odd last character. */
  lemma {:induction false} ConcatMatchPairs(s: string)
    requires NoLineTerminator(s)
    ensures Concat(MatchPairs(s)) == s[..|s| - |s| % 2]
    ensures |MatchPairs(s)| == |s| / 2
    decreases |s|
  {
    if |s| >= 2 {
      ConcatMatchPairs(s[2..]);
      assert s[..2] + s[2..][..|s| - 2 - |s| % 2] == s[..|s| - |s| % 2];
    }
  }

  /** Joining pairs and matching them again gives the same pairs. */
  lemma {:induction false} MatchPairsOfConcat(ps: seq<string>)
    requires forall i :: 0 <= i < |ps| ==> |ps[i]| == 2 && NoLineTerminator(ps[i])
    ensures MatchPairs(Concat(ps)) == ps
    decreases |ps|
  {
    if ps != [] {
      var s := Concat(ps);
      assert s == ps[0] + Concat(ps[1..]);
      assert s[..2] == ps[0] && s[2..] == Concat(ps[1..]);
      MatchPairsOfConcat(ps[1..]);
    }
  }

  /** Pairs without line terminators join into a string without them, twice as long. */
  lemma {:induction false} ConcatOfPairs(ps: seq<string>)
    requires forall i :: 0 <= i < |ps| ==> |ps[i]| == 2 && NoLineTerminator(ps[i])
    ensures |Concat(ps)| == 2 * |ps| && NoLineTerminator(Concat(ps))
    decreases |ps|
  {
    if ps != [] {
      ConcatOfPairs(ps[1..]);
      var s := Concat(ps);
      assert s == ps[0] + Concat(ps[1..]);
      forall i | 0 <= i < |s| ensures !IsLineTerminator(s[i]) {
        if i < 2 { assert s[i] == ps[0][i]; } else { assert s[i] == Concat(ps[1..])[i - 2]; }
      }
    }
  }

  lemma {:induction false} ReverseReverse<T>(xs: seq<T>)
    ensures Reverse(Reverse(xs)) == xs
  {
  }
}
