/** `getSubjectColor`: a string hash that picks one of eight colour classes
    for a subject name.

    The source's loop runs over `subject.charCodeAt(i)`, i.e. over UTF-16
    code units, and computes `hash = code + ((hash << 5) - hash)`. Only the
    shift is a 32-bit operation in JavaScript: `hash << 5` converts `hash`
    to a signed 32-bit integer, shifts, and converts the result back to a
    signed 32-bit integer. The subtraction and the addition are ordinary
    double arithmetic on integers, so `hash` itself is not kept to 32 bits;
    `HashFitsDouble` shows that it stays an exactly representable integer
    for any name shorter than 2^21 code units. */
module SubjectColor {

  const PALETTE: seq<string> := [
    "bg-blue-100 text-blue-800 border-blue-200",
    "bg-green-100 text-green-800 border-green-200",
    "bg-purple-100 text-purple-800 border-purple-200",
    "bg-orange-100 text-orange-800 border-orange-200",
    "bg-pink-100 text-pink-800 border-pink-200",
    "bg-indigo-100 text-indigo-800 border-indigo-200",
    "bg-yellow-100 text-yellow-800 border-yellow-200",
    "bg-red-100 text-red-800 border-red-200"
  ]

  const TWO_31: int := 0x8000_0000
  const TWO_32: int := 0x1_0000_0000
  /** Integers of at most this magnitude are exact as IEEE doubles. */
  const TWO_53: int := 0x20_0000_0000_0000

  function Abs(x: int): (r: nat)
    ensures r == x || r == -x
  {
    if x < 0 then -x else x
  }

  // ---------------------------------------------------------------------
  // JavaScript's ToInt32 and the shift operator.

  /** ECMAScript ToInt32 on an integer: the value congruent to `x` modulo
      2^32 in the signed 32-bit range. */
  function ToInt32(x: int): (r: int)
    ensures -TWO_31 <= r < TWO_31
    ensures (x - r) % TWO_32 == 0
  {
    var m := x % TWO_32;
    if m >= TWO_31 then m - TWO_32 else m
  }

  /** Two integers with the same residue modulo 2^32 have the same ToInt32. */
  lemma ToInt32Congruent(x: int, y: int)
    requires (x - y) % TWO_32 == 0
    ensures ToInt32(x) == ToInt32(y)
  {
    var rx, ry := ToInt32(x), ToInt32(y);
    var k1, k2, k3 := (x - rx) / TWO_32, (x - y) / TWO_32, (y - ry) / TWO_32;
    assert x - rx == TWO_32 * k1;
    assert x - y == TWO_32 * k2;
    assert y - ry == TWO_32 * k3;
    assert rx - ry == TWO_32 * (k2 + k3 - k1);
  }

  /** `h << 5` for an integral double `h`. */
  function ShiftLeft5(h: int): (r: int)
    ensures -TWO_31 <= r < TWO_31
    ensures (r - 32 * h) % TWO_32 == 0
  {
    var j := ToInt32(h);
    var r := ToInt32(j * 32);
    ShiftCongruent(h, j, r);
    r
  }

  /** Shifting the 32-bit image `j` of `h` is, modulo 2^32, multiplying `h`
      by 32. */
  lemma ShiftCongruent(h: int, j: int, r: int)
    requires (h - j) % TWO_32 == 0
    requires (j * 32 - r) % TWO_32 == 0
    ensures (r - 32 * h) % TWO_32 == 0
  {
    var k1, k2 := (h - j) / TWO_32, (j * 32 - r) / TWO_32;
    assert h - j == TWO_32 * k1;
    assert j * 32 - r == TWO_32 * k2;
    assert r - 32 * h == TWO_32 * (-k2 - 32 * k1);
  }

  // ---------------------------------------------------------------------
  // `charCodeAt`: the UTF-16 code units of a string.

  /** The UTF-16 code units of one Unicode scalar value. */
  function CodeUnits(c: char): (u: seq<int>)
  {
    var v := c as int;
    if v < 0x10000 then [v]
    else [0xD800 + (v - 0x10000) / 0x400, 0xDC00 + (v - 0x10000) % 0x400]
  }

  /** The string as JavaScript sees it: a sequence of UTF-16 code units,
      each in 0..0xFFFF, at least one per character. */
  function Utf16(s: string): (u: seq<int>)
    ensures |u| >= |s|
    ensures forall i :: 0 <= i < |u| ==> 0 <= u[i] < 0x10000
  {
    if |s| == 0 then [] else CodeUnits(s[0]) + Utf16(s[1..])
  }

  /** The scalar values of a string, the reference for `DecodeUtf16`. */
  function ScalarValues(s: string): seq<int>
  {
    if |s| == 0 then [] else [s[0] as int] + ScalarValues(s[1..])
  }

  /** Reads code units back into scalar values, pairing a high surrogate
      with the unit that follows it. */
  function DecodeUtf16(u: seq<int>): seq<int>
  {
    if |u| == 0 then []
    else if 0xD800 <= u[0] < 0xDC00 && |u| >= 2 then
      [(u[0] - 0xD800) * 0x400 + (u[1] - 0xDC00) + 0x10000] + DecodeUtf16(u[2..])
    else [u[0]] + DecodeUtf16(u[1..])
  }

  /** The encoding is the UTF-16 one: decoding it gives back every
      character. */
  lemma {:induction false} Utf16RoundTrip(s: string)
    ensures DecodeUtf16(Utf16(s)) == ScalarValues(s)
  {
    if |s| > 0 {
      var c := s[0] as int;
      var rest := Utf16(s[1..]);
      Utf16RoundTrip(s[1..]);
      assert Utf16(s) == CodeUnits(s[0]) + rest;
      if c < 0x10000 {
        assert !(0xD800 <= c < 0xE000);
        assert (CodeUnits(s[0]) + rest)[1..] == rest;
      } else {
        var q, r := (c - 0x10000) / 0x400, (c - 0x10000) % 0x400;
        assert c - 0x10000 == q * 0x400 + r;
        assert 0 <= q < 0x400;
        assert (CodeUnits(s[0]) + rest)[2..] == rest;
      }
    }
  }

  /** Every character of the Basic Multilingual Plane is one code unit, its
      own value. */
  lemma {:induction false} Utf16OfBmp(s: string)
    requires forall i :: 0 <= i < |s| ==> s[i] as int < 0x10000
    ensures |Utf16(s)| == |s|
    ensures forall i :: 0 <= i < |s| ==> Utf16(s)[i] == s[i] as int
  {
    if |s| > 0 {
      Utf16OfBmp(s[1..]);
      assert Utf16(s) == [s[0] as int] + Utf16(s[1..]);
    }
  }

  // ---------------------------------------------------------------------
  // The hash.

  /** One turn of the loop: `code + ((hash << 5) - hash)`. */
  function HashStep(h: int, code: int): int
  {
    code + (ShiftLeft5(h) - h)
  }

  /** The value of `hash` after the loop has read the code units `u`. */
  function Hash(u: seq<int>): int
  {
    if |u| == 0 then 0 else HashStep(Hash(u[..|u| - 1]), u[|u| - 1])
  }

  /** The textbook string hash `h = 31 * h + code` kept in 32 bits, as in
      Java's `String.hashCode`: the independent reference for `Hash`. */
  function WrappedHash(u: seq<int>): int
  {
    if |u| == 0 then 0 else ToInt32(31 * WrappedHash(u[..|u| - 1]) + u[|u| - 1])
  }

  /** The low 32 bits of the source's hash are those of the 32-bit string
      hash, although the source never wraps the hash itself. */
  lemma {:induction false} HashLow32(u: seq<int>)
    ensures ToInt32(Hash(u)) == WrappedHash(u)
  {
    if |u| > 0 {
      var p := u[..|u| - 1];
      var c := u[|u| - 1];
      var h := Hash(p);
      HashLow32(p);
      WrapStep(h, ShiftLeft5(h), c);
    }
  }

  /** One turn of the source's loop and one turn of the 32-bit hash agree
      modulo 2^32. */
  lemma WrapStep(h: int, s: int, c: int)
    requires (s - 32 * h) % TWO_32 == 0
    ensures ToInt32(c + (s - h)) == ToInt32(31 * ToInt32(h) + c)
  {
    var j := ToInt32(h);
    var k1, k2 := (s - 32 * h) / TWO_32, (h - j) / TWO_32;
    assert s - 32 * h == TWO_32 * k1;
    assert h - j == TWO_32 * k2;
    assert (c + (s - h)) - (31 * j + c) == TWO_32 * (k1 + 31 * k2);
    ToInt32Congruent(c + (s - h), 31 * j + c);
  }

  /** Each turn adds at most `2^31 + 0xFFFF` to the magnitude of `hash`. */
  lemma {:induction false} HashMagnitude(u: seq<int>)
    requires forall i :: 0 <= i < |u| ==> 0 <= u[i] < 0x10000
    ensures Abs(Hash(u)) <= |u| * (TWO_31 + 0x10000)
  {
    if |u| > 0 {
      var p := u[..|u| - 1];
      assert forall i :: 0 <= i < |p| ==> p[i] == u[i];
      HashMagnitude(p);
      assert |u| * (TWO_31 + 0x10000) == |p| * (TWO_31 + 0x10000) + (TWO_31 + 0x10000);
    }
  }

  /** For names shorter than 2^21 code units `hash` never leaves the range
      of integers that doubles hold exactly, so the unbounded integers here
      compute what the source computes. */
  lemma HashFitsDouble(s: string)
    requires |Utf16(s)| < 0x20_0000
    ensures Abs(Hash(Utf16(s))) < TWO_53
  {
    var u := Utf16(s);
    HashMagnitude(u);
    assert |u| * (TWO_31 + 0x10000) <= 0x20_0000 * (TWO_31 + 0x10000);
  }

  /** `getSubjectColor`: the loop over the code units, then
      `colors[Math.abs(hash) % colors.length]`. The colour is always one of
      the eight. */
  method SubjectColorOf(subject: string) returns (color: string)
    ensures color == PALETTE[Abs(Hash(Utf16(subject))) % |PALETTE|]
    ensures color in PALETTE
  {
    var units := Utf16(subject);
    var hash := 0;
    var i := 0;
    while i < |units|
      invariant 0 <= i <= |units|
      invariant hash == Hash(units[..i])
    {
      hash := units[i] + (ShiftLeft5(hash) - hash);
      assert units[..i + 1][..i] == units[..i];
      i := i + 1;
    }
    assert units[..|units|] == units;
    color := PALETTE[Abs(hash) % |PALETTE|];
  }

  /** The loop does not run for the empty name, so it gets the first
      colour. */
  lemma EmptySubjectColor()
    ensures Hash(Utf16("")) == 0 && PALETTE[Abs(Hash(Utf16(""))) % |PALETTE|] == PALETTE[0]
  {
  }
}
