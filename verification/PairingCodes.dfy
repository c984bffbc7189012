/** Pairing codes (crypto.rs): secrets in base 36 at a fixed width, and `number-secret` codes.  Text is UTF-8 bytes. */
module PairingCodes {
  import opened Prelude

  datatype PairingCode = PairingCode(number: Int32, secret: Bytes)

  datatype SecretError = InvalidLength | InvalidCharacter | OutOfRange

  datatype CodeError = InvalidFormat | InvalidNodeNumber | InvalidSecret(cause: SecretError)

  datatype TtlProfile = Interactive | Asynchronous

  function SecretLen(p: TtlProfile): nat {
    if p == Interactive then 7 else 9
  }

  function Base36Len(p: TtlProfile): nat {
    if p == Interactive then 11 else 14
  }

  function FromSecretLen(n: nat): Option<TtlProfile> {
    if n == 7 then Some(Interactive) else if n == 9 then Some(Asynchronous) else None
  }

  function FromBase36Len(n: nat): Option<TtlProfile> {
    if n == 11 then Some(Interactive) else if n == 14 then Some(Asynchronous) else None
  }

  //-- Positional notation -------------------------------------------------------------------------

  function Pow(base: nat, n: nat): nat {
    if n == 0 then 1 else base * Pow(base, n - 1)
  }

  /** Most significant digit first. */
  function Value(ds: seq<nat>, base: nat): nat {
    if ds == [] then 0 else Value(ds[..|ds| - 1], base) * base + ds[|ds| - 1]
  }

  ghost predicate Digital(ds: seq<nat>, base: nat) {
    forall i | 0 <= i < |ds| :: ds[i] < base
  }

  /** The shortest notation of `n`, with no digits for zero. */
  function Digits(n: nat, base: nat): (ds: seq<nat>)
    requires base > 1
    ensures Digital(ds, base)
  {
    if n == 0 then [] else DivModOf(n, base); Digits(n / base, base) + [n % base]
  }

  lemma DivModOf(n: nat, base: nat)
    requires base > 1
    ensures n == (n / base) * base + n % base && 0 <= n % base < base
    ensures n > 0 ==> n / base < n
  {
    if n > 0 && n / base >= n {
      MulMono(n, n / base, base);
      MulMono(2, base, n);
    }
  }

  /** As libraries print it: zero is one digit. */
  function Shortest(n: nat, base: nat): (ds: seq<nat>)
    requires base > 1
    ensures Digital(ds, base) && |ds| > 0
  {
    if n == 0 then [0] else Digits(n, base)
  }

  function Zeros(k: nat): (ds: seq<nat>)
    ensures |ds| == k && forall i | 0 <= i < k :: ds[i] == 0
  {
    if k == 0 then [] else Zeros(k - 1) + [0]
  }

  function Pad(ds: seq<nat>, width: nat): (r: seq<nat>)
    ensures |r| == if |ds| < width then width else |ds|
  {
    if |ds| < width then Zeros(width - |ds|) + ds else ds
  }

  lemma {:induction false} ValueBound(ds: seq<nat>, base: nat)
    requires base > 1 && Digital(ds, base)
    ensures Value(ds, base) < Pow(base, |ds|)
  {
    if ds != [] {
      var front, last := ds[..|ds| - 1], ds[|ds| - 1];
      ValueBound(front, base);
      calc {
        Value(ds, base);
      <  Value(front, base) * base + base;
      == (Value(front, base) + 1) * base;
      <= { MulMono(Value(front, base) + 1, Pow(base, |front|), base); }
         Pow(base, |front|) * base;
      }
    }
  }

  lemma {:induction false} DigitsValue(n: nat, base: nat)
    requires base > 1
    ensures Value(Digits(n, base), base) == n
  {
    if n > 0 {
      DivModOf(n, base);
      DigitsValue(n / base, base);
      assert Digits(n, base)[..|Digits(n, base)| - 1] == Digits(n / base, base);
    }
  }

  lemma {:induction false} DigitsShort(n: nat, base: nat, width: nat)
    requires base > 1 && n < Pow(base, width)
    ensures |Digits(n, base)| <= width
  {
    if n > 0 && width > 0 {
      DivModOf(n, base);
      DivBound(n, base, Pow(base, width - 1));
      DigitsShort(n / base, base, width - 1);
    }
  }

  lemma DivBound(n: nat, base: nat, p: nat)
    requires base > 1 && n < base * p
    ensures n / base < p
  {
    DivModOf(n, base);
    if n / base >= p {
      MulMono(p, n / base, base);
    }
  }

  /** The shortest notation is longer than `width` digits exactly when the number does not fit in `width` digits. */
  lemma DigitsLong(n: nat, base: nat, width: nat)
    requires base > 1
    ensures |Digits(n, base)| <= width <==> n < Pow(base, width)
  {
    if n < Pow(base, width) {
      DigitsShort(n, base, width);
    } else if |Digits(n, base)| <= width {
      DigitsValue(n, base);
      ValueBound(Digits(n, base), base);
      PowMono(base, |Digits(n, base)|, width);
    }
  }

  lemma {:induction false} PowMono(base: nat, a: nat, b: nat)
    requires base > 1 && a <= b
    ensures Pow(base, a) <= Pow(base, b)
  {
    if a < b {
      PowMono(base, a, b - 1);
    }
  }

  lemma {:induction false} PadValue(ds: seq<nat>, k: nat, base: nat)
    ensures Value(Zeros(k) + ds, base) == Value(ds, base)
  {
    if ds == [] {
      if k > 0 {
        assert (Zeros(k) + ds)[..k - 1] == Zeros(k - 1) + [];
        PadValue([], k - 1, base);
      }
    } else {
      PadValue(ds[..|ds| - 1], k, base);
      assert (Zeros(k) + ds)[..k + |ds| - 1] == Zeros(k) + ds[..|ds| - 1];
    }
  }

  /** At equal width, notations of the same number are the same. */
  lemma {:induction false} SameWidthSameDigits(a: seq<nat>, b: seq<nat>, base: nat)
    requires base > 1 && |a| == |b| && Digital(a, base) && Digital(b, base)
    requires Value(a, base) == Value(b, base)
    ensures a == b
  {
    if a != [] {
      var n := |a| - 1;
      DivModUnique(Value(a[..n], base), a[n], Value(b[..n], base), b[n], base);
      SameWidthSameDigits(a[..n], b[..n], base);
      assert a == a[..n] + [a[n]] && b == b[..n] + [b[n]];
    }
  }

  lemma DivModUnique(q: nat, r: nat, q': nat, r': nat, base: nat)
    requires r < base && r' < base && q * base + r == q' * base + r'
    ensures q == q' && r == r'
  {
    if q < q' {
      MulMono(q + 1, q', base);
    } else if q' < q {
      MulMono(q' + 1, q, base);
    }
  }

  //-- Base 36 text --------------------------------------------------------------------------------

  /** 0-9, then a-z. */
  function DigitChar(d: nat): Byte
    requires d < 36
  {
    if d < 10 then 48 + d else 87 + d
  }

  function DigitOf(c: Byte): Option<nat> {
    if 48 <= c <= 57 then Some(c - 48)
    else if 97 <= c <= 122 then Some(c - 87)
    else if 65 <= c <= 90 then Some(c - 55)
    else None
  }

  function Lowercase(s: Bytes): Bytes {
    seq(|s|, i requires 0 <= i < |s| => if 65 <= s[i] <= 90 then s[i] + 32 else s[i])
  }

  function Text(ds: seq<nat>): (s: Bytes)
    requires Digital(ds, 36)
    ensures |s| == |ds|
  {
    seq(|ds|, i requires 0 <= i < |ds| => DigitChar(ds[i]))
  }

  predicate IsBase36(s: Bytes) {
    forall c | c in s :: DigitOf(c).Some?
  }

  const PLUS: Byte := 43
  const MINUS: Byte := 45
  const UNDERSCORE: Byte := 95

  /** The digits of a number, with underscores skipped; None on any other character. */
  function ReadDigits(s: Bytes): (r: Option<seq<nat>>)
    ensures r.Some? ==> Digital(r.value, 36) && |r.value| <= |s|
  {
    if s == [] then Some([])
    else
      var last := s[|s| - 1];
      match ReadDigits(s[..|s| - 1])
      case None => None
      case Some(ds) =>
        if last == UNDERSCORE then Some(ds)
        else if DigitOf(last).Some? then Some(ds + [DigitOf(last).value])
        else None
  }

  function StripPlus(s: Bytes): Bytes {
    if |s| > 0 && s[0] == PLUS && !(|s| > 1 && s[1] == PLUS) then s[1..] else s
  }

  /** `BigUint::parse_bytes` at radix 36: an optional plus, then digits of either case; underscores after the first. */
  function ParseBase36(s: Bytes): Option<nat> {
    var t := StripPlus(s);
    if t == [] || t[0] == UNDERSCORE then None
    else match ReadDigits(t)
      case None => None
      case Some(ds) => Some(Value(ds, 36))
  }

  function EncodeBase36(bytes: Bytes): Bytes
    requires FromSecretLen(|bytes|).Some?
  {
    var ds := Pad(Shortest(Value(bytes, 256), 36), Base36Len(FromSecretLen(|bytes|).value));
    PadDigital(Shortest(Value(bytes, 256), 36), Base36Len(FromSecretLen(|bytes|).value), 36);
    Text(ds)
  }

  lemma PadDigital(ds: seq<nat>, width: nat, base: nat)
    requires base > 0 && Digital(ds, base)
    ensures Digital(Pad(ds, width), base)
  {
  }

  function AsBytes(ds: seq<nat>): (b: Bytes)
    requires Digital(ds, 256)
    ensures b == ds
  {
    ds
  }

  function DecodeBase36(s: Bytes): Result<Bytes, SecretError> {
    match FromBase36Len(|s|)
    case None => Err(InvalidLength)
    case Some(profile) =>
      match ParseBase36(s)
      case None => Err(InvalidCharacter)
      case Some(n) =>
        var raw := Shortest(n, 256);
        if |raw| > SecretLen(profile) then Err(OutOfRange)
        else
          PadDigital(raw, SecretLen(profile), 256);
          Ok(AsBytes(Pad(raw, SecretLen(profile))))
  }

  //-- Round trips ---------------------------------------------------------------------------------

  lemma ShortestValue(n: nat, base: nat, width: nat)
    requires base > 1 && width > 0
    ensures Value(Pad(Shortest(n, base), width), base) == n
    ensures |Shortest(n, base)| <= width <==> n < Pow(base, width)
  {
    var ds := Shortest(n, base);
    if |ds| < width {
      PadValue(ds, width - |ds|, base);
    }
    DigitsValue(n, base);
    DigitsLong(n, base, width);
    if n == 0 {
      assert [0][..0] == [];
      PowMono(base, 0, width);
    }
  }

  lemma Widths()
    ensures Pow(36, 10) < Pow(256, 7) <= Pow(36, 11)
    ensures Pow(36, 13) < Pow(256, 9) <= Pow(36, 14)
  {
    assert Pow(36, 5) == 60466176;
    assert Pow(36, 10) == 3656158440062976;
    assert Pow(36, 11) == 131621703842267136;
    assert Pow(36, 13) == 170581728179578208256;
    assert Pow(36, 14) == 6140942214464815497216;
    assert Pow(256, 4) == 4294967296;
    assert Pow(256, 7) == 72057594037927936;
    assert Pow(256, 9) == 4722366482869645213696;
  }

  /** The base-36 widths hold every secret of their profile, and no smaller width does. */
  lemma WidthsAreMinimal(p: TtlProfile)
    ensures Pow(36, Base36Len(p) - 1) < Pow(256, SecretLen(p)) <= Pow(36, Base36Len(p))
  {
    Widths();
  }

  lemma {:induction false} ReadText(ds: seq<nat>)
    requires Digital(ds, 36)
    ensures ReadDigits(Text(ds)) == Some(ds)
  {
    if ds != [] {
      var n := |ds| - 1;
      ReadText(ds[..n]);
      assert Text(ds)[..n] == Text(ds[..n]);
      assert Text(ds)[n] == DigitChar(ds[n]) && DigitOf(DigitChar(ds[n])) == Some(ds[n]);
      assert ds == ds[..n] + [ds[n]];
    }
  }

  lemma TextParses(ds: seq<nat>)
    requires Digital(ds, 36) && ds != []
    ensures ParseBase36(Text(ds)) == Some(Value(ds, 36))
  {
    ReadText(ds);
    assert Text(ds)[0] == DigitChar(ds[0]);
  }

  lemma ByteDigits(bytes: Bytes)
    ensures Digital(bytes, 256)
  {
  }

  /** Every 7-byte or 9-byte secret survives encoding: the text has the profile's width and decodes to the secret. */
  lemma DecodeEncode(bytes: Bytes)
    requires FromSecretLen(|bytes|).Some?
    ensures |EncodeBase36(bytes)| == Base36Len(FromSecretLen(|bytes|).value)
    ensures IsBase36(EncodeBase36(bytes))
    ensures DecodeBase36(EncodeBase36(bytes)) == Ok(bytes)
  {
    var p := FromSecretLen(|bytes|).value;
    var n := Value(bytes, 256);
    ByteDigits(bytes);
    ValueBound(bytes, 256);
    WidthsAreMinimal(p);
    ShortestValue(n, 36, Base36Len(p));
    var ds := Pad(Shortest(n, 36), Base36Len(p));
    PadDigital(Shortest(n, 36), Base36Len(p), 36);
    TextParses(ds);
    ShortestValue(n, 256, SecretLen(p));
    PadDigital(Shortest(n, 256), SecretLen(p), 256);
    SameWidthSameDigits(Pad(Shortest(n, 256), SecretLen(p)), bytes, 256);
    TextIsBase36(ds);
  }

  lemma TextIsBase36(ds: seq<nat>)
    requires Digital(ds, 36)
    ensures IsBase36(Text(ds))
  {
    forall c | c in Text(ds) ensures DigitOf(c).Some? {
      var i :| 0 <= i < |Text(ds)| && Text(ds)[i] == c;
    }
  }

  lemma {:induction false} TextOfRead(s: Bytes)
    requires IsBase36(s)
    ensures ReadDigits(s).Some? && |ReadDigits(s).value| == |s| && Text(ReadDigits(s).value) == Lowercase(s)
  {
    if s != [] {
      var n := |s| - 1;
      assert s[n] in s;
      TextOfRead(s[..n]);
      assert Lowercase(s)[..n] == Lowercase(s[..n]);
      var ds := ReadDigits(s).value;
      assert ds[..n] == ReadDigits(s[..n]).value;
      assert Text(ds)[..n] == Text(ds[..n]);
      assert Text(ds)[n] == Lowercase(s)[n];
      assert Text(ds) == Text(ds)[..n] + [Text(ds)[n]];
      assert Lowercase(s) == Lowercase(s)[..n] + [Lowercase(s)[n]];
    }
  }

  lemma LowercaseOfText(s: Bytes)
    requires IsBase36(Lowercase(s))
    ensures IsBase36(s)
  {
    forall c | c in s ensures DigitOf(c).Some? {
      var i :| 0 <= i < |s| && s[i] == c;
      assert Lowercase(s)[i] in Lowercase(s);
    }
  }

  lemma EncodeDecodeDigits(s: Bytes, p: TtlProfile)
    requires FromBase36Len(|s|) == Some(p) && IsBase36(s)
    ensures ParseBase36(s).Some? && Text(DigitsOf(ParseBase36(s).value, |s|)) == Lowercase(s)
  {
    hide Value;
    assert s[0] in s;
    TextOfRead(s);
    var ds := ReadDigits(s).value;
    assert StripPlus(s) == s && s[0] != UNDERSCORE;
    var n := Value(ds, 36);
    ShortestValue(n, 36, |s|);
    ValueBound(ds, 36);
    SameWidthSameDigits(DigitsOf(n, |s|), ds, 36);
  }

  function DigitsOf(n: nat, width: nat): (ds: seq<nat>)
    ensures Digital(ds, 36)
  {
    PadDigital(Shortest(n, 36), width, 36);
    Pad(Shortest(n, 36), width)
  }

  /** For an accepted text, encoding the decoded secret gives back its lower case exactly if it is all digits. */
  lemma EncodeDecode(s: Bytes)
    requires DecodeBase36(s).Ok?
    ensures FromSecretLen(|DecodeBase36(s).value|).Some?
    ensures EncodeBase36(DecodeBase36(s).value) == Lowercase(s) <==> IsBase36(s)
  {
    hide Value, ParseBase36, Shortest;
    var p := FromBase36Len(|s|).value;
    var n := ParseBase36(s).value;
    var bytes := DecodeBase36(s).value;
    ShortestValue(n, 256, SecretLen(p));
    assert EncodeBase36(bytes) == Text(DigitsOf(n, |s|));
    if IsBase36(s) {
      EncodeDecodeDigits(s, p);
    } else if EncodeBase36(bytes) == Lowercase(s) {
      DecodeEncode(bytes);
      LowercaseOfText(s);
    }
  }

  lemma {:induction false} ReadConcat(a: Bytes, b: Bytes)
    requires ReadDigits(a).Some? && ReadDigits(b).Some?
    ensures ReadDigits(a + b) == Some(ReadDigits(a).value + ReadDigits(b).value)
  {
    if b == [] {
      assert a + b == a;
      assert ReadDigits(a).value + [] == ReadDigits(a).value;
    } else {
      var n := |b| - 1;
      ReadConcat(a, b[..n]);
      assert (a + b)[..|a| + n] == a + b[..n] && (a + b)[|a| + n] == b[n];
      var x, y := ReadDigits(a).value, ReadDigits(b[..n]).value;
      if b[n] != UNDERSCORE {
        assert x + (y + [DigitOf(b[n]).value]) == (x + y) + [DigitOf(b[n]).value];
      }
    }
  }

  /** Zeros of the given number, as digits, read as zero. */
  lemma ZeroText(k: nat)
    ensures ReadDigits(Text(Zeros(k))) == Some(Zeros(k)) && Value(Zeros(k), 36) == 0
    ensures |Text(Zeros(k))| == k && forall i | 0 <= i < k :: Text(Zeros(k))[i] == 48
  {
    ReadText(Zeros(k));
    PadValue([], k, 36);
    assert Zeros(k) + [] == Zeros(k);
  }

  /** The other side of `EncodeDecode`: "+0000000000" is accepted, and encodes back to eleven zeros. */
  lemma PlusIsAccepted()
    ensures var s := [PLUS] + Text(Zeros(10));
            DecodeBase36(s).Ok? && !IsBase36(s) && EncodeBase36(DecodeBase36(s).value) != Lowercase(s)
  {
    hide Value, Shortest;
    var s := [PLUS] + Text(Zeros(10));
    ZeroText(10);
    assert StripPlus(s) == Text(Zeros(10));
    assert Pow(256, 7) > 0 by { PowMono(256, 0, 7); }
    RejectedExactly(s);
    assert s[0] in s;
    EncodeDecode(s);
  }

  lemma UnderscoreReads(k: nat)
    ensures var s: Bytes := [48, UNDERSCORE] + Text(Zeros(k)); ReadDigits(s) == Some(Zeros(k + 1))
  {
    var head: Bytes, zero: Bytes := [48, UNDERSCORE], [48];
    ReadText([0]);
    assert Text([0]) == zero;
    assert head[..1] == zero && ReadDigits(head) == Some([0]);
    ZeroText(k);
    ReadConcat(head, Text(Zeros(k)));
    assert [0] + Zeros(k) == Zeros(k + 1);
  }

  /** And so is "0_000000000". */
  lemma UnderscoreIsAccepted()
    ensures var s := [48, UNDERSCORE] + Text(Zeros(9));
            DecodeBase36(s).Ok? && !IsBase36(s) && EncodeBase36(DecodeBase36(s).value) != Lowercase(s)
  {
    hide Value, Shortest, ReadDigits, Text, Zeros, EncodeBase36, Pow;
    var s: Bytes := [48, UNDERSCORE] + Text(Zeros(9));
    UnderscoreReads(9);
    ZeroText(10);
    assert StripPlus(s) == s;
    PowMono(256, 0, 7);
    PowZero(256);
    RejectedExactly(s);
    assert s[1] in s;
    EncodeDecode(s);
  }

  lemma PowZero(base: nat)
    ensures Pow(base, 0) == 1
  {
  }

  /** A text of a valid width that reads as a number is rejected exactly when the number needs too many bytes. */
  lemma RejectedExactly(s: Bytes)
    requires FromBase36Len(|s|).Some? && ParseBase36(s).Some?
    ensures DecodeBase36(s) == Err(OutOfRange) <==>
            ParseBase36(s).value >= Pow(256, SecretLen(FromBase36Len(|s|).value))
    ensures DecodeBase36(s).Ok? <==> ParseBase36(s).value < Pow(256, SecretLen(FromBase36Len(|s|).value))
  {
    ShortestValue(ParseBase36(s).value, 256, SecretLen(FromBase36Len(|s|).value));
  }

  //-- Codes ---------------------------------------------------------------------------------------

  function Split(s: Bytes): (parts: seq<Bytes>)
    ensures |parts| > 0
  {
    if s == [] then [[]]
    else
      var rest := Split(s[1..]);
      if s[0] == MINUS then [[]] + rest else [[s[0]] + rest[0]] + rest[1..]
  }

  predicate IsDecimal(s: Bytes) {
    forall i | 0 <= i < |s| :: 48 <= s[i] <= 57
  }

  function DecimalValue(s: Bytes): nat
    requires IsDecimal(s)
  {
    if s == [] then 0 else DecimalValue(s[..|s| - 1]) * 10 + (s[|s| - 1] - 48)
  }

  /** `i32::from_str`: an optional sign and at least one decimal digit, in range. */
  function ParseInt32(s: Bytes): Option<Int32> {
    var digits := if |s| > 0 && (s[0] == PLUS || s[0] == MINUS) then s[1..] else s;
    if digits == [] || !IsDecimal(digits) then None
    else
      var magnitude: int := DecimalValue(digits);
      var n: int := if s[0] == MINUS then -magnitude else magnitude;
      if -0x8000_0000 <= n < 0x8000_0000 then Some(n) else None
  }

  function Magnitude(n: int): nat {
    if n < 0 then -n else n
  }

  function FormatInt32(n: Int32): Bytes {
    if n < 0 then [MINUS] + Text(DecimalDigits(Magnitude(n))) else Text(DecimalDigits(n))
  }

  function DecimalDigits(n: nat): (ds: seq<nat>)
    ensures Digital(ds, 10) && Digital(ds, 36)
  {
    Shortest(n, 10)
  }

  function Format(c: PairingCode): Bytes
    requires FromSecretLen(|c.secret|).Some?
  {
    FormatInt32(c.number) + [MINUS] + EncodeBase36(c.secret)
  }

  function Parse(s: Bytes): Result<PairingCode, CodeError> {
    var parts := Split(s);
    if |parts| != 2 then Err(InvalidFormat)
    else match ParseInt32(parts[0])
      case None => Err(InvalidNodeNumber)
      case Some(n) =>
        match DecodeBase36(parts[1])
        case Err(e) => Err(InvalidSecret(e))
        case Ok(secret) => Ok(PairingCode(n, secret))
  }

  lemma {:induction false} SplitWhole(a: Bytes)
    requires MINUS !in a
    ensures Split(a) == [a]
  {
    if a != [] {
      assert a[0] in a && forall c | c in a[1..] :: c in a;
      SplitWhole(a[1..]);
      assert [a[0]] + a[1..] == a;
    }
  }

  lemma {:induction false} SplitAtFirst(a: Bytes, b: Bytes)
    requires MINUS !in a
    ensures Split(a + [MINUS] + b) == [a] + Split(b)
  {
    if a == [] {
      assert (a + [MINUS] + b)[1..] == b;
    } else {
      assert a[0] in a && forall c | c in a[1..] :: c in a;
      SplitAtFirst(a[1..], b);
      assert (a + [MINUS] + b)[1..] == a[1..] + [MINUS] + b;
      assert (a + [MINUS] + b)[0] == a[0];
      assert [a[0]] + a[1..] == a;
    }
  }

  lemma {:induction false} DecimalOfText(ds: seq<nat>)
    requires Digital(ds, 10) && Digital(ds, 36)
    ensures IsDecimal(Text(ds)) && DecimalValue(Text(ds)) == Value(ds, 10)
  {
    if ds != [] {
      var n := |ds| - 1;
      assert Text(ds)[..n] == Text(ds[..n]);
      DecimalOfText(ds[..n]);
    }
  }

  lemma DecimalText(n: nat)
    requires n < 0x8000_0000
    ensures var t := Text(DecimalDigits(n)); t != [] && ParseInt32(t) == Some(n)
  {
    var ds := DecimalDigits(n);
    DecimalOfText(ds);
    DigitsValue(n, 10);
    if n == 0 {
      assert [0][..0] == [];
    }
    assert Value(ds, 10) == n;
    assert Text(ds)[0] == 48 + ds[0];
  }

  /** A code with a valid secret parses back to itself exactly if its node number is not negative. */
  lemma ParseFormat(c: PairingCode)
    requires FromSecretLen(|c.secret|).Some?
    ensures Parse(Format(c)) == Ok(c) <==> c.number >= 0
    ensures c.number < 0 ==> Parse(Format(c)) == Err(InvalidFormat)
  {
    hide Value, ParseInt32, DecodeBase36, EncodeBase36;
    DecodeEncode(c.secret);
    var secret := EncodeBase36(c.secret);
    assert DigitOf(MINUS).None?;
    SplitWhole(secret);
    if c.number >= 0 {
      DecimalText(c.number);
      MinusFree(DecimalDigits(c.number));
      SplitAtFirst(FormatInt32(c.number), secret);
    } else {
      var digits := Text(DecimalDigits(Magnitude(c.number)));
      MinusFree(DecimalDigits(Magnitude(c.number)));
      SplitAtFirst(digits, secret);
      assert Format(c) == [] + [MINUS] + (digits + [MINUS] + secret);
      SplitAtFirst([], digits + [MINUS] + secret);
    }
  }

  lemma MinusFree(ds: seq<nat>)
    requires Digital(ds, 36)
    ensures MINUS !in Text(ds)
  {
    TextIsBase36(ds);
    assert DigitOf(MINUS).None?;
  }

  //-- What the text means -------------------------------------------------------------------------

  /** The digits are 0 to 9 and then a to z; upper case reads like lower case. */
  lemma AlphabetIsStandard(d: nat)
    requires d < 36
    ensures var c := Ascii("0123456789abcdefghijklmnopqrstuvwxyz")[d];
            && DigitChar(d) == c && DigitOf(c) == Some(d)
            && (d >= 10 ==> DigitOf(c - 32) == Some(d))
            && (forall x: Byte :: DigitOf(x) == Some(d) ==> x == c || x == c - 32)
  {
    var text := "0123456789abcdefghijklmnopqrstuvwxyz";
    assert Ascii(text)[d] == text[d] as int % 0x100;
    AlphabetAt(d);
  }

  lemma AlphabetAt(d: nat)
    requires d < 36
    ensures "0123456789abcdefghijklmnopqrstuvwxyz"[d] as int == if d < 10 then 48 + d else 87 + d
  {
  }

  /** The number that digits stand for, read from the left: the first one weighs most. */
  function Weighed(ds: seq<nat>, base: nat): nat {
    if ds == [] then 0 else ds[0] * Pow(base, |ds| - 1) + Weighed(ds[1..], base)
  }

  lemma {:induction false} WeighedAppend(ds: seq<nat>, d: nat, base: nat)
    ensures Weighed(ds + [d], base) == Weighed(ds, base) * base + d
  {
    if ds == [] {
      assert [d][1..] == [];
    } else {
      WeighedAppend(ds[1..], d, base);
      assert (ds + [d])[1..] == ds[1..] + [d];
      var p := Pow(base, |ds| - 1);
      assert Pow(base, |ds|) == base * p;
      assert ds[0] * (base * p) == (ds[0] * p) * base;
      assert (ds[0] * p + Weighed(ds[1..], base)) * base == (ds[0] * p) * base + Weighed(ds[1..], base) * base;
    }
  }

  lemma {:induction false} ValueWeighed(ds: seq<nat>, base: nat)
    ensures Value(ds, base) == Weighed(ds, base)
  {
    if ds != [] {
      var n := |ds| - 1;
      ValueWeighed(ds[..n], base);
      WeighedAppend(ds[..n], ds[n], base);
      assert ds == ds[..n] + [ds[n]];
    }
  }

  /** The text of a secret is the base-36 notation of the big-endian number that its bytes are. */
  lemma EncodesTheNumber(bytes: Bytes)
    requires FromSecretLen(|bytes|).Some?
    ensures var ds := ReadDigits(EncodeBase36(bytes));
            ds.Some? && Weighed(ds.value, 36) == Weighed(bytes, 256)
  {
    hide Value, Shortest, Weighed;
    var p := FromSecretLen(|bytes|).value;
    var n := Value(bytes, 256);
    var ds := Pad(Shortest(n, 36), Base36Len(p));
    PadDigital(Shortest(n, 36), Base36Len(p), 36);
    ReadText(ds);
    ShortestValue(n, 36, Base36Len(p));
    ValueWeighed(ds, 36);
    ValueWeighed(bytes, 256);
  }

  lemma {:induction false} SplitShape(s: Bytes)
    ensures |Split(s)| == 1 ==> Split(s) == [s] && 45 !in s
    ensures |Split(s)| == 2 ==>
              s == Split(s)[0] + [45] + Split(s)[1] && 45 !in Split(s)[0] && 45 !in Split(s)[1]
  {
    if s != [] {
      SplitShape(s[1..]);
      assert s == [s[0]] + s[1..];
      var rest := Split(s[1..]);
      if s[0] == 45 {
        assert Split(s) == [[]] + rest;
        assert s == [] + [45] + s[1..];
      } else if |rest| == 2 {
        assert s == [s[0]] + (rest[0] + [45] + rest[1]) == ([s[0]] + rest[0]) + [45] + rest[1];
      }
    }
  }

  /** Exactly what parses: a 32-bit number, one dash, and an accepted secret, with no other dash anywhere. */
  lemma ParseExactly(s: Bytes, c: PairingCode)
    ensures Parse(s) == Ok(c) <==>
            exists a: Bytes, b: Bytes ::
              && s == a + [45] + b && 45 !in a && 45 !in b
              && ParseInt32(a) == Some(c.number) && DecodeBase36(b) == Ok(c.secret)
  {
    hide ParseInt32, DecodeBase36;
    SplitShape(s);
    if a: Bytes, b: Bytes :|
      && s == a + [45] + b && 45 !in a && 45 !in b
      && ParseInt32(a) == Some(c.number) && DecodeBase36(b) == Ok(c.secret)
    {
      SplitAtFirst(a, b);
      SplitWhole(b);
    }
  }

  lemma ProfileLengths(n: nat, p: TtlProfile)
    ensures FromSecretLen(n) == Some(p) <==> n == (if p == Interactive then 7 else 9)
    ensures FromBase36Len(n) == Some(p) <==> n == (if p == Interactive then 11 else 14)
  {
  }

  /** The text is these decimal digits, perhaps with a sign in front, and stands for `n`. */
  predicate Notation(s: Bytes, digits: Bytes, n: int) {
    && digits != [] && IsDecimal(digits)
    && (|| (s == digits && n == DecimalValue(digits))
        || (s == [43] + digits && n == DecimalValue(digits))
        || (s == [45] + digits && -n == DecimalValue(digits)))
  }

  /** Exactly what reads as a 32-bit number: decimal digits with at most one sign in front, in range. */
  lemma ReadsExactly(s: Bytes, n: Int32)
    ensures ParseInt32(s) == Some(n) <==> exists digits: Bytes :: Notation(s, digits, n)
  {
    hide DecimalValue;
    if ParseInt32(s) == Some(n) {
      var digits := if s[0] == 43 || s[0] == 45 then s[1..] else s;
      assert s == if s[0] == 43 || s[0] == 45 then [s[0]] + digits else digits;
      assert Notation(s, digits, n);
    }
    if digits: Bytes :| Notation(s, digits, n) {
      assert 48 <= digits[0] <= 57;
      assert s == digits || s[1..] == digits;
    }
  }

  /** No underscore comes first, and of two plus signs at most none: such texts are not numbers. */
  lemma LeadingMarksRejected(rest: Bytes)
    ensures ParseBase36([95] + rest) == None && ParseBase36([43, 95] + rest) == None
    ensures ParseBase36([43, 43] + rest) == None
  {
    hide Value;
    assert ([43, 95] + rest)[1..] == [95] + rest;
    PlusIsNoDigit([43, 43] + rest, 0);
  }

  lemma {:induction false} PlusIsNoDigit(s: Bytes, i: nat)
    requires i < |s| && s[i] == 43
    ensures ReadDigits(s) == None
  {
    var n := |s| - 1;
    if i < n {
      PlusIsNoDigit(s[..n], i);
    }
  }
}
