/**
The `dig62` code (base/src/utils/dig62.rs): decimal digits to 4-bit groups, padded on the left to a
multiple of 9 bits, and each 9-bit group to one letter of a keyboard-ordered alphabet, preceded by a
digit when the group is 52 or more. The first letter of the code tells the length of the padding.
*/
module Dig62 {

  datatype Outcome<+T> = Ok(value: T) | Err(error: Error) | Panic

  datatype Error = NotADigit | MissingHeader | BadHeader | DigitAtEnd | BadLetter

  type Bits = seq<bool>

  // ---------------------------------------------------------------- alphabets

  // `A_DIC`: the keyboard from top to bottom and left to right, lower case then upper case.
  function LowerLetter(i: nat): char
    requires i < 26
  {
    match i
    case 0 => 'q' case 1 => 'a' case 2 => 'z' case 3 => 'w' case 4 => 's' case 5 => 'x'
    case 6 => 'e' case 7 => 'd' case 8 => 'c' case 9 => 'r' case 10 => 'f' case 11 => 'v'
    case 12 => 't' case 13 => 'g' case 14 => 'b' case 15 => 'y' case 16 => 'h' case 17 => 'n'
    case 18 => 'u' case 19 => 'j' case 20 => 'm' case 21 => 'i' case 22 => 'k' case 23 => 'o'
    case 24 => 'l' case _ => 'p'
  }

  // The upper-case half of `A_DIC`.
  function UpperLetter(i: nat): char
    requires i < 26
  {
    match i
    case 0 => 'Q' case 1 => 'A' case 2 => 'Z' case 3 => 'W' case 4 => 'S' case 5 => 'X'
    case 6 => 'E' case 7 => 'D' case 8 => 'C' case 9 => 'R' case 10 => 'F' case 11 => 'V'
    case 12 => 'T' case 13 => 'G' case 14 => 'B' case 15 => 'Y' case 16 => 'H' case 17 => 'N'
    case 18 => 'U' case 19 => 'J' case 20 => 'M' case 21 => 'I' case 22 => 'K' case 23 => 'O'
    case 24 => 'L' case _ => 'P'
  }

  function Letter(i: nat): char
    requires i < 52
  {
    if i < 26 then LowerLetter(i) else UpperLetter(i - 26)
  }

  function LowerIndex(c: char): nat {
    match c
    case 'q' => 0 case 'a' => 1 case 'z' => 2 case 'w' => 3 case 's' => 4 case 'x' => 5
    case 'e' => 6 case 'd' => 7 case 'c' => 8 case 'r' => 9 case 'f' => 10 case 'v' => 11
    case 't' => 12 case 'g' => 13 case 'b' => 14 case 'y' => 15 case 'h' => 16 case 'n' => 17
    case 'u' => 18 case 'j' => 19 case 'm' => 20 case 'i' => 21 case 'k' => 22 case 'o' => 23
    case 'l' => 24 case 'p' => 25 case _ => 26
  }

  function UpperIndex(c: char): nat {
    match c
    case 'Q' => 0 case 'A' => 1 case 'Z' => 2 case 'W' => 3 case 'S' => 4 case 'X' => 5
    case 'E' => 6 case 'D' => 7 case 'C' => 8 case 'R' => 9 case 'F' => 10 case 'V' => 11
    case 'T' => 12 case 'G' => 13 case 'B' => 14 case 'Y' => 15 case 'H' => 16 case 'N' => 17
    case 'U' => 18 case 'J' => 19 case 'M' => 20 case 'I' => 21 case 'K' => 22 case 'O' => 23
    case 'L' => 24 case 'P' => 25 case _ => 26
  }

  // Position of a letter in `A_DIC`, or 52 if there is none.
  function LetterIndex(c: char): nat {
    if LowerIndex(c) < 26 then LowerIndex(c) else 26 + UpperIndex(c)
  }

  lemma {:induction false} LowerCaseOnce(i: nat)
    requires i < 26
    ensures LowerIndex(LowerLetter(i)) == i && 'a' <= LowerLetter(i) <= 'z'
  {
  }

  lemma {:induction false} UpperCaseOnce(i: nat)
    requires i < 26
    ensures UpperIndex(UpperLetter(i)) == i && 'A' <= UpperLetter(i) <= 'Z'
  {
  }

  lemma {:induction false} NotLowerCase(c: char)
    requires 'A' <= c <= 'Z'
    ensures LowerIndex(c) == 26
  {
  }

  // `A_DIC` has no repeated letter and no decimal digit.
  lemma {:induction false} LetterOnce(i: nat)
    requires i < 52
    ensures LetterIndex(Letter(i)) == i && !IsDigit(Letter(i))
  {
    hide LowerLetter, UpperLetter, LowerIndex, UpperIndex;
    if i < 26 {
      LowerCaseOnce(i);
    } else {
      UpperCaseOnce(i - 26);
      NotLowerCase(Letter(i));
    }
  }

  lemma {:induction false} IndexOnce(c: char)
    requires LetterIndex(c) < 52
    ensures Letter(LetterIndex(c)) == c
  {
  }

  // The alphabet lists the keys of a keyboard with three rows of letters column by column, each from top to
  // bottom, and then the same keys in upper case.
  lemma {:induction false} KeyboardOrder(k: nat)
    ensures k < 10 ==> Letter(if k < 8 then 3 * k else 2 * k + 7) == "qwertyuiop"[k]
    ensures k < 9 ==> Letter(if k < 8 then 3 * k + 1 else 24) == "asdfghjkl"[k]
    ensures k < 7 ==> Letter(3 * k + 2) == "zxcvbnm"[k]
    ensures k < 26 ==> Letter(26 + k) as int == Letter(k) as int - 'a' as int + 'A' as int
  {
  }

  predicate IsLetter(c: char) { 'a' <= c <= 'z' || 'A' <= c <= 'Z' }

  lemma {:induction false} LettersOnly(c: char)
    ensures LetterIndex(c) < 52 <==> IsLetter(c)
  {
  }

  predicate IsDigit(c: char) { '0' <= c <= '9' }

  function DigitValue(c: char): (d: nat)
    requires IsDigit(c)
    ensures d < 10
  {
    c as int - '0' as int
  }

  // `D_DIC[d]`, and `char::from_digit(d, 10)`.
  function DigitChar(d: nat): (c: char)
    requires d < 10
    ensures IsDigit(c) && DigitValue(c) == d
  {
    (d + '0' as int) as char
  }

  // ---------------------------------------------------------------- binary numerals

  // `format!("{:0width$b}", n)`: at least `width` bits, and as many as n needs.
  function Binary(n: nat, width: nat): Bits
    decreases n + width
  {
    if n == 0 && width == 0 then []
    else Binary(n / 2, if width > 0 then width - 1 else 0) + [n % 2 == 1]
  }

  // `from_str_radix(.., 2)`
  function Value(bits: Bits): nat {
    if bits == [] then 0 else 2 * Value(bits[..|bits| - 1]) + if bits[|bits| - 1] then 1 else 0
  }

  function Pow2(n: nat): (p: nat)
    ensures p > 0
  {
    if n == 0 then 1 else 2 * Pow2(n - 1)
  }

  lemma {:induction false} ValueBelow(bits: Bits)
    ensures Value(bits) < Pow2(|bits|)
  {
    if bits != [] {
      ValueBelow(bits[..|bits| - 1]);
    }
  }

  lemma {:induction false} BinaryOfValue(bits: Bits)
    ensures Binary(Value(bits), |bits|) == bits
  {
    if bits != [] {
      var init := bits[..|bits| - 1];
      BinaryOfValue(init);
      assert Value(bits) / 2 == Value(init);
      assert bits == init + [bits[|bits| - 1]];
    }
  }

  lemma {:induction false} BinaryWidth(n: nat, width: nat)
    requires n < Pow2(width)
    ensures |Binary(n, width)| == width && Value(Binary(n, width)) == n
    decreases width
  {
    if width > 0 {
      BinaryWidth(n / 2, width - 1);
      assert Binary(n, width)[..width - 1] == Binary(n / 2, width - 1);
    }
  }

  // ---------------------------------------------------------------- encoding

  // Every digit as four bits; none if some character is not a digit.
  function Nibbles(s: string): (bits: Outcome<Bits>)
    ensures bits.Ok? || bits == Err(NotADigit)
    ensures bits.Ok? ==> |bits.value| == 4 * |s|
    ensures bits.Ok? <==> forall c <- s :: IsDigit(c)
  {
    if s == [] then Ok([])
    else
      var last := s[|s| - 1];
      assert forall c <- s :: c == last || c in s[..|s| - 1];
      if !IsDigit(last) then Err(NotADigit)
      else
        match Nibbles(s[..|s| - 1])
        case Ok(bits) => Nibble(DigitValue(last)); Ok(bits + Binary(DigitValue(last), 4))
        case Err(e) => Err(e)
  }

  lemma {:induction false} Nibble(d: nat)
    requires d < 10
    ensures |Binary(d, 4)| == 4 && Value(Binary(d, 4)) == d
  {
    assert Pow2(4) == 16;
    BinaryWidth(d, 4);
  }

  // The characters of one 9-bit group.
  function Group(val: nat): (code: string)
    requires val < 512
    ensures 1 <= |code| <= 2
  {
    (if val / 52 > 0 then [DigitChar(val / 52)] else []) + [Letter(val % 52)]
  }

  lemma {:induction false} Power9()
    ensures Pow2(9) == 512
  {
    assert Pow2(8) == 256 by {
      assert Pow2(4) == 16;
    }
  }

  function Groups(bits: Bits): (code: string)
    requires |bits| % 9 == 0
    ensures |bits| / 9 <= |code| <= 2 * (|bits| / 9)
  {
    if bits == [] then []
    else
      ValueBelow(bits[..9]);
      Power9();
      Group(Value(bits[..9])) + Groups(bits[9..])
  }

  function PadLength(n: nat): (p: nat)
    ensures p < 9 && (n + p) % 9 == 0
  {
    if n % 9 == 0 then 0 else 9 - n % 9
  }

  function Zeros(n: nat): (z: Bits)
    ensures |z| == n
  {
    seq(n, _ => false)
  }

  function Encode(s: string): Outcome<string> {
    match Nibbles(s)
    case Err(e) => Err(e)
    case Ok(bits) =>
      var pad := PadLength(|bits|);
      Ok([Letter(pad)] + Groups(Zeros(pad) + bits))
  }

  // ---------------------------------------------------------------- decoding

  // The loop of `de`: the groups of the code, each written with at least nine bits.
  function Ungroup(code: string): (bits: Outcome<Bits>)
    ensures !bits.Panic?
  {
    if code == [] then Ok([])
    else if IsDigit(code[0]) then
      if |code| == 1 then Err(DigitAtEnd)
      else if LetterIndex(code[1]) >= 52 then Err(BadLetter)
      else Prepend(Binary(DigitValue(code[0]) * 52 + LetterIndex(code[1]), 9), Ungroup(code[2..]))
    else if LetterIndex(code[0]) >= 52 then Err(BadLetter)
    else Prepend(Binary(LetterIndex(code[0]), 9), Ungroup(code[1..]))
  }

  function Prepend(bits: Bits, rest: Outcome<Bits>): Outcome<Bits> {
    if rest.Ok? then Ok(bits + rest.value) else rest
  }

  // Cuts the bits into fours (the last group may be shorter); a group above 9 has no digit.
  function Decimal(bits: Bits): (s: Outcome<string>)
    ensures !s.Err?
  {
    if bits == [] then Ok([])
    else
      var n := if |bits| < 4 then |bits| else 4;
      var d := Value(bits[..n]);
      if d >= 10 then Panic
      else
        var rest := Decimal(bits[n..]);
        if rest.Ok? then Ok([DigitChar(d)] + rest.value) else rest
  }

  function Skip(bits: Bits, n: nat): Bits { if n <= |bits| then bits[n..] else [] }

  function Decode(code: string): Outcome<string> {
    if code == [] then Err(MissingHeader)
    else if LetterIndex(code[0]) >= 52 then Err(BadHeader)
    else
      var bits := Ungroup(code[1..]);
      if bits.Ok? then Decimal(Skip(bits.value, LetterIndex(code[0]))) else Err(bits.error)
  }

  // ---------------------------------------------------------------- round trip

  lemma {:induction false} GroupUngroups(bits: Bits, rest: string)
    requires |bits| == 9
    ensures Value(bits) < 512
    ensures Ungroup(Group(Value(bits)) + rest) == Prepend(bits, Ungroup(rest))
  {
    hide Letter, LetterIndex, Binary, Value;
    ValueBelow(bits);
    Power9();
    BinaryOfValue(bits);
    var val := Value(bits);
    LetterOnce(val % 52);
    var code := Group(val) + rest;
    if val / 52 > 0 {
      assert code[0] == DigitChar(val / 52) && code[1] == Letter(val % 52) && code[2..] == rest;
    } else {
      assert code[0] == Letter(val) && code[1..] == rest;
    }
  }

  lemma {:induction false} GroupsUngroup(bits: Bits)
    requires |bits| % 9 == 0
    ensures Ungroup(Groups(bits)) == Ok(bits)
    decreases |bits|
  {
    if bits != [] {
      GroupUngroups(bits[..9], Groups(bits[9..]));
      GroupsUngroup(bits[9..]);
      assert bits == bits[..9] + bits[9..];
    }
  }

  lemma {:induction false} NibblesPrefix(s: string)
    requires s != [] && forall c <- s :: IsDigit(c)
    ensures Nibbles(s).Ok? && Nibbles(s[1..]).Ok?
    ensures Nibbles(s).value == Binary(DigitValue(s[0]), 4) + Nibbles(s[1..]).value
  {
    var n := |s| - 1;
    if n == 0 {
      assert s[..0] == [] && s[1..] == [];
    } else {
      NibblesPrefix(s[..n]);
      assert s[..n][1..] == s[1..][..n - 1];
      var a, mid, z := Binary(DigitValue(s[0]), 4), Nibbles(s[1..][..n - 1]).value, Binary(DigitValue(s[n]), 4);
      assert (a + mid) + z == a + (mid + z);
    }
  }

  lemma {:induction false} NibblesDecimal(s: string)
    requires forall c <- s :: IsDigit(c)
    ensures Nibbles(s).Ok? && Decimal(Nibbles(s).value) == Ok(s)
  {
    hide Value, Binary;
    if s != [] {
      NibblesPrefix(s);
      NibblesDecimal(s[1..]);
      Nibble(DigitValue(s[0]));
      var bits := Nibbles(s).value;
      assert bits[..4] == Binary(DigitValue(s[0]), 4) && bits[4..] == Nibbles(s[1..]).value;
      assert s == [s[0]] + s[1..];
    }
  }

  // Encoding succeeds exactly on strings of decimal digits, and decoding undoes it: no failure, no panic.
  lemma {:induction false} RoundTrip(s: string)
    ensures Encode(s).Ok? <==> forall c <- s :: IsDigit(c)
    ensures Encode(s).Ok? ==> Decode(Encode(s).value) == Ok(s)
  {
    if Nibbles(s).Ok? {
      var bits := Nibbles(s).value;
      var pad := PadLength(|bits|);
      GroupsUngroup(Zeros(pad) + bits);
      LetterOnce(pad);
      NibblesDecimal(s);
      var code := Encode(s).value;
      assert code[0] == Letter(pad) && code[1..] == Groups(Zeros(pad) + bits);
      assert Skip(Zeros(pad) + bits, pad) == bits;
    }
  }

  // No two strings have the same code.
  lemma {:induction false} Injective(s: string, t: string)
    requires Encode(s).Ok? && Encode(s) == Encode(t)
    ensures s == t
  {
    RoundTrip(s);
    RoundTrip(t);
  }

  // n digits are encoded with at most 1 + 2 * ceil(4n / 9) characters.
  lemma {:induction false} CodeLength(s: string)
    requires Encode(s).Ok?
    ensures 1 + (4 * |s| + 8) / 9 <= |Encode(s).value| <= 1 + 2 * ((4 * |s| + 8) / 9)
  {
    var n := 4 * |s|;
    assert (n + PadLength(n)) / 9 == (n + 8) / 9;
  }

  // ---------------------------------------------------------------- codes that `de` accepts

  // Each group written as the encoder writes it: no needless digit 0, and a value of nine bits.
  predicate Minimal(code: string)
    decreases |code|
  {
    code == [] ||
    (if IsDigit(code[0]) then
       |code| >= 2 && code[0] != '0' && LetterIndex(code[1]) < 52
       && DigitValue(code[0]) * 52 + LetterIndex(code[1]) < 512 && Minimal(code[2..])
     else LetterIndex(code[0]) < 52 && Minimal(code[1..]))
  }

  // A code the encoder could have written: a header below 9, minimal groups that hold a whole number
  // of digits after the padding, and padding of zeros.
  ghost predicate Canonical(code: string) {
    && code != [] && LetterIndex(code[0]) < 9
    && Minimal(code[1..])
    && var bits := Ungroup(code[1..]);
       bits.Ok? && var pad := LetterIndex(code[0]);
       pad <= |bits.value| && bits.value[..pad] == Zeros(pad) && (|bits.value| - pad) % 4 == 0
  }

  lemma {:induction false} GroupOfPair(d: nat, i: nat)
    requires d < 10 && i < 52 && d * 52 + i < 512
    ensures Group(d * 52 + i) == (if d > 0 then [DigitChar(d)] else []) + [Letter(i)]
  {
  }

  // The encoder writes back a group that the decoder has read.
  lemma {:induction false} RegroupOne(d: nat, i: nat, rest: Bits)
    requires d < 10 && i < 52 && d * 52 + i < 512 && |rest| % 9 == 0
    ensures |Binary(d * 52 + i, 9)| == 9
    ensures Groups(Binary(d * 52 + i, 9) + rest) == (if d > 0 then [DigitChar(d)] else []) + [Letter(i)] + Groups(rest)
  {
    hide Letter, Value, Binary, Group, Pow2;
    Power9();
    BinaryWidth(d * 52 + i, 9);
    GroupOfPair(d, i);
    var bits := Binary(d * 52 + i, 9) + rest;
    assert bits[..9] == Binary(d * 52 + i, 9) && bits[9..] == rest;
  }

  lemma {:induction false} MinimalRegroups(code: string)
    requires Minimal(code)
    ensures Ungroup(code).Ok? && |Ungroup(code).value| % 9 == 0 && Groups(Ungroup(code).value) == code
    decreases |code|
  {
    hide Letter, LetterIndex, Binary, Groups;
    if code != [] {
      if IsDigit(code[0]) {
        MinimalRegroups(code[2..]);
        IndexOnce(code[1]);
        RegroupOne(DigitValue(code[0]), LetterIndex(code[1]), Ungroup(code[2..]).value);
        assert code == [code[0]] + [code[1]] + code[2..];
      } else {
        MinimalRegroups(code[1..]);
        IndexOnce(code[0]);
        RegroupOne(0, LetterIndex(code[0]), Ungroup(code[1..]).value);
        assert code == [] + [code[0]] + code[1..];
      }
    } else {
      NoGroups();
    }
  }

  lemma {:induction false} NoGroups()
    ensures Groups([]) == []
  {
  }

  lemma {:induction false} GroupMinimal(val: nat, rest: string)
    requires val < 512 && Minimal(rest)
    ensures Minimal(Group(val) + rest)
  {
    hide Letter, LetterIndex;
    LetterOnce(val % 52);
    var code := Group(val) + rest;
    if val / 52 > 0 {
      assert code[0] == DigitChar(val / 52) && code[1] == Letter(val % 52) && code[2..] == rest;
    } else {
      assert code[0] == Letter(val) && code[1..] == rest;
    }
  }

  lemma {:induction false} GroupsMinimal(bits: Bits)
    requires |bits| % 9 == 0
    ensures Minimal(Groups(bits))
    decreases |bits|
  {
    if bits != [] {
      GroupsMinimal(bits[9..]);
      ValueBelow(bits[..9]);
      Power9();
      GroupMinimal(Value(bits[..9]), Groups(bits[9..]));
    }
  }

  lemma {:induction false} DecimalNibbles(bits: Bits)
    requires |bits| % 4 == 0 && Decimal(bits).Ok?
    ensures Nibbles(Decimal(bits).value) == Ok(bits)
    decreases |bits|
  {
    if bits != [] {
      var s := Decimal(bits).value;
      DecimalNibbles(bits[4..]);
      assert s[1..] == Decimal(bits[4..]).value;
      forall c | c in s
        ensures IsDigit(c)
      {
        assert c == s[0] || c in s[1..];
      }
      NibblesPrefix(s);
      BinaryOfValue(bits[..4]);
      assert bits == bits[..4] + bits[4..];
    }
  }

  // The codes that decode and encode back to themselves are exactly the canonical codes that decode.
  lemma {:induction false} CanonicalCodes(code: string)
    requires Decode(code).Ok?
    ensures Encode(Decode(code).value) == Ok(code) <==> Canonical(code)
  {
    if Canonical(code) {
      CanonicalEncodes(code);
    }
    if Encode(Decode(code).value) == Ok(code) {
      EncodedCanonical(Decode(code).value);
    }
  }

  lemma {:induction false} CanonicalEncodes(code: string)
    requires Decode(code).Ok? && Canonical(code)
    ensures Encode(Decode(code).value) == Ok(code)
  {
    hide Letter, LetterIndex, Groups, Nibbles, Decimal, Ungroup, Minimal, Value, PadLength;
    var bits, pad := Ungroup(code[1..]).value, LetterIndex(code[0]);
    DecimalNibbles(bits[pad..]);
    MinimalRegroups(code[1..]);
    IndexOnce(code[0]);
    assert bits == Zeros(pad) + bits[pad..];
    assert PadLength(|bits| - pad) == pad;
    assert code == [code[0]] + code[1..];
  }

  lemma {:induction false} EncodedCanonical(s: string)
    requires Encode(s).Ok?
    ensures Canonical(Encode(s).value)
  {
    hide Letter, LetterIndex, Groups, Nibbles, Ungroup, Minimal;
    var bits := Nibbles(s).value;
    var pad := PadLength(|bits|);
    GroupsUngroup(Zeros(pad) + bits);
    GroupsMinimal(Zeros(pad) + bits);
    LetterOnce(pad);
    var code := Encode(s).value;
    assert code[0] == Letter(pad) && code[1..] == Groups(Zeros(pad) + bits);
  }

  // A code that `de` accepts and `en` never writes: padding that is not there.
  lemma {:induction false} AcceptsForeignCode()
    ensures Decode("a") == Ok("") && !Canonical("a") && forall s :: Encode(s) != Ok("a")
  {
    assert LetterIndex('a') == 1 && "a"[1..] == [];
    assert Ungroup([]) == Ok([]);
    assert Decode("a") == Ok("");
    assert !Canonical("a");
    forall s ensures Encode(s) != Ok("a") {
      if Encode(s) == Ok("a") { EncodedCanonical(s); }
    }
  }

  // The k-th group of four bits is no decimal digit.
  predicate BadNibble(bits: Bits, k: nat) { 4 * k + 4 <= |bits| && Value(bits[4 * k..4 * k + 4]) >= 10 }

  lemma {:induction false} BadNibbleShift(bits: Bits, k: nat)
    requires |bits| >= 4
    ensures BadNibble(bits, k + 1) <==> BadNibble(bits[4..], k)
  {
    if 4 * (k + 1) + 4 <= |bits| {
      assert 4 * (k + 1) == 4 + 4 * k;
      assert bits[4..][4 * k..4 * k + 4] == bits[4 + 4 * k..4 + 4 * k + 4];
    }
  }

  // Cutting the bits into digits fails, with a panic, exactly when some group of four is above nine.
  lemma {:induction false} DecimalPanics(bits: Bits)
    ensures Decimal(bits).Panic? <==> exists k: nat :: BadNibble(bits, k)
    decreases |bits|
  {
    if |bits| < 4 {
      ValueBelow(bits);
      assert Pow2(3) == 8;
      assert bits[..|bits|] == bits;
      assert bits[|bits|..] == [];
    } else {
      DecimalPanics(bits[4..]);
      assert BadNibble(bits, 0) <==> Value(bits[..4]) >= 10;
      if k: nat :| BadNibble(bits, k) {
        if k > 0 {
          BadNibbleShift(bits, k - 1);
        }
      }
      if k: nat :| BadNibble(bits[4..], k) {
        BadNibbleShift(bits, k);
        assert BadNibble(bits, k + 1);
      }
    }
  }

  // `de` answers every string with a result or an error, except those whose groups are well formed and
  // hold a group of four bits above nine after the padding: on these it panics.
  lemma {:induction false} DecodePanics(code: string)
    ensures Decode(code).Panic? <==>
      && code != [] && LetterIndex(code[0]) < 52 && Ungroup(code[1..]).Ok?
      && exists k: nat :: BadNibble(Skip(Ungroup(code[1..]).value, LetterIndex(code[0])), k)
  {
    hide LetterIndex, Ungroup;
    if code != [] && LetterIndex(code[0]) < 52 && Ungroup(code[1..]).Ok? {
      DecimalPanics(Skip(Ungroup(code[1..]).value, LetterIndex(code[0])));
    }
  }

  lemma {:induction false} DecodeCanPanic()
    ensures Decode("q6c") == Panic
  {
    var bits := Binary(6 * 52 + 8, 9);
    var code := "q6c"[1..];
    assert code == "6c" && code[2..] == [];
    assert LetterIndex('q') == 0 && LetterIndex('c') == 8 && DigitValue('6') == 6;
    assert Ungroup(code) == Prepend(bits, Ungroup([]));
    assert Ungroup(code) == Ok(bits + []) && bits + [] == bits;
    TopNibble();
  }

  lemma {:induction false} TopNibble()
    ensures |Binary(320, 9)| == 9 && Value(Binary(320, 9)[..4]) == 10
  {
    Power9();
    BinaryWidth(320, 9);
    assert Binary(320, 9)[..4] == Binary(10, 4);
    assert Pow2(4) == 16;
    BinaryWidth(10, 4);
  }

  // ---------------------------------------------------------------- what `de` refuses

  // At this position there is a character that a group cannot hold, or a digit with another character than a
  // letter behind it.
  predicate Illegal(code: string, k: nat) {
    k < |code| &&
    if IsDigit(code[k]) then k + 1 < |code| && !IsLetter(code[k + 1]) else !IsLetter(code[k])
  }

  // ... or a digit with nothing behind it.
  predicate DigitLast(code: string) { code != [] && IsDigit(code[|code| - 1]) }

  // The first group, and what follows it.
  function GroupLength(code: string): nat
    requires code != []
  {
    if IsDigit(code[0]) then 2 else 1
  }

  lemma {:induction false} IllegalLater(code: string, n: nat, k: nat)
    requires n <= |code|
    ensures Illegal(code[n..], k) <==> Illegal(code, n + k)
  {
  }

  lemma {:induction false} FirstGroup(code: string)
    requires code != [] && GroupLength(code) <= |code|
    requires !Illegal(code, 0)
    ensures Ungroup(code).Ok? == Ungroup(code[GroupLength(code)..]).Ok?
    ensures Ungroup(code).Err? ==> Ungroup(code) == Ungroup(code[GroupLength(code)..])
    ensures !Illegal(code, GroupLength(code) - 1)
    ensures |code| == GroupLength(code) ==> !DigitLast(code)
  {
    hide LetterIndex, Binary;
    LettersOnly(code[0]);
    if IsDigit(code[0]) {
      LettersOnly(code[1]);
    }
  }

  // Reading the groups fails exactly on an illegal position or, if there is none, on a digit at the end.
  lemma {:induction false} UngroupFails(code: string)
    ensures Ungroup(code) == Err(BadLetter) <==> exists k: nat :: Illegal(code, k)
    ensures Ungroup(code) == Err(DigitAtEnd) <==> DigitLast(code) && forall k: nat :: !Illegal(code, k)
    ensures Ungroup(code).Err? ==> Ungroup(code).error in {BadLetter, DigitAtEnd}
    decreases |code|
  {
    hide LetterIndex, Binary, IsLetter;
    if code == [] {
    } else if Illegal(code, 0) {
      LettersOnly(code[0]);
      if IsDigit(code[0]) { LettersOnly(code[1]); }
    } else if GroupLength(code) > |code| {
      assert |code| == 1;
      assert forall k: nat :: Illegal(code, k) ==> k == 0;
    } else {
      var n := GroupLength(code);
      FirstGroup(code);
      UngroupFails(code[n..]);
      forall k: nat
        ensures Illegal(code, k) <==> k >= n && Illegal(code[n..], k - n)
      {
        if k >= n { IllegalLater(code, n, k - n); }
      }
      if k: nat :| Illegal(code[n..], k) {
        assert Illegal(code, n + k);
      }
    }
  }

  // `de` fails on the empty code, on one that does not begin with a letter, on one that holds an illegal
  // position behind its header, and on one that ends with a digit: each with its own error, and else never.
  lemma {:induction false} DecodeFails(code: string)
    ensures Decode(code) == Err(MissingHeader) <==> code == []
    ensures Decode(code) == Err(BadHeader) <==> code != [] && !IsLetter(code[0])
    ensures Decode(code) == Err(BadLetter) <==>
      code != [] && IsLetter(code[0]) && exists k: nat :: k >= 1 && Illegal(code, k)
    ensures Decode(code) == Err(DigitAtEnd) <==>
      code != [] && IsLetter(code[0]) && DigitLast(code) && forall k: nat :: k >= 1 ==> !Illegal(code, k)
    ensures Decode(code) != Err(NotADigit)
  {
    hide LetterIndex, Ungroup, Illegal;
    if code != [] && IsLetter(code[0]) {
      LettersOnly(code[0]);
      UngroupFails(code[1..]);
      forall k: nat
        ensures Illegal(code[1..], k) <==> Illegal(code, k + 1)
      {
        IllegalLater(code, 1, k);
      }
      assert forall k: nat :: k >= 1 && Illegal(code, k) ==> Illegal(code[1..], k - 1);
    } else if code != [] {
      LettersOnly(code[0]);
    }
  }

  // ---------------------------------------------------------------- what a code stands for

  // A group as it is written: a letter by its position, with a digit before it or none.
  datatype Piece = Plain(letter: nat) | Marked(digit: nat, letter: nat)
  {
    predicate Legal() { letter < 52 && (Marked? ==> digit < 10) }

    function Number(): nat { if Marked? then 52 * digit + letter else letter }
  }

  ghost predicate AllLegal(pieces: seq<Piece>) { forall j :: 0 <= j < |pieces| ==> pieces[j].Legal() }

  function Spell(pieces: seq<Piece>): string
    requires AllLegal(pieces)
  {
    if pieces == [] then []
    else
      (if pieces[0].Marked? then [DigitChar(pieces[0].digit)] else []) + [Letter(pieces[0].letter)]
      + Spell(pieces[1..])
  }

  // The numbers of the groups, each in nine bits, or ten if it needs them.
  function Numerals(pieces: seq<Piece>): Bits {
    if pieces == [] then [] else Binary(pieces[0].Number(), 9) + Numerals(pieces[1..])
  }

  // Each numeral is the shortest of at least that width: leading zeros fill it up.
  lemma {:induction false} BinaryMeans(n: nat, width: nat)
    ensures Value(Binary(n, width)) == n && |Binary(n, width)| >= width
    ensures |Binary(n, width)| > width ==> Binary(n, width)[0]
    decreases n + width
  {
    if n != 0 || width != 0 {
      BinaryMeans(n / 2, if width > 0 then width - 1 else 0);
      var rest := Binary(n / 2, if width > 0 then width - 1 else 0);
      assert Binary(n, width)[..|rest|] == rest;
    }
  }

  // The first bit counts most.
  lemma {:induction false} ValueOfFirst(bits: Bits)
    requires bits != []
    ensures Value(bits) == (if bits[0] then Pow2(|bits| - 1) else 0) + Value(bits[1..])
  {
    if |bits| > 1 {
      ValueOfFirst(bits[..|bits| - 1]);
      assert bits[..|bits| - 1][1..] == bits[1..][..|bits| - 2];
    }
  }

  lemma {:induction false} SpellUngroups(pieces: seq<Piece>)
    requires AllLegal(pieces)
    ensures Ungroup(Spell(pieces)) == Ok(Numerals(pieces))
  {
    hide Letter, LetterIndex, Binary;
    if pieces != [] {
      var rest := Spell(pieces[1..]);
      SpellUngroups(pieces[1..]);
      LetterOnce(pieces[0].letter);
      var code := Spell(pieces);
      if pieces[0].Marked? {
        assert code[2..] == rest;
      } else {
        assert code[1..] == rest;
      }
    }
  }

  // Every code without an illegal position that does not end with a digit is a row of groups.
  lemma {:induction false} Spelled(code: string) returns (pieces: seq<Piece>)
    requires Ungroup(code).Ok?
    ensures AllLegal(pieces) && Spell(pieces) == code
    decreases |code|
  {
    hide Letter, LetterIndex, Binary;
    if code == [] {
      pieces := [];
    } else {
      var n := GroupLength(code);
      var rest := Spelled(code[n..]);
      IndexOnce(code[n - 1]);
      var first := if n == 2 then Marked(DigitValue(code[0]), LetterIndex(code[1])) else Plain(LetterIndex(code[0]));
      pieces := [first] + rest;
      assert pieces[1..] == rest;
      assert n == 2 ==> DigitChar(DigitValue(code[0])) == code[0];
    }
  }

  // Bits k to k + 3, or as many as there are.
  function Four(bits: Bits, k: nat): Bits
    requires 4 * k <= |bits|
  {
    bits[4 * k..if 4 * k + 4 <= |bits| then 4 * k + 4 else |bits|]
  }

  lemma {:induction false} DecimalDigits(bits: Bits)
    requires Decimal(bits).Ok?
    ensures var s := Decimal(bits).value;
      && |s| == (|bits| + 3) / 4
      && forall k :: 0 <= k < |s| ==> IsDigit(s[k]) && DigitValue(s[k]) == Value(Four(bits, k))
    decreases |bits|
  {
    hide Value;
    if bits != [] {
      var n := if |bits| < 4 then |bits| else 4;
      DecimalDigits(bits[n..]);
      var s, rest := Decimal(bits).value, Decimal(bits[n..]).value;
      forall k | 0 <= k < |s|
        ensures IsDigit(s[k]) && DigitValue(s[k]) == Value(Four(bits, k))
      {
        if k == 0 {
          assert Four(bits, 0) == bits[..n];
        } else {
          assert s[k] == rest[k - 1] && Four(bits[n..], k - 1) == Four(bits, k);
        }
      }
    }
  }

  // What `de` answers on a row of groups behind a header: the header says how many of their bits are left
  // out, each four that follow are a digit, and a four above nine makes it panic.
  lemma {:induction false} DecodeMeans(pad: nat, pieces: seq<Piece>)
    requires pad < 52 && AllLegal(pieces)
    ensures var r, all := Decode([Letter(pad)] + Spell(pieces)), Numerals(pieces);
      var bits := if pad <= |all| then all[pad..] else [];
      && (r.Panic? <==> exists k: nat :: BadNibble(bits, k))
      && (!r.Panic? ==> r.Ok? && |r.value| == (|bits| + 3) / 4)
      && (!r.Panic? ==> forall k :: 0 <= k < |r.value| ==>
            IsDigit(r.value[k]) && DigitValue(r.value[k]) == Value(Four(bits, k)))
  {
    hide Letter, LetterIndex, Ungroup, Spell, Numerals, BadNibble, Decimal, Value, Four;
    var code := [Letter(pad)] + Spell(pieces);
    LetterOnce(pad);
    assert code[0] == Letter(pad) && code[1..] == Spell(pieces);
    SpellUngroups(pieces);
    var bits := Skip(Numerals(pieces), pad);
    DecimalPanics(bits);
    if Decimal(bits).Ok? {
      DecimalDigits(bits);
    }
  }

  // Those are all the codes that `de` does not refuse.
  lemma {:induction false} DecodesRows(code: string) returns (pad: nat, pieces: seq<Piece>)
    requires !Decode(code).Err?
    ensures pad < 52 && AllLegal(pieces) && code == [Letter(pad)] + Spell(pieces)
  {
    hide Letter, LetterIndex, Ungroup;
    pad := LetterIndex(code[0]);
    IndexOnce(code[0]);
    pieces := Spelled(code[1..]);
    assert code == [code[0]] + code[1..];
  }

  // ---------------------------------------------------------------- the loops of the source

  method En(digits: string) returns (code: Outcome<string>)
    ensures code == Encode(digits)
  {
    hide Letter, Groups;
    var read := ReadDigits(digits);
    if read.Err? {
      return Err(read.error);
    }
    var bits := read.value;
    var remainder := |bits| % 9;
    var header := Letter(0);
    if remainder != 0 {
      bits := Zeros(9 - remainder) + bits;
      header := Letter(9 - remainder);
    }
    assert bits == Zeros(PadLength(|read.value|)) + read.value;
    var groups := WriteGroups(bits);
    code := Ok([header] + groups);
  }

  method ReadDigits(digits: string) returns (bits: Outcome<Bits>)
    ensures bits == Nibbles(digits)
  {
    var out: Bits := [];
    for j := 0 to |digits|
      invariant Nibbles(digits[..j]) == Ok(out)
    {
      if !IsDigit(digits[j]) {
        return Err(NotADigit);
      }
      assert digits[..j + 1][..j] == digits[..j];
      out := out + Binary(DigitValue(digits[j]), 4);
    }
    assert digits[..|digits|] == digits;
    bits := Ok(out);
  }

  lemma {:induction false} Assoc<T>(a: seq<T>, b: seq<T>, c: seq<T>)
    ensures a + (b + c) == (a + b) + c
  {
  }

  method PushGroup(out: string, val: nat) returns (out': string)
    requires val < 512
    ensures out' == out + Group(val)
  {
    out' := out;
    var circle, index := val / 52, val % 52;
    if circle > 0 {
      out' := out' + [DigitChar(circle)];
    }
    out' := out' + [Letter(index)];
  }

  lemma {:induction false} GroupsFrom(bits: Bits, k: nat)
    requires k < |bits| && (|bits| - k) % 9 == 0
    ensures k + 9 <= |bits| && Value(bits[k..k + 9]) < 512
    ensures Groups(bits[k..]) == Group(Value(bits[k..k + 9])) + Groups(bits[k + 9..])
  {
    hide Letter, Value, Group, Pow2;
    ValueBelow(bits[k..k + 9]);
    Power9();
    assert bits[k..][..9] == bits[k..k + 9] && bits[k..][9..] == bits[k + 9..];
  }

  method WriteGroups(bits: Bits) returns (out: string)
    requires |bits| % 9 == 0
    ensures out == Groups(bits)
  {
    hide Letter, Value, Group, Pow2, Groups;
    out := [];
    assert bits[0..] == bits;
    var k := 0;
    while k < |bits|
      invariant k <= |bits| && (|bits| - k) % 9 == 0
      invariant out + Groups(bits[k..]) == Groups(bits)
    {
      GroupsFrom(bits, k);
      var val := Value(bits[k..k + 9]);
      Assoc(out, Group(val), Groups(bits[k + 9..]));
      out := PushGroup(out, val);
      k := k + 9;
    }
  }

  // The alphabet as a map from letter to position, built one letter at a time.
  method LetterMap() returns (positions: map<char, nat>)
    ensures forall c :: c in positions <==> LetterIndex(c) < 52
    ensures forall c <- positions :: positions[c] == LetterIndex(c)
  {
    hide LetterIndex, Letter;
    positions := map[];
    for i := 0 to 52
      invariant forall c :: c in positions <==> LetterIndex(c) < i
      invariant forall c <- positions :: positions[c] == LetterIndex(c)
    {
      LetterOnce(i);
      forall c | LetterIndex(c) == i
        ensures c == Letter(i)
      {
        IndexOnce(c);
      }
      positions := positions[Letter(i) := i];
    }
  }

  method De(code: string) returns (digits: Outcome<string>)
    ensures digits == Decode(code)
  {
    hide LetterIndex, Binary, Value;
    if code == [] {
      return Err(MissingHeader);
    }
    var positions := LetterMap();
    if code[0] !in positions {
      return Err(BadHeader);
    }
    var pad := positions[code[0]];
    var bits: Bits := [];
    var i := 1;
    PrependNothing(Ungroup(code[1..]));
    while i < |code|
      invariant 1 <= i <= |code|
      invariant Ungroup(code[1..]) == Prepend(bits, Ungroup(code[i..]))
    {
      ghost var from, sofar := i, bits;
      assert code[i..][1..] == code[i + 1..] && (i + 1 < |code| ==> code[i..][2..] == code[i + 2..]);
      var circle := 0;
      if IsDigit(code[i]) {
        circle := DigitValue(code[i]);
        i := i + 1;
        if i >= |code| {
          return Err(DigitAtEnd);
        }
      }
      if code[i] !in positions {
        return Err(BadLetter);
      }
      var group := Binary(circle * 52 + positions[code[i]], 9);
      bits := bits + group;
      i := i + 1;
      assert Ungroup(code[from..]) == Prepend(group, Ungroup(code[i..]));
      PrependTwice(sofar, group, Ungroup(code[i..]));
    }
    assert code[i..] == [];
    assert bits + [] == bits;
    bits := Skip(bits, pad);
    digits := Digits(bits);
  }

  lemma {:induction false} PrependNothing(rest: Outcome<Bits>)
    ensures Prepend([], rest) == rest
  {
    if rest.Ok? {
      assert [] + rest.value == rest.value;
    }
  }

  lemma {:induction false} PrependTwice(a: Bits, b: Bits, rest: Outcome<Bits>)
    ensures Prepend(a, Prepend(b, rest)) == Prepend(a + b, rest)
  {
    if rest.Ok? {
      assert a + (b + rest.value) == (a + b) + rest.value;
    }
  }

  // The last loop of `de`: a group above nine makes `from_digit(..).expect(..)` panic.
  method Digits(bits: Bits) returns (digits: Outcome<string>)
    ensures digits == Decimal(bits)
  {
    hide Value;
    var out: string := [];
    var k := 0;
    assert bits[0..] == bits && (Decimal(bits).Ok? ==> [] + Decimal(bits).value == Decimal(bits).value);
    while k < |bits|
      invariant k <= |bits|
      invariant Decimal(bits[k..]).Panic? ==> Decimal(bits).Panic?
      invariant Decimal(bits[k..]).Ok? ==> Decimal(bits) == Ok(out + Decimal(bits[k..]).value)
    {
      var n := if |bits| - k < 4 then |bits| - k else 4;
      assert bits[k..][..n] == bits[k..k + n] && bits[k..][n..] == bits[k + n..];
      var d := Value(bits[k..k + n]);
      if d >= 10 {
        return Panic;
      }
      if Decimal(bits[k + n..]).Ok? {
        Assoc(out, [DigitChar(d)], Decimal(bits[k + n..]).value);
      }
      out := out + [DigitChar(d)];
      k := k + n;
    }
    assert bits[k..] == [] && out + [] == out;
    digits := Ok(out);
  }
}
