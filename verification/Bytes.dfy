/** Byte strings and the searches, splits and number parses the HTTP parser is made of. */
module Bytes {
  import opened Wrappers

  newtype byte = x: int | 0 <= x < 256

  type Bytes = seq<byte>

  const CR: byte := 13
  const LF: byte := 10
  const SP: byte := 32
  const COLON: byte := 58
  const CRLF: Bytes := [13, 10]
  const CRLFCRLF: Bytes := [13, 10, 13, 10]

  /** usize::MAX + 1 on a 64-bit target. */
  const USIZE_LIMIT: nat := 0x1_0000_0000_0000_0000

  predicate At(b: Bytes, i: nat, pattern: Bytes) {
    i + |pattern| <= |b| && b[i..i + |pattern|] == pattern
  }

  /** The first place, from `i` on, where the pattern stands. */
  function FindFrom(b: Bytes, pattern: Bytes, i: nat): (r: Option<nat>)
    requires i <= |b| && |pattern| > 0
    ensures r.Some? ==> i <= r.value && r.value + |pattern| <= |b|
    decreases |b| - i
  {
    if i == |b| then None
    else if At(b, i, pattern) then Some(i)
    else FindFrom(b, pattern, i + 1)
  }

  /** `windows(n).position(..)` */
  function Find(b: Bytes, pattern: Bytes): (r: Option<nat>)
    requires |pattern| > 0
    ensures r.Some? ==> r.value + |pattern| <= |b|
  {
    FindFrom(b, pattern, 0)
  }

  /** What makes it the first match, or says that there is none. */
  lemma {:induction false} FindFromIsFirst(b: Bytes, pattern: Bytes, i: nat)
    requires i <= |b| && |pattern| > 0
    ensures var r := FindFrom(b, pattern, i);
            && (r.Some? ==> At(b, r.value, pattern) && forall j | i <= j < r.value :: !At(b, j, pattern))
            && (r.None? ==> forall j | i <= j :: !At(b, j, pattern))
    decreases |b| - i
  {
    if i < |b| && !At(b, i, pattern) {
      FindFromIsFirst(b, pattern, i + 1);
    }
  }

  lemma FindIsFirst(b: Bytes, pattern: Bytes)
    requires |pattern| > 0
    ensures var r := Find(b, pattern);
            && (r.Some? ==> At(b, r.value, pattern) && forall j | 0 <= j < r.value :: !At(b, j, pattern))
            && (r.None? ==> forall j: nat :: !At(b, j, pattern))
  {
    FindFromIsFirst(b, pattern, 0);
  }

  predicate Contains(b: Bytes, pattern: Bytes)
    requires |pattern| > 0
  {
    Find(b, pattern).Some?
  }

  /** The first match is determined by being a match with none before it. */
  lemma FindIs(b: Bytes, pattern: Bytes, k: nat)
    requires |pattern| > 0 && At(b, k, pattern)
    requires forall j | 0 <= j < k :: !At(b, j, pattern)
    ensures Find(b, pattern) == Some(k)
  {
    FindIsFirst(b, pattern);
  }

  lemma FindIsNone(b: Bytes, pattern: Bytes)
    requires |pattern| > 0
    requires forall j: nat :: !At(b, j, pattern)
    ensures Find(b, pattern).None?
  {
    FindIsFirst(b, pattern);
  }

  /** A match inside a prefix is the match in the whole. */
  lemma FindInPrefix(b: Bytes, pattern: Bytes, n: nat)
    requires |pattern| > 0 && n <= |b|
    ensures Find(b[..n], pattern).Some? ==> Find(b, pattern) == Find(b[..n], pattern)
    ensures Find(b, pattern).Some? && Find(b, pattern).value + |pattern| <= n ==> Find(b[..n], pattern) == Find(b, pattern)
  {
    forall j: nat | j + |pattern| <= n ensures At(b[..n], j, pattern) <==> At(b, j, pattern) {
      assert b[..n][j..j + |pattern|] == b[j..j + |pattern|];
    }
    FindIsFirst(b[..n], pattern);
    FindIsFirst(b, pattern);
    if Find(b[..n], pattern).Some? {
      FindIs(b, pattern, Find(b[..n], pattern).value);
    } else if Find(b, pattern).Some? {
      assert !At(b[..n], Find(b, pattern).value, pattern);
    }
  }

  /** Nothing matches across `x`: the search goes on behind it. */
  lemma FindBehind(x: Bytes, rest: Bytes, pattern: Bytes)
    requires |pattern| > 0
    requires forall j | 0 <= j < |x| :: !At(x + rest, j, pattern)
    ensures Find(x + rest, pattern) == if Find(rest, pattern).None? then None else Some(|x| + Find(rest, pattern).value)
  {
    var b := x + rest;
    forall j: nat ensures At(b, |x| + j, pattern) <==> At(rest, j, pattern) {
      if j + |pattern| <= |rest| {
        assert b[|x| + j..|x| + j + |pattern|] == rest[j..j + |pattern|];
      }
    }
    FindIsFirst(rest, pattern);
    if Find(rest, pattern).Some? {
      var k := Find(rest, pattern).value;
      forall j | 0 <= j < |x| + k ensures !At(b, j, pattern) {
        if j >= |x| {
          assert !At(rest, j - |x|, pattern);
        }
      }
      FindIs(b, pattern, |x| + k);
    } else {
      forall j: nat ensures !At(b, j, pattern) {
        if j >= |x| {
          assert !At(rest, j - |x|, pattern);
        }
      }
      FindIsNone(b, pattern);
    }
  }

  lemma MatchStartsWith(b: Bytes, j: nat, pattern: Bytes)
    requires |pattern| > 0
    ensures At(b, j, pattern) ==> b[j] == pattern[0]
  {
    if At(b, j, pattern) {
      assert b[j..j + |pattern|][0] == b[j];
    }
  }

  /** No match starts where the pattern's first byte is absent. */
  lemma FindBehindFree(x: Bytes, rest: Bytes, pattern: Bytes)
    requires |pattern| > 0 && pattern[0] !in x
    ensures Find(x + rest, pattern) == if Find(rest, pattern).None? then None else Some(|x| + Find(rest, pattern).value)
  {
    forall j | 0 <= j < |x| ensures !At(x + rest, j, pattern) {
      MatchStartsWith(x + rest, j, pattern);
      assert (x + rest)[j] == x[j];
    }
    FindBehind(x, rest, pattern);
  }

  /** A line without CRLF inside ends at the CRLF written behind it. */
  lemma FindLineEnd(line: Bytes, rest: Bytes)
    requires Find(line, CRLF).None?
    ensures Find(line + CRLF + rest, CRLF) == Some(|line|)
  {
    var b := line + CRLF + rest;
    assert b[|line|..|line| + 2] == CRLF;
    FindIsFirst(line, CRLF);
    forall j | 0 <= j < |line| ensures !At(b, j, CRLF) {
      if j + 2 <= |line| {
        assert b[j..j + 2] == line[j..j + 2];
        assert !At(line, j, CRLF);
      } else {
        assert b[j..j + 2][1] == CR;
      }
    }
    FindIs(b, CRLF, |line|);
  }

  lemma FreeOfCr(line: Bytes)
    requires CR !in line
    ensures Find(line, CRLF).None? && Find(line, CRLFCRLF).None?
  {
    assert line == line + [];
    FindIsNone([], CRLF);
    FindIsNone([], CRLFCRLF);
    FindBehindFree(line, [], CRLF);
    FindBehindFree(line, [], CRLFCRLF);
  }

  // ----- splitting -----

  /** `split(separator)`: pieces between non-overlapping separators, left to right. */
  function Split(b: Bytes, separator: Bytes): (pieces: seq<Bytes>)
    requires |separator| > 0
    ensures |pieces| > 0
    decreases |b|
  {
    match Find(b, separator)
    case None => [b]
    case Some(i) => [b[..i]] + Split(b[i + |separator|..], separator)
  }

  function Join(pieces: seq<Bytes>, separator: Bytes): Bytes {
    if |pieces| == 0 then []
    else if |pieces| == 1 then pieces[0]
    else pieces[0] + separator + Join(pieces[1..], separator)
  }

  /** Splitting undoes joining when no piece holds the separator's first byte. */
  lemma {:induction false} SplitJoin(pieces: seq<Bytes>, separator: Bytes)
    requires |separator| > 0 && |pieces| > 0
    requires forall p <- pieces :: separator[0] !in p
    ensures Split(Join(pieces, separator), separator) == pieces
  {
    var head := pieces[0];
    assert head in pieces;
    if |pieces| == 1 {
      assert head == head + [];
      FindIsNone([], separator);
      FindBehindFree(head, [], separator);
    } else {
      var tail := Join(pieces[1..], separator);
      var b := Join(pieces, separator);
      assert b == head + (separator + tail);
      FindBehindFree(head, separator + tail, separator);
      assert (separator + tail)[0..|separator|] == separator;
      FindIs(separator + tail, separator, 0);
      assert b[..|head|] == head && b[|head| + |separator|..] == tail;
      SplitJoin(pieces[1..], separator);
    }
  }

  /** Joining undoes splitting, always. */
  lemma {:induction false} JoinSplit(b: Bytes, separator: Bytes)
    requires |separator| > 0
    ensures Join(Split(b, separator), separator) == b
    decreases |b|
  {
    if Find(b, separator).Some? {
      var i := Find(b, separator).value;
      FindIsFirst(b, separator);
      JoinSplit(b[i + |separator|..], separator);
      assert b == b[..i] + separator + b[i + |separator|..];
    }
  }

  // ----- letters and numbers -----

  function LowerByte(c: byte): byte {
    if 65 <= c <= 90 then c + 32 else c
  }

  function Lower(b: Bytes): (r: Bytes)
    ensures |r| == |b| && forall i :: 0 <= i < |b| ==> r[i] == LowerByte(b[i])
  {
    seq(|b|, i requires 0 <= i < |b| => LowerByte(b[i]))
  }

  /** The bytes of an ASCII text. */
  function Ascii(text: string): (b: Bytes)
    requires forall c <- text :: c < 128 as char
    ensures |b| == |text| && forall i :: 0 <= i < |b| ==> b[i] as char == text[i]
  {
    seq(|text|, i requires 0 <= i < |text| => assert text[i] in text; text[i] as byte)
  }

  /** `key` is `name` but for the case of letters, and has no capital letter itself. */
  predicate Names(name: Bytes, key: Bytes) {
    |name| == |key| && forall i :: 0 <= i < |key| ==> !(65 <= key[i] <= 90) && SameLetter(name[i], key[i])
  }

  /** The same byte, or `small` is the small letter to the capital letter `c`. */
  predicate SameLetter(c: byte, small: byte) {
    c == small || (65 <= c <= 90 && small == c + 32)
  }

  /** Lowering a name gives the one key that it names. */
  lemma LowerIsKey(name: Bytes, key: Bytes)
    ensures Lower(name) == key <==> Names(name, key)
  {
    if Names(name, key) {
      assert forall i | 0 <= i < |key| :: Lower(name)[i] == key[i];
    }
  }

  /** The text `small`, in letters of any case, stands somewhere in `b`. */
  predicate Mentions(b: Bytes, small: Bytes) {
    exists i :: 0 <= i <= |b| && NamedAt(b, i, small)
  }

  predicate NamedAt(b: Bytes, i: nat, small: Bytes) {
    i + |small| <= |b| && Names(b[i..i + |small|], small)
  }

  lemma LowerMentions(b: Bytes, small: Bytes)
    requires |small| > 0
    ensures Contains(Lower(b), small) <==> Mentions(b, small)
  {
    forall i: nat ensures At(Lower(b), i, small) <==> NamedAt(b, i, small) {
      if i + |small| <= |b| {
        LowerIsKey(b[i..i + |small|], small);
        assert Lower(b)[i..i + |small|] == Lower(b[i..i + |small|]);
      }
    }
    FindIsFirst(Lower(b), small);
  }

  function DigitOf(c: byte, radix: nat): Option<nat> {
    var d: int :=
      if 48 <= c <= 57 then c as int - 48
      else if 97 <= c <= 122 then c as int - 87
      else if 65 <= c <= 90 then c as int - 55
      else -1;
    if 0 <= d < radix then Some(d) else None
  }

  function DigitsValue(b: Bytes, radix: nat): Option<nat> {
    if b == [] then Some(0)
    else
      match (DigitsValue(b[..|b| - 1], radix), DigitOf(b[|b| - 1], radix))
      case (Some(high), Some(low)) => Some(high * radix + low)
      case _ => None
  }

  /** `usize::from_str_radix`: an optional '+', at least one digit, and a value that fits. */
  function ParseUnsigned(b: Bytes, radix: nat): (r: Option<nat>)
    ensures r.Some? ==> r.value < USIZE_LIMIT
  {
    var digits := if |b| > 0 && b[0] == 43 then b[1..] else b;
    if digits == [] then None
    else
      match DigitsValue(digits, radix)
      case Some(n) => if n < USIZE_LIMIT then Some(n) else None
      case None => None
  }

  function DigitByte(d: nat): byte
    requires d < 16
  {
    if d < 10 then (48 + d) as byte else (87 + d) as byte
  }

  /** The shortest lower-case digits of `n`. */
  function Print(n: nat, radix: nat): (b: Bytes)
    requires radix == 10 || radix == 16
    ensures b != []
    decreases n
  {
    if n < radix then [DigitByte(n)] else Print(n / radix, radix) + [DigitByte(n % radix)]
  }

  lemma DigitOfByte(d: nat, radix: nat)
    requires d < radix <= 16
    ensures DigitOf(DigitByte(d), radix) == Some(d)
  {
  }

  lemma Quotient(n: nat, radix: nat)
    requires radix == 10 || radix == 16
    ensures n / radix * radix + n % radix == n
    ensures n >= radix ==> n / radix < n
  {
    if radix == 10 {
      assert n / 10 * 10 + n % 10 == n;
    } else {
      assert n / 16 * 16 + n % 16 == n;
    }
  }

  lemma {:induction false} DigitsOfPrint(n: nat, radix: nat)
    requires radix == 10 || radix == 16
    ensures DigitsValue(Print(n, radix), radix) == Some(n)
    ensures forall c <- Print(n, radix) :: DigitOf(c, radix).Some?
    decreases n
  {
    var b := Print(n, radix);
    if n < radix {
      DigitOfByte(n, radix);
      assert b[..|b| - 1] == [];
    } else {
      var high, low := n / radix, n % radix;
      Quotient(n, radix);
      DigitOfByte(low, radix);
      DigitsOfPrint(high, radix);
      assert b[..|b| - 1] == Print(high, radix) && b[|b| - 1] == DigitByte(low);
    }
  }

  /** No leading zero, but for the zero itself, and small digits. */
  lemma {:induction false} PrintIsShortest(n: nat, radix: nat)
    requires radix == 10 || radix == 16
    ensures Print(n, radix)[0] as char == '0' <==> n == 0
    ensures |Print(n, radix)| == 1 <==> n < radix
    ensures forall c <- Print(n, radix) :: c as char in "0123456789abcdef"
    decreases n
  {
    if n >= radix {
      Quotient(n, radix);
      PrintIsShortest(n / radix, radix);
    }
  }

  /** Printing a number and parsing it back gives the number. */
  lemma ParsePrint(n: nat, radix: nat)
    requires (radix == 10 || radix == 16) && n < USIZE_LIMIT
    ensures ParseUnsigned(Print(n, radix), radix) == Some(n)
    ensures forall c <- Print(n, radix) :: DigitOf(c, radix).Some?
  {
    DigitsOfPrint(n, radix);
    var b := Print(n, radix);
    assert b[0] in b && DigitOf(43, radix).None?;
  }

  // ----- what a text of digits denotes -----

  /** `c` is written for the digit `d`, in either case. */
  predicate IsDigit(c: byte, d: nat) {
    d < 16 && (c as char == "0123456789abcdef"[d] || c as char == "0123456789ABCDEF"[d])
  }

  predicate Spells(b: Bytes, digits: seq<nat>, radix: nat) {
    |b| == |digits| && forall i :: 0 <= i < |b| ==> digits[i] < radix && IsDigit(b[i], digits[i])
  }

  function Power(radix: nat, n: nat): nat {
    if n == 0 then 1 else radix * Power(radix, n - 1)
  }

  /** The sum of the digits, each times its power of the radix. */
  function Positional(digits: seq<nat>, radix: nat): nat {
    if digits == [] then 0 else digits[0] * Power(radix, |digits| - 1) + Positional(digits[1..], radix)
  }

  /** A number: digits, at least one, perhaps behind a '+'. */
  ghost predicate Denotes(b: Bytes, radix: nat, n: nat) {
    exists digits: seq<nat> :: IsNumeral(b, digits, radix) && Positional(digits, radix) == n
  }

  predicate IsNumeral(b: Bytes, digits: seq<nat>, radix: nat) {
    digits != [] && (Spells(b, digits, radix) || (b != [] && b[0] as char == '+' && Spells(b[1..], digits, radix)))
  }

  lemma DigitIs(c: byte, radix: nat, d: nat)
    requires radix <= 16
    ensures DigitOf(c, radix) == Some(d) <==> d < radix && IsDigit(c, d)
  {
  }

  lemma {:induction false} PositionalLast(digits: seq<nat>, last: nat, radix: nat)
    ensures Positional(digits + [last], radix) == Positional(digits, radix) * radix + last
  {
    var more := digits + [last];
    if digits != [] {
      assert more[1..] == digits[1..] + [last];
      PositionalLast(digits[1..], last, radix);
      Regroup(digits[0], Power(radix, |digits| - 1), Positional(digits[1..], radix), radix);
    }
  }

  lemma Regroup(a: nat, p: nat, b: nat, radix: nat)
    ensures a * (radix * p) + (b * radix) == (a * p + b) * radix
  {
  }

  /** Digit by digit from the right, the value is the positional one, and each digit has one value. */
  lemma {:induction false} DigitsDenote(b: Bytes, digits: seq<nat>, radix: nat)
    requires radix <= 16 && Spells(b, digits, radix)
    ensures DigitsValue(b, radix) == Some(Positional(digits, radix))
  {
    if b != [] {
      var n := |b| - 1;
      DigitIs(b[n], radix, digits[n]);
      DigitsDenote(b[..n], digits[..n], radix);
      assert digits == digits[..n] + [digits[n]];
      PositionalLast(digits[..n], digits[n], radix);
    }
  }

  lemma {:induction false} DigitsOf(b: Bytes, radix: nat) returns (digits: seq<nat>)
    requires radix <= 16 && DigitsValue(b, radix).Some?
    ensures Spells(b, digits, radix)
  {
    digits := [];
    if b != [] {
      var n := |b| - 1;
      digits := DigitsOf(b[..n], radix);
      DigitIs(b[n], radix, DigitOf(b[n], radix).value);
      digits := digits + [DigitOf(b[n], radix).value];
      assert forall i | 0 <= i < n :: b[..n][i] == b[i];
    }
  }

  /** The digits behind the optional '+'. */
  function Unsigned(b: Bytes): Bytes {
    if |b| > 0 && b[0] == 43 then b[1..] else b
  }

  lemma NumeralDenotes(b: Bytes, digits: seq<nat>, radix: nat)
    requires radix <= 16 && IsNumeral(b, digits, radix)
    ensures Unsigned(b) != [] && DigitsValue(Unsigned(b), radix) == Some(Positional(digits, radix))
  {
    if Spells(b, digits, radix) {
      DigitIs(b[0], 16, digits[0]);
      assert Unsigned(b) == b;
    }
    DigitsDenote(Unsigned(b), digits, radix);
  }

  lemma NumeralOf(b: Bytes, radix: nat) returns (digits: seq<nat>)
    requires radix <= 16 && Unsigned(b) != [] && DigitsValue(Unsigned(b), radix).Some?
    ensures IsNumeral(b, digits, radix) && DigitsValue(Unsigned(b), radix) == Some(Positional(digits, radix))
  {
    digits := DigitsOf(Unsigned(b), radix);
    DigitsDenote(Unsigned(b), digits, radix);
  }

  /** A text is parsed exactly if it is a numeral of the radix and the value fits, and then to that value. */
  lemma ParsesIff(b: Bytes, radix: nat, n: nat)
    requires radix <= 16
    ensures ParseUnsigned(b, radix) == Some(n) <==> n < USIZE_LIMIT && Denotes(b, radix, n)
  {
    if ParseUnsigned(b, radix) == Some(n) {
      var digits := NumeralOf(b, radix);
      assert IsNumeral(b, digits, radix) && Positional(digits, radix) == n;
    }
    if Denotes(b, radix, n) {
      var digits :| IsNumeral(b, digits, radix) && Positional(digits, radix) == n;
      NumeralDenotes(b, digits, radix);
    }
  }

  predicate IsSpace(c: byte) {
    c == 32 || 9 <= c <= 13
  }

  function TrimStart(b: Bytes): Bytes {
    if b != [] && IsSpace(b[0]) then TrimStart(b[1..]) else b
  }

  function TrimEnd(b: Bytes): Bytes {
    if b != [] && IsSpace(b[|b| - 1]) then TrimEnd(b[..|b| - 1]) else b
  }

  function Trim(b: Bytes): Bytes {
    TrimEnd(TrimStart(b))
  }

  predicate IsBlank(c: byte) {
    c as char in " \t\n\r\U{b}\U{c}"
  }

  predicate Blank(b: Bytes) {
    forall c <- b :: IsBlank(c)
  }

  lemma BlankIsSpace(c: byte)
    ensures IsBlank(c) <==> IsSpace(c)
  {
  }

  /** Blanks, a number, blanks. */
  ghost predicate PaddedNumber(b: Bytes, radix: nat, n: nat) {
    exists i: nat, j: nat :: PaddedAt(b, i, j, radix, n)
  }

  ghost predicate PaddedAt(b: Bytes, i: nat, j: nat, radix: nat, n: nat) {
    i <= j <= |b| && Blank(b[..i]) && Blank(b[j..]) && Denotes(b[i..j], radix, n)
  }

  lemma {:induction false} TrimStartCuts(b: Bytes) returns (i: nat)
    ensures i <= |b| && TrimStart(b) == b[i..] && Blank(b[..i])
  {
    i := 0;
    if b != [] && IsSpace(b[0]) {
      i := TrimStartCuts(b[1..]);
      BlankIsSpace(b[0]);
      assert b[..i + 1] == [b[0]] + b[1..][..i] && b[1..][i..] == b[i + 1..];
      i := i + 1;
    }
  }

  lemma {:induction false} TrimEndCuts(b: Bytes) returns (j: nat)
    ensures j <= |b| && TrimEnd(b) == b[..j] && Blank(b[j..])
  {
    j := |b|;
    if b != [] && IsSpace(b[|b| - 1]) {
      var n := |b| - 1;
      j := TrimEndCuts(b[..n]);
      BlankIsSpace(b[n]);
      assert b[j..] == b[..n][j..] + [b[n]] && b[..n][..j] == b[..j];
    }
  }

  lemma {:induction false} TrimStartOf(pad: Bytes, b: Bytes)
    requires Blank(pad) && b != [] && !IsSpace(b[0])
    ensures TrimStart(pad + b) == b
  {
    if pad == [] {
      assert pad + b == b;
    } else {
      BlankIsSpace(pad[0]);
      assert pad[0] in pad && (pad + b)[1..] == pad[1..] + b && forall c <- pad[1..] :: c in pad;
      TrimStartOf(pad[1..], b);
    }
  }

  lemma {:induction false} TrimEndOf(b: Bytes, pad: Bytes)
    requires Blank(pad) && b != [] && !IsSpace(b[|b| - 1])
    ensures TrimEnd(b + pad) == b
  {
    if pad == [] {
      assert b + pad == b;
    } else {
      var n := |pad| - 1;
      BlankIsSpace(pad[n]);
      assert pad[n] in pad && (b + pad)[..|b| + n] == b + pad[..n] && forall c <- pad[..n] :: c in pad;
      TrimEndOf(b, pad[..n]);
    }
  }

  lemma DigitIsPlain(c: byte, d: nat)
    requires IsDigit(c, d)
    ensures !IsSpace(c)
  {
    DigitIs(c, 16, d);
  }

  lemma SpelledEnds(b: Bytes, digits: seq<nat>, radix: nat)
    requires Spells(b, digits, radix) && b != []
    ensures !IsSpace(b[0]) && !IsSpace(b[|b| - 1])
  {
    DigitIsPlain(b[0], digits[0]);
    DigitIsPlain(b[|b| - 1], digits[|b| - 1]);
  }

  /** A numeral has no blank at its ends. */
  lemma NumeralEnds(b: Bytes, digits: seq<nat>, radix: nat)
    requires IsNumeral(b, digits, radix)
    ensures b != [] && !IsSpace(b[0]) && !IsSpace(b[|b| - 1])
  {
    if Spells(b, digits, radix) {
      SpelledEnds(b, digits, radix);
    } else {
      SpelledEnds(b[1..], digits, radix);
    }
  }

  lemma TrimCuts(b: Bytes) returns (i: nat, j: nat)
    ensures i <= j <= |b| && Trim(b) == b[i..j] && Blank(b[..i]) && Blank(b[j..])
  {
    i := TrimStartCuts(b);
    j := TrimEndCuts(b[i..]);
    assert b[i..][..j] == b[i..i + j] && b[i..][j..] == b[i + j..];
    j := i + j;
  }

  lemma TrimOf(front: Bytes, b: Bytes, back: Bytes)
    requires Blank(front) && Blank(back) && b != [] && !IsSpace(b[0]) && !IsSpace(b[|b| - 1])
    ensures Trim(front + (b + back)) == b
  {
    assert (b + back)[0] == b[0];
    TrimStartOf(front, b + back);
    TrimEndOf(b, back);
  }

  lemma PaddedIsTrimmed(b: Bytes, radix: nat, n: nat)
    ensures PaddedNumber(b, radix, n) <==> Denotes(Trim(b), radix, n)
  {
    if Denotes(Trim(b), radix, n) {
      var i, j := TrimCuts(b);
      assert PaddedAt(b, i, j, radix, n);
    }
    if PaddedNumber(b, radix, n) {
      var i: nat, j: nat :| PaddedAt(b, i, j, radix, n);
      PaddedTrims(b, i, j, radix, n);
    }
  }

  lemma PaddedTrims(b: Bytes, i: nat, j: nat, radix: nat, n: nat)
    requires PaddedAt(b, i, j, radix, n)
    ensures Trim(b) == b[i..j]
  {
    var digits :| IsNumeral(b[i..j], digits, radix) && Positional(digits, radix) == n;
    NumeralEnds(b[i..j], digits, radix);
    assert b == b[..i] + (b[i..j] + b[j..]);
    TrimOf(b[..i], b[i..j], b[j..]);
  }

  /** A trimmed text is parsed exactly if it is a number between blanks, and the value fits. */
  lemma TrimmedParsesIff(b: Bytes, radix: nat, n: nat)
    requires radix <= 16
    ensures ParseUnsigned(Trim(b), radix) == Some(n) <==> n < USIZE_LIMIT && PaddedNumber(b, radix, n)
  {
    ParsesIff(Trim(b), radix, n);
    PaddedIsTrimmed(b, radix, n);
  }
}
