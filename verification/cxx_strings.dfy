/** The C++ library functions on strings that the server's code relies on:
    decimal conversion, searching for a character, splitting and joining. */
module CxxStrings {

  datatype Option<+T> = None | Some(value: T)

  const INT_MAX: int := 0x7FFF_FFFF
  const INT_MIN: int := -0x8000_0000

  predicate IsDigit(c: char) {
    '0' <= c <= '9'
  }

  predicate IsSpace(c: char) {
    c == ' ' || c == '\t' || c == '\n' || c == '\r' || c == '\U{0B}' || c == '\U{0C}'
  }

  function DigitValue(c: char): (d: nat)
    requires IsDigit(c)
    ensures d < 10
  {
    (c - '0') as int
  }

  function DigitChar(d: nat): (c: char)
    requires d < 10
    ensures IsDigit(c) && DigitValue(c) == d
  {
    '0' + d as char
  }

  predicate AllDigits(s: string) {
    forall i :: 0 <= i < |s| ==> IsDigit(s[i])
  }

  /** The number a string of digits denotes. */
  function DecimalValue(s: string): nat
    requires AllDigits(s)
  {
    if s == "" then 0 else DecimalValue(s[..|s| - 1]) * 10 + DigitValue(s[|s| - 1])
  }

  /** `std::to_string` on a number that is not negative. */
  function ToDecimal(n: nat): string {
    if n < 10 then [DigitChar(n)] else ToDecimal(n / 10) + [DigitChar(n % 10)]
  }

  lemma {:induction false} DecimalDigits(n: nat)
    ensures ToDecimal(n) != "" && AllDigits(ToDecimal(n)) && DecimalValue(ToDecimal(n)) == n
  {
    if n >= 10 {
      DecimalDigits(n / 10);
      assert ToDecimal(n)[..|ToDecimal(n)| - 1] == ToDecimal(n / 10);
    } else {
      assert ToDecimal(n)[..0] == "";
    }
  }

  /** `std::to_string` */
  function ToString(n: int): string {
    if n < 0 then "-" + ToDecimal(-n) else ToDecimal(n)
  }

  function SkipSpaces(s: string): string {
    if s != "" && IsSpace(s[0]) then SkipSpaces(s[1..]) else s
  }

  /** The longest prefix made of digits. */
  function DigitPrefix(s: string): (p: string)
    ensures AllDigits(p)
  {
    if s != "" && IsDigit(s[0]) then [s[0]] + DigitPrefix(s[1..]) else ""
  }

  /** The number that digits and a sign stand for, if it fits an int. */
  function SignedValue(negative: bool, digits: string): Option<int>
    requires AllDigits(digits)
  {
    if digits == "" then None else
      var m: int := DecimalValue(digits);
      var v := if negative then -m else m;
      if INT_MIN <= v <= INT_MAX then Some(v) else None
  }

  /** `std::stoi`: blanks and a sign may come first, anything may follow the digits;
      `None` where it throws `invalid_argument` or `out_of_range`. */
  function Stoi(s: string): Option<int> {
    var t := SkipSpaces(s);
    if t != "" && t[0] == '-' then SignedValue(true, DigitPrefix(t[1..]))
    else SignedValue(false, DigitPrefix(if t != "" && t[0] == '+' then t[1..] else t))
  }

  lemma {:induction false} DigitPrefixWhole(s: string)
    requires AllDigits(s)
    ensures DigitPrefix(s) == s
  {
    if s != "" {
      DigitPrefixWhole(s[1..]);
    }
  }

  /** On a string of digits `stoi` fails exactly when the number does not fit an int. */
  lemma StoiOfDigits(s: string)
    requires s != "" && AllDigits(s)
    ensures Stoi(s) == if DecimalValue(s) <= INT_MAX then Some(DecimalValue(s)) else None
  {
    DigitPrefixWhole(s);
  }

  /** `stoi` undoes `to_string`. */
  lemma StoiOfDecimal(n: nat)
    requires n <= INT_MAX
    ensures Stoi(ToDecimal(n)) == Some(n)
  {
    DecimalDigits(n);
    StoiOfDigits(ToDecimal(n));
  }

  /** `find_last_of` on one character; -1 stands for npos. */
  function FindLast(s: string, c: char): (p: int)
    ensures -1 <= p < |s|
  {
    if s == "" then -1
    else if s[|s| - 1] == c then |s| - 1
    else FindLast(s[..|s| - 1], c)
  }

  lemma {:induction false} FindLastIsLast(s: string, c: char)
    ensures var p := FindLast(s, c);
            && (p >= 0 ==> s[p] == c)
            && (forall i :: p < i < |s| ==> s[i] != c)
    decreases |s|
  {
    if s != "" && s[|s| - 1] != c {
      FindLastIsLast(s[..|s| - 1], c);
    }
  }

  /** `boost::split` on one separator, adjacent separators not merged. */
  function Split(s: string, c: char): (pieces: seq<string>)
    ensures pieces != []
  {
    if s == "" then [""]
    else
      var tail := Split(s[1..], c);
      if s[0] == c then [""] + tail else [[s[0]] + tail[0]] + tail[1..]
  }

  /** `boost::algorithm::join` */
  function Join(pieces: seq<string>, separator: string): string {
    if |pieces| == 0 then ""
    else if |pieces| == 1 then pieces[0]
    else pieces[0] + separator + Join(pieces[1..], separator)
  }

  lemma {:induction false} SplitPrefix(p: string, s: string, c: char)
    requires c !in p
    ensures Split(p + s, c) == [p + Split(s, c)[0]] + Split(s, c)[1..]
  {
    if p == "" {
      assert p + s == s;
      assert p + Split(s, c)[0] == Split(s, c)[0];
    } else {
      assert (p + s)[1..] == p[1..] + s;
      assert c != p[0];
      SplitPrefix(p[1..], s, c);
      assert [p[0]] + (p[1..] + Split(s, c)[0]) == p + Split(s, c)[0];
    }
  }

  /** Splitting undoes joining when no piece holds the separator. */
  lemma {:induction false} SplitJoin(pieces: seq<string>, c: char)
    requires pieces != []
    requires forall i :: 0 <= i < |pieces| ==> c !in pieces[i]
    ensures Split(Join(pieces, [c]), c) == pieces
  {
    if |pieces| == 1 {
      assert pieces[0] + "" == pieces[0];
      SplitPrefix(pieces[0], "", c);
      assert [pieces[0] + ""] + [] == pieces;
    } else {
      var rest := Join(pieces[1..], [c]);
      SplitJoin(pieces[1..], c);
      assert pieces[0] + [c] + rest == pieces[0] + ([c] + rest);
      SplitPrefix(pieces[0], [c] + rest, c);
      assert ([c] + rest)[1..] == rest;
      assert Split([c] + rest, c) == [""] + pieces[1..];
      assert pieces[0] + "" == pieces[0];
      assert [pieces[0]] + pieces[1..] == pieces;
    }
  }

  /** No piece of a split holds the separator. */
  lemma {:induction false} SplitPiecesClean(s: string, c: char)
    ensures forall i :: 0 <= i < |Split(s, c)| ==> c !in Split(s, c)[i]
  {
    if s != "" {
      SplitPiecesClean(s[1..], c);
    }
  }

  lemma Reassociate<T>(a: seq<T>, b: seq<T>, c: seq<T>)
    ensures a + (b + c) == a + b + c
  {
  }

  // ---------- numbers, character by character ----------

  /** Every digit more multiplies by ten. */
  lemma DecimalSnoc(s: string, c: char)
    requires AllDigits(s) && '0' <= c <= '9'
    ensures AllDigits(s + [c]) && DecimalValue(s + [c]) == 10 * DecimalValue(s) + (c as int - '0' as int)
    ensures DecimalValue("") == 0
  {
    assert (s + [c])[..|s|] == s;
  }

  /** `to_string` writes no leading zero. */
  lemma {:induction false} NoLeadingZero(n: nat)
    ensures |ToDecimal(n)| > 1 ==> ToDecimal(n)[0] != '0'
    ensures n > 0 ==> ToDecimal(n)[0] != '0'
  {
    if n >= 10 {
      NoLeadingZero(n / 10);
      DecimalDigits(n / 10);
    } else if n > 0 {
      DigitNotZero(n);
    }
  }

  lemma DigitNotZero(d: nat)
    requires 0 < d < 10
    ensures DigitChar(d) != '0'
  {
    assert DigitValue('0') == 0;
  }

  /** What `stoi` skips in front of a number. */
  predicate AllBlank(s: string) {
    forall i :: 0 <= i < |s| ==>
      s[i] == ' ' || s[i] == '\t' || s[i] == '\n' || s[i] == '\r' || s[i] == '\U{0B}' || s[i] == '\U{0C}'
  }

  lemma {:induction false} SkipsBlanks(blanks: string, s: string)
    requires AllBlank(blanks) && (s == "" || !IsSpace(s[0]))
    ensures SkipSpaces(blanks + s) == s
    decreases |blanks|
  {
    if blanks == "" {
      assert blanks + s == s;
    } else {
      assert (blanks + s)[1..] == blanks[1..] + s;
      SkipsBlanks(blanks[1..], s);
    }
  }

  lemma {:induction false} DigitsEnd(digits: string, rest: string)
    requires AllDigits(digits) && (rest == "" || !('0' <= rest[0] <= '9'))
    ensures DigitPrefix(digits + rest) == digits
    decreases |digits|
  {
    if digits == "" {
      assert digits + rest == rest;
    } else {
      assert (digits + rest)[1..] == digits[1..] + rest;
      DigitsEnd(digits[1..], rest);
    }
  }

  /** A number that fits an int is the value, any other is out of range. */
  lemma SignedRange(negative: bool, digits: string)
    requires digits != "" && AllDigits(digits)
    ensures var m: int := DecimalValue(digits);
            var v := if negative then -m else m;
            SignedValue(negative, digits) == if -2147483648 <= v <= 2147483647 then Some(v) else None
  {
  }

  lemma StoiAtDigit(s: string, number: string, digits: string)
    requires SkipSpaces(s) == number && number != "" && '0' <= number[0] <= '9' && DigitPrefix(number) == digits
    ensures Stoi(s) == SignedValue(false, digits)
  {
  }

  lemma StoiAtSign(s: string, t: string, sign: char, number: string, digits: string)
    requires SkipSpaces(s) == t && t != "" && t[0] == sign && t[1..] == number && DigitPrefix(number) == digits
    requires sign == '+' || sign == '-'
    ensures Stoi(s) == SignedValue(sign == '-', digits)
  {
  }

  lemma SkipsToDigit(blanks: string, number: string)
    requires AllBlank(blanks) && number != "" && '0' <= number[0] <= '9'
    ensures SkipSpaces(blanks + ("" + number)) == number
  {
    assert "" + number == number;
    SkipsBlanks(blanks, number);
  }

  lemma SkipsToSign(blanks: string, sign: string, number: string)
    requires AllBlank(blanks) && (sign == "+" || sign == "-")
    ensures SkipSpaces(blanks + (sign + number)) == sign + number
  {
    SignAt(sign, number);
    SkipsBlanks(blanks, sign + number);
  }

  lemma DigitFirst(digits: string, rest: string)
    requires digits != "" && AllDigits(digits)
    ensures digits + rest != "" && '0' <= (digits + rest)[0] <= '9'
  {
    assert IsDigit(digits[0]) && (digits + rest)[0] == digits[0];
  }

  /** `stoi` on blanks, at most one sign, digits, and whatever follows: the number, or out of range. */
  lemma StoiReads(blanks: string, sign: string, digits: string, rest: string)
    requires AllBlank(blanks) && (sign == "" || sign == "+" || sign == "-")
    requires digits != "" && AllDigits(digits) && (rest == "" || !('0' <= rest[0] <= '9'))
    ensures var m: int := DecimalValue(digits);
            var v := if sign == "-" then -m else m;
            Stoi(blanks + (sign + (digits + rest))) ==
            if -2147483648 <= v <= 2147483647 then Some(v) else None
  {
    var number := digits + rest;
    DigitsEnd(digits, rest);
    DigitFirst(digits, rest);
    if sign == "" {
      SkipsToDigit(blanks, number);
      StoiAtDigit(blanks + (sign + number), number, digits);
    } else {
      SignAt(sign, number);
      SkipsToSign(blanks, sign, number);
      StoiAtSign(blanks + (sign + number), sign + number, sign[0], number, digits);
    }
    SignedRange(sign == "-", digits);
  }

  lemma SignAt(sign: string, number: string)
    requires sign == "+" || sign == "-"
    ensures (sign + number)[0] == sign[0] && (sign + number)[1..] == number
  {
  }

  /** Without a digit where the number should begin it fails. */
  lemma StoiFails(blanks: string, sign: string, rest: string)
    requires AllBlank(blanks) && (sign == "+" || sign == "-" || (sign == "" && !IsSignOrBlank(rest)))
    requires rest == "" || !('0' <= rest[0] <= '9')
    ensures Stoi(blanks + (sign + rest)) == None
  {
    if sign == "" {
      assert sign + rest == rest;
      SkipsBlanks(blanks, rest);
    } else {
      SignAt(sign, rest);
      SkipsBlanks(blanks, sign + rest);
    }
  }

  predicate IsSignOrBlank(s: string) {
    s != "" && (s[0] == '+' || s[0] == '-' || IsSpace(s[0]))
  }
}
