/** JSON strings, integers and flags: how they are written, how they are read, and that they come back.
    A byte is a character. */
module Json {
  import opened Types
  import Http

  // ---------------------------------------------------------------- writing

  predicate IsControl(c: char) {
    c < '\U{20}'
  }

  function HexDigit(n: int): char
    requires 0 <= n < 16
  {
    if n < 10 then '0' + n as char else 'a' + (n - 10) as char
  }

  /** The letter that stands for a control byte after a back-slash. */
  function ShortName(c: char): Option<char> {
    if c == '\U{08}' then Some('b')
    else if c == '\U{0c}' then Some('f')
    else if c == '\n' then Some('n')
    else if c == '\r' then Some('r')
    else if c == '\t' then Some('t')
    else None
  }

  function EscapeChar(c: char): (e: string)
    ensures e != ""
  {
    if c == '\"' || c == '\\' then ['\\', c]
    else if ShortName(c).Some? then ['\\', ShortName(c).value]
    else if IsControl(c) then ['\\', 'u', '0', '0', HexDigit(c as int / 16), HexDigit(c as int % 16)]
    else [c]
  }

  function Escape(s: string): string {
    if s == "" then "" else EscapeChar(s[0]) + Escape(s[1..])
  }

  function Quote(s: string): string {
    "\"" + Escape(s) + "\""
  }

  method Piece(c: char) returns (piece: string)
    ensures piece == EscapeChar(c)
  {
    if c == '\"' || c == '\\' {
      piece := ['\\', c];
    } else if c == '\U{08}' {
      piece := "\\b";
    } else if c == '\U{0c}' {
      piece := "\\f";
    } else if c == '\n' {
      piece := "\\n";
    } else if c == '\r' {
      piece := "\\r";
    } else if c == '\t' {
      piece := "\\t";
    } else if IsControl(c) {
      piece := "\\u00" + [HexDigit(c as int / 16), HexDigit(c as int % 16)];
    } else {
      piece := [c];
    }
  }

  method JsonEscape(value: string) returns (result: string)
    ensures result == Escape(value)
  {
    hide EscapeChar;
    result := "";
    for i := 0 to |value|
      invariant result + Escape(value[i..]) == Escape(value)
    {
      var piece := Piece(value[i]);
      result := result + piece;
      assert value[i..][1..] == value[i + 1..];
    }
  }

  /** The escapes of single characters form a prefix code. */
  lemma EscapeCharIsPrefixFree(a: char, b: char, x: string, y: string)
    requires EscapeChar(a) + x == EscapeChar(b) + y
    ensures a == b && x == y
  {
    var s, t := EscapeChar(a) + x, EscapeChar(b) + y;
    assert s[0] == EscapeChar(a)[0] && t[0] == EscapeChar(b)[0];
    if s[0] == '\\' {
      assert s[1] == EscapeChar(a)[1] && t[1] == EscapeChar(b)[1];
      if s[1] == 'u' {
        assert s[4] == EscapeChar(a)[4] && t[4] == EscapeChar(b)[4];
        assert s[5] == EscapeChar(a)[5] && t[5] == EscapeChar(b)[5];
      }
    }
    assert a == b;
    assert x == s[|EscapeChar(a)|..] && y == t[|EscapeChar(b)|..];
  }

  /** No two strings are written alike. */
  lemma {:induction false} EscapeIsInjective(s: string, t: string)
    requires Escape(s) == Escape(t)
    ensures s == t
  {
    if s != "" && t != "" {
      EscapeCharIsPrefixFree(s[0], t[0], Escape(s[1..]), Escape(t[1..]));
      EscapeIsInjective(s[1..], t[1..]);
      assert s == [s[0]] + s[1..] && t == [t[0]] + t[1..];
    }
  }

  // ---------------------------------------------------------------- reading values

  datatype Read<T> = Fail | Got(value: T, rest: string)

  const MAX_STRING := 128

  function Take(s: string, c: char): Option<string> {
    var t := Http.SkipSpaces(s);
    if t == "" || t[0] != c then None else Some(t[1..])
  }

  /** The character meant by `e` after a back-slash. */
  function Unescape(e: char): Option<char> {
    if e == '\"' || e == '\\' || e == '/' then Some(e)
    else if e == 'b' then Some('\U{08}')
    else if e == 'f' then Some('\U{0c}')
    else if e == 'n' then Some('\n')
    else if e == 'r' then Some('\r')
    else if e == 't' then Some('\t')
    else None
  }

  /** One character of a string body; the opening quote is behind and this is not the closing one. */
  function ReadChar(s: string): (r: Read<char>)
    ensures r.Got? ==> |r.rest| < |s|
  {
    if s == "" || IsControl(s[0]) then Fail
    else if s[0] != '\\' then Got(s[0], s[1..])
    else if |s| < 2 || Unescape(s[1]).None? then Fail
    else Got(Unescape(s[1]).value, s[2..])
  }

  /** The rest of a string whose first characters are `out`. */
  function ReadChars(s: string, out: string): (r: Read<string>)
    ensures r.Got? ==> |r.rest| < |s|
    decreases |s|
  {
    if s == "" then Fail
    else if s[0] == '\"' then Got(out, s[1..])
    else
      match ReadChar(s)
      case Fail => Fail
      case Got(c, rest) => if MAX_STRING <= |out| then Fail else ReadChars(rest, out + [c])
  }

  function ReadString(s: string): (r: Read<string>) {
    var t := Http.SkipSpaces(s);
    if t == "" || t[0] != '\"' then Fail else ReadChars(t[1..], "")
  }

  /** How many digits `s` begins with. */
  function DigitSpan(s: string): (n: nat)
    ensures n <= |s| && Http.AllDigits(s[..n])
    ensures n < |s| ==> !Http.IsDigit(s[n])
  {
    if s == "" || !Http.IsDigit(s[0]) then 0
    else
      var n := DigitSpan(s[1..]);
      assert s[..n + 1] == [s[0]] + s[1..][..n];
      n + 1
  }

  /** `long` has 32 bits on the camera, and strtol saturates. */
  const LONG_MAX := 0x7fff_ffff

  function StrToL(negative: bool, digits: string): int
    requires Http.AllDigits(digits)
  {
    var v: int := Http.Value(digits);
    if negative then (if LONG_MAX + 1 < v then -LONG_MAX - 1 else -v)
    else if LONG_MAX < v then LONG_MAX else v
  }

  /** The digits that `s` begins with, as strtol takes them. */
  function ReadDigits(negative: bool, s: string): (r: Read<int>) {
    var n := DigitSpan(s);
    if n == 0 || 10 < n + (if negative then 1 else 0) then Fail
    else
      var value := StrToL(negative, s[..n]);
      if value < -LONG_MAX || LONG_MAX < value then Fail else Got(value, s[n..])
  }

  function ReadInteger(s: string): (r: Read<int>) {
    var t := Http.SkipSpaces(s);
    if t != "" && t[0] == '-' then ReadDigits(true, t[1..]) else ReadDigits(false, t)
  }

  function ReadBool(s: string): (r: Read<bool>) {
    var t := Http.SkipSpaces(s);
    if "true" <= t then Got(true, t[4..])
    else if "false" <= t then Got(false, t[5..])
    else Fail
  }

  // ---------------------------------------------------------------- strings come back

  /** Can the writer's escape of `c` be read again? */
  predicate ReadableChar(c: char) {
    IsControl(c) ==> ShortName(c).Some?
  }

  predicate Readable(s: string) {
    s == "" || (ReadableChar(s[0]) && Readable(s[1..]))
  }

  lemma ReadEscapedChar(c: char, u: string)
    ensures EscapeChar(c)[0] != '\"'
    ensures ReadChar(EscapeChar(c) + u) == if ReadableChar(c) then Got(c, u) else Fail
  {
    var s := EscapeChar(c) + u;
    assert s[0] == EscapeChar(c)[0];
    assert s[|EscapeChar(c)|..] == u;
    if s[0] == '\\' {
      assert s[1] == EscapeChar(c)[1];
    }
  }

  lemma ReadCharsStep(c: char, u: string, out: string)
    ensures ReadChars(EscapeChar(c) + u, out) ==
            if ReadableChar(c) && |out| < MAX_STRING then ReadChars(u, out + [c]) else Fail
  {
    var s := EscapeChar(c) + u;
    assert s[0] == EscapeChar(c)[0];
    ReadEscapedChar(c, u);
  }

  lemma {:induction false} ReadEscaped(s: string, out: string, t: string)
    requires |out| <= MAX_STRING
    ensures ReadChars(Escape(s) + "\"" + t, out) ==
            if Readable(s) && |out| + |s| <= MAX_STRING then Got(out + s, t) else Fail
    decreases |s|
  {
    if s == "" {
      assert (Escape(s) + "\"" + t)[1..] == t;
      assert out + s == out;
    } else {
      var u := Escape(s[1..]) + "\"" + t;
      assert Escape(s) + "\"" + t == EscapeChar(s[0]) + u;
      ReadCharsStep(s[0], u, out);
      hide ReadChars, Escape;
      if |out| < MAX_STRING {
        ReadEscaped(s[1..], out + [s[0]], t);
        assert out + [s[0]] + s[1..] == out + s;
      }
    }
  }

  /** What the writer quotes, the reader gives back, exactly when it is short and every control byte in
      it has a one-letter escape. */
  lemma QuotedStringsComeBack(s: string, t: string)
    ensures ReadString(Quote(s) + t) == if Readable(s) && |s| <= MAX_STRING then Got(s, t) else Fail
  {
    QuoteOpens(s, t);
    ReadEscaped(s, "", t);
    assert "" + s == s;
    hide Escape, Quote, ReadChars, Readable;
  }

  lemma QuoteOpens(s: string, t: string)
    ensures Quote(s) + t == ['\"'] + (Escape(s) + "\"" + t)
    ensures ReadString(Quote(s) + t) == ReadChars(Escape(s) + "\"" + t, "")
  {
    hide Escape, ReadChars;
    var body := Escape(s) + "\"" + t;
    assert Quote(s) + t == ['\"'] + body;
    assert (Quote(s) + t)[1..] == body;
  }

  // ---------------------------------------------------------------- integers come back

  /** The decimal digits of `n`, without leading zeros. */
  function Digits(n: nat): (d: string)
    ensures d != "" && Http.AllDigits(d)
  {
    if n < 10 then ['0' + n as char] else Digits(n / 10) + ['0' + (n % 10) as char]
  }

  function Decimal(n: int): string {
    if n < 0 then "-" + Digits(-n) else Digits(n)
  }

  function Power10(k: nat): nat {
    if k == 0 then 1 else 10 * Power10(k - 1)
  }

  lemma {:induction false} DigitsHaveValue(n: nat)
    ensures Http.Value(Digits(n)) == n
  {
    var d := Digits(n);
    if n < 10 {
      assert d[..0] == "";
    } else {
      DigitsHaveValue(n / 10);
      assert d[..|d| - 1] == Digits(n / 10);
    }
  }

  lemma {:induction false} DigitsLength(n: nat, k: nat)
    requires 1 <= k
    ensures |Digits(n)| <= k <==> n < Power10(k)
  {
    if 10 <= n {
      if k == 1 {
        assert Power10(1) == 10 * Power10(0);
      } else {
        DigitsLength(n / 10, k - 1);
      }
    } else {
      PowersArePositive(k - 1);
    }
  }

  lemma {:induction false} PowersArePositive(k: nat)
    ensures 1 <= Power10(k)
  {
    if 0 < k {
      PowersArePositive(k - 1);
    }
  }

  lemma PowersOfTen()
    ensures Power10(9) == 1_000_000_000 && Power10(10) == 10_000_000_000
  {
    assert Power10(3) == 1000;
    assert Power10(6) == 1_000_000;
    assert Power10(9) == 1_000_000_000;
  }

  lemma {:induction false} DigitSpanOf(d: string, t: string)
    requires Http.AllDigits(d) && (t != "" ==> !Http.IsDigit(t[0]))
    ensures DigitSpan(d + t) == |d|
  {
    if d == "" {
      assert d + t == t;
    } else {
      assert (d + t)[1..] == d[1..] + t;
      DigitSpanOf(d[1..], t);
    }
  }

  /** What the integer reader makes of a sign and the digits of `n`. */
  function ReadDecimal(negative: bool, n: nat, t: string): Read<int> {
    if Power10(if negative then 9 else 10) <= n then Fail
    else Got(if negative then 0 - n else if LONG_MAX < n then LONG_MAX else n, t)
  }

  lemma ReadSigned(negative: bool, n: nat, t: string)
    requires t != "" ==> !Http.IsDigit(t[0])
    ensures ReadDigits(negative, Digits(n) + t) == ReadDecimal(negative, n, t)
  {
    hide DigitSpan, Digits, Power10, Http.Value;
    var d := Digits(n);
    DigitSpanOf(d, t);
    DigitsHaveValue(n);
    DigitsLength(n, if negative then 9 else 10);
    PowersOfTen();
    assert (d + t)[..|d|] == d;
    assert (d + t)[|d|..] == t;
  }

  lemma DecimalOpens(n: int, t: string)
    ensures ReadInteger(Decimal(n) + t) ==
            if n < 0 then ReadDigits(true, Digits(-n) + t) else ReadDigits(false, Digits(n) + t)
  {
    hide Digits, ReadDigits;
    var s := Decimal(n) + t;
    if n < 0 {
      assert s == "-" + (Digits(-n) + t);
      assert s[1..] == Digits(-n) + t;
    } else {
      assert s[0] == Digits(n)[0] && Http.IsDigit(s[0]);
    }
  }

  /** A decimal is read back as it is from -999999999 to 2147483647; ten digits beyond that saturate, and
      anything longer is refused. */
  lemma DecimalsComeBack(n: int, t: string)
    requires t != "" ==> !Http.IsDigit(t[0])
    ensures ReadInteger(Decimal(n) + t) ==
            if -1_000_000_000 < n < 10_000_000_000 then Got(if LONG_MAX < n then LONG_MAX else n, t) else Fail
  {
    PowersOfTen();
    DecimalOpens(n, t);
    hide ReadDigits, Digits, ReadInteger, Decimal;
    if n < 0 {
      ReadSigned(true, -n, t);
    } else {
      ReadSigned(false, n, t);
    }
  }
}
