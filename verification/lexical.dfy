/**
  String primitives of the JavaScript runtime that the decoder and the alarm
  comparison rely on: `String.prototype.split` on one character,
  `String.prototype.replace` of the first occurrence of a character, and
  `parseInt` restricted to decimal integers.
 */
module Lexical {

  /** What `parseInt` returns: NaN, or an integer. */
  datatype JsInt = NaN | Int(n: int)

  predicate IsDigit(c: char) {
    '0' <= c <= '9'
  }

  predicate AllDigits(s: string) {
    forall i :: 0 <= i < |s| ==> IsDigit(s[i])
  }

  /** The white space `parseInt` skips before the number (the ASCII part of it). */
  predicate IsSpace(c: char) {
    c == ' ' || c == '\t' || c == '\n' || c == '\r'
  }

  function DigitValue(c: char): (d: nat)
    requires IsDigit(c)
    ensures d < 10
  {
    c as int - '0' as int
  }

  function Digit(d: nat): (c: char)
    requires d < 10
    ensures IsDigit(c) && DigitValue(c) == d
  {
    ('0' as int + d) as char
  }

  /** The value of a string of decimal digits, most significant first. */
  function DigitsValue(s: string): nat
    requires AllDigits(s)
    decreases |s|
  {
    if |s| == 0 then 0 else DigitsValue(s[..|s| - 1]) * 10 + DigitValue(s[|s| - 1])
  }

  /** Decimal rendering of a natural number, without leading zeros. */
  function NatToString(n: nat): (s: string)
    ensures 1 <= |s| && AllDigits(s)
    ensures n < 10 <==> |s| == 1
    decreases n
  {
    if n < 10 then [Digit(n)] else NatToString(n / 10) + [Digit(n % 10)]
  }

  /**
    Decimal rendering of an integer, as JavaScript's `String(n)` writes an
    integer below 10^21 in magnitude (larger ones it writes with an exponent).
   */
  function IntToString(n: int): (s: string)
    ensures 1 <= |s|
    ensures IsDigit(s[0]) || s[0] == '-'
  {
    if n < 0 then "-" + NatToString(-n) else NatToString(n)
  }

  /** Leading white space removed. */
  function TrimStart(s: string): (t: string)
    ensures |t| <= |s| && t == s[|s| - |t|..]
    ensures |t| > 0 ==> !IsSpace(t[0])
    decreases |s|
  {
    if |s| > 0 && IsSpace(s[0]) then TrimStart(s[1..]) else s
  }

  /** What `TrimStart` drops is white space. */
  lemma {:induction false} TrimStartSkipsSpace(s: string)
    ensures forall i :: 0 <= i < |s| - |TrimStart(s)| ==> IsSpace(s[i])
    decreases |s|
  {
    if |s| > 0 && IsSpace(s[0]) {
      TrimStartSkipsSpace(s[1..]);
      forall i | 0 <= i < |s| - |TrimStart(s)|
        ensures IsSpace(s[i])
      {
        if i > 0 {
          assert s[i] == s[1..][i - 1];
        }
      }
    }
  }

  /** Length of the longest prefix of `s` made of digits. */
  function DigitRun(s: string): (n: nat)
    ensures n <= |s|
    ensures AllDigits(s[..n])
    ensures n < |s| ==> !IsDigit(s[n])
    decreases |s|
  {
    if |s| > 0 && IsDigit(s[0]) then 1 + DigitRun(s[1..]) else 0
  }

  /**
    `parseInt(s)` for decimal input: skip leading white space, accept one
    optional sign, then read the longest run of digits; the rest of the string
    is ignored. No digits at all gives NaN.
   */
  function ParseInt(s: string): JsInt
  {
    ParseSigned(TrimStart(s))
  }

  /** `parseInt` once the white space is gone: one optional sign, then the digits. */
  function ParseSigned(t: string): JsInt
  {
    if |t| > 0 && t[0] == '-' then Negate(ParseDigits(t[1..]))
    else if |t| > 0 && t[0] == '+' then ParseDigits(t[1..])
    else ParseDigits(t)
  }

  /** The value of the leading run of digits; NaN when there is none. */
  function ParseDigits(body: string): JsInt
  {
    var n := DigitRun(body);
    if n == 0 then NaN else Int(DigitsValue(body[..n]))
  }

  function Negate(v: JsInt): JsInt
  {
    match v
    case NaN => NaN
    case Int(n) => Int(-n)
  }

  lemma {:induction false} NatToStringValue(n: nat)
    ensures DigitsValue(NatToString(n)) == n
    decreases n
  {
    if n >= 10 {
      NatToStringValue(n / 10);
      var p := NatToString(n / 10);
      var s := p + [Digit(n % 10)];
      assert s[..|s| - 1] == p;
    }
  }

  lemma {:induction false} DigitRunOfDigits(ds: string, rest: string)
    requires AllDigits(ds)
    requires rest == [] || !IsDigit(rest[0])
    ensures DigitRun(ds + rest) == |ds|
    decreases |ds|
  {
    if |ds| > 0 {
      assert (ds + rest)[1..] == ds[1..] + rest;
      DigitRunOfDigits(ds[1..], rest);
    } else {
      assert ds + rest == rest;
    }
  }

  /** A run of digits followed by a non-digit reads as the run's value. */
  lemma ParseDigitsOfDigits(body: string, ds: string, rest: string, v: int)
    requires |ds| > 0 && AllDigits(ds) && DigitsValue(ds) == v
    requires rest == [] || !IsDigit(rest[0])
    requires body == ds + rest
    ensures ParseDigits(body) == Int(v)
  {
    DigitRunOfDigits(ds, rest);
    assert body[..|ds|] == ds;
  }

  /** Text that starts with a digit is read by `parseInt` as its leading digits. */
  lemma ParseIntUnsigned(s: string, v: JsInt)
    requires |s| > 0 && IsDigit(s[0]) && ParseDigits(s) == v
    ensures ParseInt(s) == v
  {
    assert TrimStart(s) == s;
  }

  /** Text that starts with a minus sign is read by `parseInt` as the negated digits after it. */
  lemma ParseIntNegated(s: string, n: int)
    requires |s| > 0 && s[0] == '-' && ParseDigits(s[1..]) == Int(-n)
    ensures ParseInt(s) == Int(n)
  {
    assert TrimStart(s) == s;
  }

  /**
    `parseInt` reads back what `String(n)` wrote, also when the number is
    followed by anything that does not start with a digit.
   */
  lemma ParseIntOfIntToString(n: int, rest: string)
    requires rest == [] || !IsDigit(rest[0])
    ensures ParseInt(IntToString(n) + rest) == Int(n)
  {
    if n < 0 {
      ParseIntOfNegative(n, rest, IntToString(n) + rest);
    } else {
      ParseIntOfNonNegative(n, rest, IntToString(n) + rest);
    }
  }

  lemma ParseIntOfNegative(n: int, rest: string, s: string)
    requires n < 0
    requires rest == [] || !IsDigit(rest[0])
    requires s == IntToString(n) + rest
    ensures ParseInt(s) == Int(n)
  {
    NegativeDigits(n, rest, s);
    ParseIntNegated(s, n);
  }

  /** After the minus sign of a negative number come the digits of its magnitude, then a non-digit. */
  lemma NegativeDigits(n: int, rest: string, s: string)
    requires n < 0
    requires rest == [] || !IsDigit(rest[0])
    requires s == IntToString(n) + rest
    ensures |s| > 0 && s[0] == '-' && ParseDigits(s[1..]) == Int(-n)
  {
    var ds := NatToString(-n);
    NegativeShape(n, rest, s, ds);
    NatToStringValue(-n);
    ParseDigitsOfDigits(s[1..], ds, rest, -n);
  }

  /** A negative number is written as a minus sign and the digits of its magnitude. */
  lemma NegativeShape(n: int, rest: string, s: string, ds: string)
    requires n < 0 && s == IntToString(n) + rest && ds == NatToString(-n)
    ensures |s| > 0 && s[0] == '-' && s[1..] == ds + rest
  {
    SignShape(s, IntToString(n), ds, rest);
  }

  lemma SignShape(s: string, w: string, ds: string, rest: string)
    requires w == ['-'] + ds && s == w + rest
    ensures |s| > 0 && s[0] == '-' && s[1..] == ds + rest
  {
    assert w[1..] == ds;
    assert s[1..] == w[1..] + rest;
  }

  lemma ParseIntOfNonNegative(n: int, rest: string, s: string)
    requires n >= 0
    requires rest == [] || !IsDigit(rest[0])
    requires s == IntToString(n) + rest
    ensures ParseInt(s) == Int(n)
  {
    var ds := NatToString(n);
    NatToStringValue(n);
    ParseIntOfDigits(s, ds, rest, n);
  }

  /** A run of digits, then a non-digit: `parseInt` reads the run. */
  lemma ParseIntOfDigits(s: string, ds: string, rest: string, n: int)
    requires |ds| > 0 && AllDigits(ds) && DigitsValue(ds) as int == n
    requires rest == [] || !IsDigit(rest[0])
    requires s == ds + rest
    ensures ParseInt(s) == Int(n)
  {
    assert s[0] == ds[0];
    ParseDigitsOfDigits(s, ds, rest, n);
    ParseIntUnsigned(s, Int(n));
  }

  /** The text after leading white space and one optional sign: where `parseInt` looks for digits. */
  function NumberBody(s: string): string
  {
    var t := TrimStart(s);
    if |t| > 0 && (t[0] == '-' || t[0] == '+') then t[1..] else t
  }

  /**
    `parseInt` is NaN exactly when no digit follows the leading white space
    and the optional sign; otherwise it is the value of those digits, negated
    after a minus sign.
   */
  lemma ParseIntNaNIff(s: string)
    ensures ParseInt(s) == NaN <==> DigitRun(NumberBody(s)) == 0
    ensures ParseInt(s).Int? ==> var b := NumberBody(s);
      var v := DigitsValue(b[..DigitRun(b)]) as int;
      ParseInt(s).n == if TrimStart(s)[0] == '-' then -v else v
  {
  }

  /** An empty field, as `parseInt(undefined)` and `parseInt('')` see it, is NaN. */
  lemma ParseIntEmpty()
    ensures ParseInt("") == NaN
  {
    ParseIntNaNIff("");
  }

  /** The pieces of `s` between the occurrences of `sep`, as JavaScript's `s.split(sep)`. */
  function Split(s: string, sep: char): (fields: seq<string>)
    ensures |fields| >= 1
    ensures forall i :: 0 <= i < |fields| ==> sep !in fields[i]
    ensures Join(fields, sep) == s
    decreases |s|
  {
    if |s| == 0 then [""]
    else
      var rest := Split(s[1..], sep);
      if s[0] == sep then
        assert ([""] + rest)[1..] == rest;
        [""] + rest
      else
        var fields := [[s[0]] + rest[0]] + rest[1..];
        assert |rest| >= 2 ==> Join(rest, sep) == rest[0] + [sep] + Join(rest[1..], sep);
        assert fields[1..] == rest[1..];
        fields
  }

  /** `fields.join(sep)`. */
  function Join(fields: seq<string>, sep: char): string
    decreases |fields|
  {
    if |fields| == 0 then ""
    else if |fields| == 1 then fields[0]
    else fields[0] + [sep] + Join(fields[1..], sep)
  }

  /** The first field is a prefix of the joined text. */
  lemma JoinStartsWithFirst(fields: seq<string>, sep: char)
    requires |fields| >= 1
    ensures |fields[0]| <= |Join(fields, sep)|
    ensures Join(fields, sep)[..|fields[0]|] == fields[0]
  {
  }

  /** A character absent from every field and different from the separator is absent from the join. */
  lemma {:induction false} JoinAvoids(fields: seq<string>, sep: char, c: char)
    requires c != sep
    requires forall i :: 0 <= i < |fields| ==> c !in fields[i]
    ensures c !in Join(fields, sep)
    decreases |fields|
  {
    if |fields| >= 2 {
      JoinAvoids(fields[1..], sep, c);
    }
  }

  lemma {:induction false} JoinInjective(f: seq<string>, g: seq<string>, sep: char)
    requires |f| >= 1 && |g| >= 1
    requires forall i :: 0 <= i < |f| ==> sep !in f[i]
    requires forall i :: 0 <= i < |g| ==> sep !in g[i]
    requires Join(f, sep) == Join(g, sep)
    ensures f == g
    decreases |f|
  {
    var s := Join(f, sep);
    if |f| >= 2 && |g| >= 2 {
      assert s == f[0] + [sep] + Join(f[1..], sep) == g[0] + [sep] + Join(g[1..], sep);
      FirstSeparator(f[0], Join(f[1..], sep), sep);
      FirstSeparator(g[0], Join(g[1..], sep), sep);
      assert f[0] == s[..|f[0]|] == g[0];
      assert Join(f[1..], sep) == s[|f[0]| + 1..] == Join(g[1..], sep);
      JoinInjective(f[1..], g[1..], sep);
      assert f == [f[0]] + f[1..];
      assert g == [g[0]] + g[1..];
    }
  }

  /** In a field followed by the separator, the first separator is the one after the field. */
  lemma FirstSeparator(a: string, x: string, sep: char)
    requires sep !in a
    ensures IndexOf(a + [sep] + x, sep) == |a|
  {
    var t := a + [sep] + x;
    assert t[|a|] == sep;
  }

  /** Splitting a join of separator-free fields gives the fields back. */
  lemma SplitJoin(fields: seq<string>, sep: char)
    requires |fields| >= 1
    requires forall i :: 0 <= i < |fields| ==> sep !in fields[i]
    ensures Split(Join(fields, sep), sep) == fields
  {
    JoinInjective(Split(Join(fields, sep), sep), fields, sep);
  }

  /** Index of the first occurrence of `c` in `s`. */
  function IndexOf(s: string, c: char): (i: nat)
    requires c in s
    ensures i < |s| && s[i] == c && c !in s[..i]
    decreases |s|
  {
    if s[0] == c then 0 else 1 + IndexOf(s[1..], c)
  }

  /** `s.replace(c, '')` with a one-character pattern: only the first occurrence goes. */
  function RemoveFirst(s: string, c: char): string
    decreases |s|
  {
    if |s| == 0 then s
    else if s[0] == c then s[1..]
    else [s[0]] + RemoveFirst(s[1..], c)
  }

  /** Without `c` the text is unchanged; otherwise the text around its first occurrence is kept. */
  lemma RemoveFirstSplices(s: string, c: char)
    ensures c !in s ==> RemoveFirst(s, c) == s
    ensures c in s ==> RemoveFirst(s, c) == s[..IndexOf(s, c)] + s[IndexOf(s, c) + 1..]
  {
    if c in s {
      RemoveFirstPresent(s, c);
    } else {
      RemoveFirstAbsent(s, c);
    }
  }

  lemma {:induction false} RemoveFirstAbsent(s: string, c: char)
    requires c !in s
    ensures RemoveFirst(s, c) == s
    decreases |s|
  {
    if |s| > 0 {
      assert c !in s[1..];
      RemoveFirstAbsent(s[1..], c);
      assert s == [s[0]] + s[1..];
    }
  }

  lemma {:induction false} RemoveFirstPresent(s: string, c: char)
    requires c in s
    ensures RemoveFirst(s, c) == s[..IndexOf(s, c)] + s[IndexOf(s, c) + 1..]
    decreases |s|
  {
    if s[0] != c {
      var t := s[1..];
      var i := IndexOf(s, c);
      assert c in t && IndexOf(t, c) == i - 1;
      RemoveFirstPresent(t, c);
      assert RemoveFirst(s, c) == [s[0]] + (t[..i - 1] + t[i..]);
      assert s[..i] == [s[0]] + t[..i - 1];
      assert s[i + 1..] == t[i..];
    }
  }

  /** A leading `c` in front of a string free of `c` is the one removed. */
  lemma RemoveFirstLeading(s: string, c: char)
    requires c !in s
    ensures RemoveFirst([c] + s, c) == s
  {
    var t := [c] + s;
    RemoveFirstSplices(t, c);
    assert IndexOf(t, c) == 0;
    assert t[1..] == s;
  }

  /** A trailing terminator on a line without any other is what `RemoveFirst` takes away. */
  lemma RemoveFirstTerminator(s: string, c: char)
    requires c !in s
    ensures RemoveFirst(s + [c], c) == s
  {
    var t := s + [c];
    RemoveFirstSplices(t, c);
    var i := IndexOf(t, c);
    assert t[..|s|] == s;
  }
}
