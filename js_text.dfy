/** The pieces of JavaScript's string built-ins that the core relies on:
    `parseInt(s, 10)`, `String.prototype.split` with a one-character
    separator, `filter(Boolean)` on strings, and upper-casing (ASCII letters
    only), together with decimal rendering as their partner. */
module JsText {
  import opened Common

  predicate IsDigit(c: char) {
    '0' <= c <= '9'
  }

  predicate AllDigits(s: string) {
    forall i :: 0 <= i < |s| ==> IsDigit(s[i])
  }

  function DigitValue(c: char): (d: nat)
    requires IsDigit(c)
    ensures d < 10
  {
    c as int - '0' as int
  }

  function DigitChar(d: nat): (c: char)
    requires d < 10
    ensures IsDigit(c) && DigitValue(c) == d
  {
    ('0' as int + d) as char
  }

  /** The value of a string of decimal digits, leading zeros allowed. */
  function DigitsValue(s: string): nat
    requires AllDigits(s)
  {
    if s == [] then 0 else DigitsValue(s[..|s| - 1]) * 10 + DigitValue(s[|s| - 1])
  }

  /** The canonical decimal rendering of a natural number. */
  function Show(n: nat): (s: string)
    ensures |s| >= 1 && AllDigits(s)
  {
    if n < 10 then [DigitChar(n)] else Show(n / 10) + [DigitChar(n % 10)]
  }

  /** Reading back a rendered number gives the number. */
  lemma {:induction false} DigitsValueShow(n: nat)
    ensures DigitsValue(Show(n)) == n
  {
    if n >= 10 {
      var s := Show(n);
      assert s[..|s| - 1] == Show(n / 10);
      DigitsValueShow(n / 10);
    }
  }

  /** ECMAScript's StrWhiteSpaceChar: WhiteSpace and LineTerminator. */
  predicate IsJsWhiteSpace(c: char) {
    || c == '\t' || c == '\U{000B}' || c == '\U{000C}' || c == ' '
    || c == '\U{00A0}' || c == '\U{FEFF}' || c == '\U{1680}'
    || ('\U{2000}' <= c <= '\U{200A}') || c == '\U{202F}' || c == '\U{205F}' || c == '\U{3000}'
    || c == '\n' || c == '\r' || c == '\U{2028}' || c == '\U{2029}'
  }

  /** Drops leading white space. */
  function TrimStart(s: string): (t: string)
    ensures |t| <= |s| && t == s[|s| - |t|..]
    ensures forall i :: 0 <= i < |s| - |t| ==> IsJsWhiteSpace(s[i])
    ensures t == [] || !IsJsWhiteSpace(t[0])
  {
    if s != [] && IsJsWhiteSpace(s[0]) then TrimStart(s[1..]) else s
  }

  /** The longest prefix of decimal digits. */
  function DigitPrefix(s: string): (d: string)
    ensures AllDigits(d) && d <= s
    ensures |d| == |s| || !IsDigit(s[|d|])
  {
    if s != [] && IsDigit(s[0]) then [s[0]] + DigitPrefix(s[1..]) else []
  }

  /** What follows an optional leading sign. */
  function Unsigned(t: string): string {
    if |t| > 0 && (t[0] == '-' || t[0] == '+') then t[1..] else t
  }

  /** `parseInt(s, 10)`: leading white space, an optional sign, then the
      longest run of decimal digits; None stands for NaN (no digit at all).
      -0 becomes 0. */
  function ParseInt(s: string): (r: Option<int>)
    ensures r.None? <==> var u := Unsigned(TrimStart(s)); u == [] || !IsDigit(u[0])
  {
    var t := TrimStart(s);
    var z := DigitPrefix(Unsigned(t));
    if z == [] then None
    else
      var v: int := if |t| > 0 && t[0] == '-' then -(DigitsValue(z) as int) else DigitsValue(z);
      Some(v)
  }

  lemma {:induction false} DigitPrefixOfDigits(ds: string, rest: string)
    requires AllDigits(ds)
    requires rest == [] || !IsDigit(rest[0])
    ensures DigitPrefix(ds + rest) == ds
  {
    if ds != [] {
      assert (ds + rest)[1..] == ds[1..] + rest;
      DigitPrefixOfDigits(ds[1..], rest);
    }
  }

  /** parseInt reads a run of digits followed by anything that is not a
      digit as the value of that run. */
  lemma {:induction false} ParseIntOfDigits(ds: string, rest: string)
    requires |ds| >= 1 && AllDigits(ds)
    requires rest == [] || !IsDigit(rest[0])
    ensures ParseInt(ds + rest) == Some(DigitsValue(ds))
  {
    var s := ds + rest;
    assert s[0] == ds[0] && !IsJsWhiteSpace(s[0]);
    assert TrimStart(s) == s;
    assert Unsigned(s) == s;
    DigitPrefixOfDigits(ds, rest);
  }

  /** Leading white space is dropped up to the first other character. */
  lemma {:induction false} TrimStartOfWhiteSpace(ws: string, x: string)
    requires forall i :: 0 <= i < |ws| ==> IsJsWhiteSpace(ws[i])
    requires x == [] || !IsJsWhiteSpace(x[0])
    ensures TrimStart(ws + x) == x
  {
    if ws == [] {
      assert ws + x == x;
    } else {
      assert (ws + x)[0] == ws[0];
      assert (ws + x)[1..] == ws[1..] + x;
      TrimStartOfWhiteSpace(ws[1..], x);
    }
  }

  /** parseInt on a numeral: leading white space, an optional sign, a run
      of digits, then anything that does not start with a digit. */
  lemma ParseIntOfNumeral(ws: string, sign: string, ds: string, rest: string)
    requires forall i :: 0 <= i < |ws| ==> IsJsWhiteSpace(ws[i])
    requires sign == "" || sign == "+" || sign == "-"
    requires |ds| >= 1 && AllDigits(ds)
    requires rest == [] || !IsDigit(rest[0])
    ensures ParseInt(ws + (sign + ds + rest)) ==
              Some(if sign == "-" then -(DigitsValue(ds) as int) else DigitsValue(ds))
  {
    var x := sign + ds + rest;
    SignedDigits(sign, ds, rest);
    TrimStartOfWhiteSpace(ws, x);
    ParseIntOfTrimmed(ws + x, x, ds, rest);
  }

  /** A sign and a digit run: the sign is not white space, and what
      follows the sign is the digits and the rest. */
  lemma SignedDigits(sign: string, ds: string, rest: string)
    requires sign == "" || sign == "+" || sign == "-"
    requires |ds| >= 1 && AllDigits(ds)
    ensures var x := sign + ds + rest;
              && |x| > 0 && !IsJsWhiteSpace(x[0])
              && Unsigned(x) == ds + rest
              && (x[0] == '-' <==> sign == "-")
  {
    var x := sign + ds + rest;
    if sign == "" {
      assert x == ds + rest && x[0] == ds[0];
    } else {
      assert x[0] == sign[0] && x[1..] == ds + rest;
    }
  }

  /** parseInt once the white space is gone: the digit run after the sign,
      negated behind a minus. */
  lemma ParseIntOfTrimmed(s: string, x: string, ds: string, rest: string)
    requires TrimStart(s) == x && Unsigned(x) == ds + rest
    requires |ds| >= 1 && AllDigits(ds)
    requires rest == [] || !IsDigit(rest[0])
    ensures ParseInt(s) == Some(if |x| > 0 && x[0] == '-' then -(DigitsValue(ds) as int) else DigitsValue(ds))
  {
    DigitPrefixOfDigits(ds, rest);
  }

  /** A string of digits alone reads as its value. */
  lemma ParseIntOfAllDigits(ds: string)
    requires |ds| >= 1 && AllDigits(ds)
    ensures ParseInt(ds) == Some(DigitsValue(ds))
  {
    ParseIntOfDigits(ds, []);
    assert ds + [] == ds;
  }

  /** The same behind a minus sign. */
  lemma {:induction false} ParseIntOfNegativeDigits(ds: string, n: nat)
    requires |ds| >= 1 && AllDigits(ds) && DigitsValue(ds) == n
    ensures ParseInt("-" + ds) == Some(-(n as int))
  {
    var s := "-" + ds;
    assert !IsJsWhiteSpace(s[0]);
    assert TrimStart(s) == s;
    assert Unsigned(s) == ds + [];
    DigitPrefixOfDigits(ds, []);
  }

  /** parseInt inverts decimal rendering. */
  lemma {:induction false} ParseIntShow(n: nat)
    ensures ParseInt(Show(n)) == Some(n)
  {
    var s := Show(n);
    DigitsValueShow(n);
    ParseIntOfDigits(s, []);
    assert s + [] == s;
  }

  /** ... and behind a minus sign it gives the negated number. */
  lemma {:induction false} ParseIntShowNegative(n: nat)
    ensures ParseInt("-" + Show(n)) == Some(-(n as int))
  {
    DigitsValueShow(n);
    ParseIntOfNegativeDigits(Show(n), n);
  }

  /** ... behind a plus sign it gives the number itself ... */
  lemma ParseIntShowPlus(n: nat)
    ensures ParseInt("+" + Show(n)) == Some(n)
  {
    var ds := Show(n);
    DigitsValueShow(n);
    ParseIntOfNumeral([], "+", ds, []);
    assert [] + ("+" + ds + []) == "+" + ds;
  }

  /** ... and so does a numeral after leading white space. */
  lemma ParseIntShowAfterWhiteSpace(ws: string, n: nat)
    requires forall i :: 0 <= i < |ws| ==> IsJsWhiteSpace(ws[i])
    ensures ParseInt(ws + Show(n)) == Some(n)
  {
    var ds := Show(n);
    DigitsValueShow(n);
    assert IsDigit(ds[0]);
    TrimStartOfWhiteSpace(ws, ds);
    assert Unsigned(ds) == ds + [];
    ParseIntOfTrimmed(ws + ds, ds, ds, []);
  }

  /** `s.split(sep)`: the pieces between separators, always at least one. */
  function Split(s: string, sep: char): (parts: seq<string>)
    ensures |parts| >= 1
    ensures forall i :: 0 <= i < |parts| ==> sep !in parts[i]
  {
    if s == [] then [[]]
    else
      var rest := Split(s[1..], sep);
      if s[0] == sep then [[]] + rest else [[s[0]] + rest[0]] + rest[1..]
  }

  lemma {:induction false} SplitNoSeparator(a: string, sep: char)
    requires sep !in a
    ensures Split(a, sep) == [a]
  {
    if a != [] {
      SplitNoSeparator(a[1..], sep);
      assert [a[0]] + a[1..] == a;
    }
  }

  lemma {:induction false} SplitAfterPiece(a: string, sep: char, rest: string)
    requires sep !in a
    ensures Split(a + [sep] + rest, sep) == [a] + Split(rest, sep)
  {
    var s := a + [sep] + rest;
    if a == [] {
      assert s == [sep] + rest;
      assert s[1..] == rest;
    } else {
      assert s[1..] == a[1..] + [sep] + rest;
      SplitAfterPiece(a[1..], sep, rest);
      assert [a[0]] + a[1..] == a;
    }
  }

  /** `parts.join(sep)`. */
  function Join(parts: seq<string>, sep: char): string {
    if parts == [] then []
    else if |parts| == 1 then parts[0]
    else parts[0] + [sep] + Join(parts[1..], sep)
  }

  /** Splitting a join of separator-free pieces gives the pieces back. */
  lemma {:induction false} SplitJoin(parts: seq<string>, sep: char)
    requires |parts| >= 1
    requires forall i :: 0 <= i < |parts| ==> sep !in parts[i]
    ensures Split(Join(parts, sep), sep) == parts
  {
    if |parts| == 1 {
      SplitNoSeparator(parts[0], sep);
    } else {
      SplitJoin(parts[1..], sep);
      SplitAfterPiece(parts[0], sep, Join(parts[1..], sep));
    }
  }

  /** Joining the pieces of a split with the same separator gives the
      string back. */
  lemma {:induction false} JoinSplit(s: string, sep: char)
    ensures Join(Split(s, sep), sep) == s
  {
    if s != [] {
      var rest := Split(s[1..], sep);
      JoinSplit(s[1..], sep);
      if s[0] == sep {
        assert ([[]] + rest)[1..] == rest;
      } else if |rest| == 1 {
        assert Split(s, sep) == [[s[0]] + rest[0]];
      } else {
        assert Join(rest, sep) == rest[0] + [sep] + Join(rest[1..], sep);
        var parts := [[s[0]] + rest[0]] + rest[1..];
        assert parts[1..] == rest[1..];
      }
      assert [s[0]] + s[1..] == s;
    }
  }

  /** `parts.filter(Boolean)`: keeps the non-empty strings, in order. */
  function NonEmpty(parts: seq<string>): (r: seq<string>)
    ensures |r| <= |parts|
    ensures forall i :: 0 <= i < |r| ==> r[i] != [] && r[i] in parts
    ensures (forall i :: 0 <= i < |parts| ==> parts[i] != []) ==> r == parts
    ensures forall p :: p in parts && p != [] ==> p in r
  {
    if parts == [] then []
    else
      assert forall p :: p in parts && p != parts[0] ==> p in parts[1..];
      if parts[0] == [] then NonEmpty(parts[1..])
      else [parts[0]] + NonEmpty(parts[1..])
  }

  /** Filtering distributes over concatenation, so the kept pieces come in
      their original order. */
  lemma {:induction false} NonEmptyAppend(a: seq<string>, b: seq<string>)
    ensures NonEmpty(a + b) == NonEmpty(a) + NonEmpty(b)
  {
    if a == [] {
      assert a + b == b;
    } else {
      assert (a + b)[0] == a[0];
      assert (a + b)[1..] == a[1..] + b;
      NonEmptyAppend(a[1..], b);
    }
  }

  /** A single piece is kept exactly when it is non-empty. */
  lemma NonEmptyOne(p: string)
    ensures NonEmpty([p]) == if p == [] then [] else [p]
  {
    assert [p][1..] == [];
  }

  function UpperChar(c: char): char {
    if 'a' <= c <= 'z' then (c as int - 32) as char else c
  }

  /** `toUpperCase()` restricted to ASCII letters. */
  function ToUpperAscii(s: string): (u: string)
    ensures |u| == |s|
    ensures forall i :: 0 <= i < |s| ==> u[i] == UpperChar(s[i])
  {
    seq(|s|, i requires 0 <= i < |s| => UpperChar(s[i]))
  }

  /** Upper-casing twice changes nothing more. */
  lemma ToUpperIdempotent(s: string)
    ensures ToUpperAscii(ToUpperAscii(s)) == ToUpperAscii(s)
  {
  }
}
