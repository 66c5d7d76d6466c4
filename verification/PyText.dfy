/** Python text operations shared by the scripts: white space, decimal digits,
    `str.strip`, `str` and `int` of integers. Digits are the ASCII ones. */
module PyText {
  import opened Wrappers
  import Digits

  predicate IsDigit(c: char) { '0' <= c <= '9' }

  /** Python's `str.isspace` for one character. */
  predicate IsSpace(c: char) {
    || '\t' <= c <= '\r' || '\U{1C}' <= c <= ' ' || c == '\U{85}' || c == '\U{A0}' || c == '\U{1680}'
    || '\U{2000}' <= c <= '\U{200A}' || c == '\U{2028}' || c == '\U{2029}' || c == '\U{202F}' || c == '\U{205F}'
    || c == '\U{3000}'
  }

  predicate Blank(s: string) {
    forall i :: 0 <= i < |s| ==> IsSpace(s[i])
  }

  predicate Numeric(s: string) {
    s != "" && forall i :: 0 <= i < |s| ==> IsDigit(s[i])
  }

  function DigitValue(c: char): nat
    requires IsDigit(c)
  {
    c as int - '0' as int
  }

  function Value(number: string): nat
    requires forall i :: 0 <= i < |number| ==> IsDigit(number[i])
  {
    if number == "" then 0 else Value(number[..|number| - 1]) * 10 + DigitValue(number[|number| - 1])
  }

  // --------------------------------------------------------------------- strip

  function StripLeft(s: string): string {
    if s != "" && IsSpace(s[0]) then StripLeft(s[1..]) else s
  }

  function StripRight(s: string): string {
    if s != "" && IsSpace(s[|s| - 1]) then StripRight(s[..|s| - 1]) else s
  }

  function Strip(s: string): string {
    StripRight(StripLeft(s))
  }

  lemma BlankCons(c: char, s: string)
    requires IsSpace(c) && Blank(s)
    ensures Blank([c] + s) && Blank(s + [c])
  {
  }

  lemma {:induction false} StripLeftSplits(s: string) returns (left: string)
    ensures Blank(left) && s == left + StripLeft(s)
    ensures StripLeft(s) != "" ==> !IsSpace(StripLeft(s)[0])
  {
    left := "";
    if s != "" && IsSpace(s[0]) {
      var more := StripLeftSplits(s[1..]);
      BlankCons(s[0], more);
      left := [s[0]] + more;
      assert s == [s[0]] + s[1..];
      assert StripLeft(s) == StripLeft(s[1..]);
    } else {
      assert StripLeft(s) == s;
    }
  }

  lemma {:induction false} StripRightSplits(s: string) returns (right: string)
    ensures Blank(right) && s == StripRight(s) + right
    ensures StripRight(s) != "" ==> !IsSpace(StripRight(s)[|StripRight(s)| - 1])
  {
    right := "";
    if s != "" && IsSpace(s[|s| - 1]) {
      var more := StripRightSplits(s[..|s| - 1]);
      BlankCons(s[|s| - 1], more);
      right := more + [s[|s| - 1]];
      assert s == s[..|s| - 1] + [s[|s| - 1]];
      assert StripRight(s) == StripRight(s[..|s| - 1]);
    } else {
      assert StripRight(s) == s;
    }
  }

  /** `t` is `s` without the white space around it. */
  ghost predicate Stripped(s: string, t: string) {
    && (exists left, right :: Blank(left) && Blank(right) && s == left + t + right)
    && (t != "" ==> !IsSpace(t[0]) && !IsSpace(t[|t| - 1]))
  }

  lemma StripSpec(s: string)
    ensures Stripped(s, Strip(s))
    ensures Strip(s) == "" <==> Blank(s)
  {
    var left := StripLeftSplits(s);
    var right := StripRightSplits(StripLeft(s));
    var t := Strip(s);
    assert s == left + t + right;
    if t != "" {
      assert t[0] == StripLeft(s)[0];
      assert s[|left|] == t[0];
    }
  }

  // ------------------------------------------------------------------ integers

  /** Digits, with single underscores between them. */
  predicate Grouped(s: string) {
    && s != "" && s[0] != '_' && s[|s| - 1] != '_'
    && (forall i :: 0 <= i < |s| ==> IsDigit(s[i]) || s[i] == '_')
    && (forall i :: 0 <= i < |s| - 1 ==> s[i] != '_' || s[i + 1] != '_')
  }

  function Ungroup(s: string): (r: string)
    requires forall i :: 0 <= i < |s| ==> IsDigit(s[i]) || s[i] == '_'
    ensures forall i :: 0 <= i < |r| ==> IsDigit(r[i])
  {
    if s == "" then "" else (if s[0] == '_' then "" else [s[0]]) + Ungroup(s[1..])
  }

  predicate Signed(s: string) {
    s != "" && (s[0] == '+' || s[0] == '-')
  }

  /** `int(s)`, or none where it raises `ValueError`. */
  function PyInt(s: string): Option<int> {
    var t := Strip(s);
    var body := if Signed(t) then t[1..] else t;
    if !Grouped(body) then None
    else Some(if Signed(t) && t[0] == '-' then 0 - Value(Ungroup(body)) else Value(Ungroup(body)))
  }

  function Text(ds: seq<int>): (r: string)
    requires Digits.AllDigits(ds)
    ensures |r| == |ds| && forall i :: 0 <= i < |r| ==> IsDigit(r[i])
  {
    seq(|ds|, i requires 0 <= i < |ds| => ('0' as int + ds[i]) as char)
  }

  function StrNat(n: nat): (r: string)
    ensures Numeric(r)
  {
    Digits.DecimalFolds(n);
    Text(Digits.Decimal(n))
  }

  /** `str(n)`. */
  function PyStr(n: int): string {
    if n < 0 then "-" + StrNat(-n) else StrNat(n)
  }

  lemma {:induction false} ValueOfText(ds: seq<int>)
    requires Digits.AllDigits(ds)
    ensures Value(Text(ds)) == Digits.Fold(ds)
  {
    if ds != [] {
      var front := ds[..|ds| - 1];
      ValueOfText(front);
      assert Text(ds)[..|ds| - 1] == Text(front);
    }
  }

  lemma {:induction false} UngroupDigits(s: string)
    requires forall i :: 0 <= i < |s| ==> IsDigit(s[i])
    ensures Ungroup(s) == s
  {
    if s != "" {
      UngroupDigits(s[1..]);
      assert s == [s[0]] + s[1..];
    }
  }

  lemma StripNothing(s: string)
    requires s != "" && !IsSpace(s[0]) && !IsSpace(s[|s| - 1])
    ensures Strip(s) == s
  {
  }

  lemma NumericGrouped(d: string)
    requires Numeric(d)
    ensures Grouped(d) && Ungroup(d) == d
  {
    UngroupDigits(d);
    assert IsDigit(d[0]) && IsDigit(d[|d| - 1]);
  }

  lemma PyIntOfDigits(d: string)
    requires Numeric(d)
    ensures PyInt(d) == Some(Value(d))
  {
    NumericGrouped(d);
    StripNothing(d);
  }

  lemma PyIntOfMinus(d: string)
    requires Numeric(d)
    ensures PyInt("-" + d) == Some(0 - Value(d))
  {
    var t := "-" + d;
    NumericGrouped(d);
    StripNothing(t);
    assert t[1..] == d;
  }

  lemma StrNatValue(n: nat)
    ensures Value(StrNat(n)) == n
  {
    Digits.DecimalFolds(n);
    ValueOfText(Digits.Decimal(n));
  }

  /** Reading a printed integer gives it back. */
  lemma PyIntOfStr(n: int)
    ensures PyInt(PyStr(n)) == Some(n)
  {
    StrNatValue(Digits.Abs(n));
    if n < 0 { PyIntOfMinus(StrNat(-n)); } else { PyIntOfDigits(StrNat(n)); }
  }

  lemma {:induction false} StripLeftBlank(l: string, x: string)
    requires Blank(l)
    ensures StripLeft(l + x) == StripLeft(x)
  {
    if l == "" {
      assert l + x == x;
    } else {
      assert (l + x)[0] == l[0] && (l + x)[1..] == l[1..] + x;
      StripLeftBlank(l[1..], x);
    }
  }

  lemma {:induction false} StripRightBlank(x: string, r: string)
    requires Blank(r)
    ensures StripRight(x + r) == StripRight(x)
    decreases |r|
  {
    if r == "" {
      assert x + r == x;
    } else {
      var n := |r| - 1;
      assert (x + r)[|x + r| - 1] == r[n] && (x + r)[..|x + r| - 1] == x + r[..n];
      StripRightBlank(x, r[..n]);
    }
  }

  /** `strip` gives the only text that has no white space around it. */
  lemma StripOf(s: string, t: string)
    requires Stripped(s, t)
    ensures Strip(s) == t
  {
    var l, r :| Blank(l) && Blank(r) && s == l + t + r;
    if t == "" {
      assert s == l + r;
      StripSpec(s);
    } else {
      assert s == l + (t + r);
      StripLeftBlank(l, t + r);
      assert (t + r)[0] == t[0];
      StripRightBlank(t, r);
    }
  }

  /** `s` is the number `n` written out: white space, an optional sign, digits with
      single underscores between them, white space. */
  ghost predicate IntText(s: string, n: int) {
    exists t, sign, body :: Stripped(s, t) && IntParts(t, sign, body, n)
  }

  predicate IntParts(t: string, sign: string, body: string, n: int) {
    && (sign == "" || sign == "+" || sign == "-") && Grouped(body) && t == sign + body
    && n == (if sign == "-" then 0 - Value(Ungroup(body)) else Value(Ungroup(body)))
  }

  lemma PartsRead(t: string, sign: string, body: string, n: int)
    requires IntParts(t, sign, body, n)
    ensures Signed(t) == (sign != "") && (sign == "" ==> t == body)
    ensures sign != "" ==> t[0] == sign[0] && t[1..] == body
  {
    assert IsDigit(body[0]);
    if sign != "" { assert t[0] == sign[0] && t[1..] == body; }
  }

  /** `int` on a text that is stripped already. */
  lemma ReadParts(s: string, t: string, sign: string, body: string, n: int)
    requires Strip(s) == t && IntParts(t, sign, body, n)
    ensures PyInt(s) == Some(n)
  {
    PartsRead(t, sign, body, n);
  }

  lemma PartsOf(s: string, n: int) returns (sign: string, body: string)
    requires PyInt(s) == Some(n)
    ensures IntParts(Strip(s), sign, body, n)
  {
    var u := Strip(s);
    sign, body := if Signed(u) then u[..1] else "", if Signed(u) then u[1..] else u;
    assert u == sign + body;
  }

  /** `int(s)` is `n` if and only if `s` is `n` written out; any other text raises. */
  lemma PyIntIff(s: string, n: int)
    ensures PyInt(s) == Some(n) <==> IntText(s, n)
  {
    if PyInt(s) == Some(n) {
      var sign, body := PartsOf(s, n);
      StripSpec(s);
    }
    if t, sign, body :| Stripped(s, t) && IntParts(t, sign, body, n) {
      StripOf(s, t);
      ReadParts(s, t, sign, body, n);
    }
  }
}
