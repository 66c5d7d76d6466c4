/** The three key-case codecs: the Rust scanner, the TypeScript regexes and the
    Python look-around regex, over ASCII letters and digits (any other character
    has no case). */
module KeyCase {
  predicate IsUpper(c: char) { 'A' <= c <= 'Z' }
  predicate IsLower(c: char) { 'a' <= c <= 'z' }
  predicate IsDigit(c: char) { '0' <= c <= '9' }
  predicate IsLowerOrDigit(c: char) { IsLower(c) || IsDigit(c) }

  function Upper(c: char): char {
    if IsLower(c) then (c as int - 32) as char else c
  }

  function Lower(c: char): char {
    if IsUpper(c) then (c as int + 32) as char else c
  }

  // --------------------------------------------------------------------- Rust

  /** The scanner's remaining output, given whether the next letter is to be
      capitalised. */
  function Scan(s: string, capitaliseNext: bool): string {
    if s == "" then ""
    else if s[0] == '_' then Scan(s[1..], true)
    else [if capitaliseNext then Upper(s[0]) else s[0]] + Scan(s[1..], false)
  }

  function RustCamel(s: string): string {
    if s != "" && s[0] == '_' then s else Scan(s, false)
  }

  /** One character of the scan, behind what is already out. */
  lemma ScanStep(s: string, i: nat, out: string, cap: bool)
    requires i < |s|
    ensures out + Scan(s[i..], cap) ==
            if s[i] == '_' then out + Scan(s[i + 1..], true)
            else (out + [if cap then Upper(s[i]) else s[i]]) + Scan(s[i + 1..], false)
  {
    assert s[i..][1..] == s[i + 1..];
  }

  method SnakeToCamel(s: string) returns (out: string)
    ensures out == RustCamel(s)
  {
    if |s| > 0 && s[0] == '_' {
      return s;
    }
    out := "";
    var capitaliseNext := false;
    var i := 0;
    while i < |s|
      invariant 0 <= i <= |s|
      invariant out + Scan(s[i..], capitaliseNext) == Scan(s, false)
    {
      ScanStep(s, i, out, capitaliseNext);
      if s[i] == '_' {
        capitaliseNext := true;
      } else if capitaliseNext {
        out := out + [Upper(s[i])];
        capitaliseNext := false;
      } else {
        out := out + [s[i]];
      }
      i := i + 1;
    }
  }

  lemma {:induction false} ScanHasNoUnderscore(s: string, cap: bool)
    ensures '_' !in Scan(s, cap)
  {
    if s != "" { ScanHasNoUnderscore(s[1..], s[0] == '_'); }
  }

  lemma {:induction false} ScanIdentity(s: string)
    requires '_' !in s
    ensures Scan(s, false) == s
  {
    if s != "" {
      ScanIdentity(s[1..]);
      assert s == [s[0]] + s[1..];
    }
  }

  /** A second application changes nothing. */
  lemma RustCamelIdempotent(s: string)
    ensures RustCamel(RustCamel(s)) == RustCamel(s)
  {
    if !(s != "" && s[0] == '_') {
      ScanHasNoUnderscore(s, false);
      ScanIdentity(Scan(s, false));
    }
  }

  /** The pieces after the first, each behind its underscore. */
  function Tail(ws: seq<string>): string {
    if ws == [] then "" else "_" + ws[0] + Tail(ws[1..])
  }

  /** Pieces joined by underscores. */
  function SnakeKey(ws: seq<string>): string {
    if ws == [] then "" else ws[0] + Tail(ws[1..])
  }

  /** A piece with its first letter capitalised. */
  function Capital(w: string): string {
    if w == "" then "" else [Upper(w[0])] + w[1..]
  }

  function Capitals(ws: seq<string>): string {
    if ws == [] then "" else Capital(ws[0]) + Capitals(ws[1..])
  }

  ghost predicate Pieces(ws: seq<string>) {
    forall i :: 0 <= i < |ws| ==> '_' !in ws[i]
  }

  /** Before an underscore, or at the end, nothing is waiting to be capitalised. */
  lemma ScanAtBreak(ws: seq<string>, cap: bool)
    ensures Scan(Tail(ws), cap) == Scan(Tail(ws), false)
  {
  }

  lemma {:induction false} ScanPiece(w: string, rest: string)
    requires '_' !in w
    ensures Scan(w + rest, false) == w + Scan(rest, false)
  {
    if w == "" {
      assert w + rest == rest;
    } else {
      assert (w + rest)[1..] == w[1..] + rest;
      ScanPiece(w[1..], rest);
      assert w == [w[0]] + w[1..];
    }
  }

  /** The scan behind an underscore capitalises the next piece. */
  lemma ScanCapital(w: string, ws: seq<string>)
    requires '_' !in w
    ensures Scan("_" + w + Tail(ws), false) == Capital(w) + Scan(Tail(ws), false)
  {
    var t := w + Tail(ws);
    assert "_" + w + Tail(ws) == ['_'] + t && (['_'] + t)[1..] == t;
    if w == "" {
      assert t == Tail(ws);
      ScanAtBreak(ws, true);
      assert Capital(w) + Scan(Tail(ws), false) == Scan(Tail(ws), false);
    } else {
      assert t[0] == w[0] && t[1..] == w[1..] + Tail(ws);
      assert '_' !in w[1..];
      ScanPiece(w[1..], Tail(ws));
    }
  }

  lemma {:induction false} ScanPieces(ws: seq<string>)
    requires Pieces(ws)
    ensures Scan(Tail(ws), false) == Capitals(ws)
  {
    if ws != [] {
      ScanPieces(ws[1..]);
      ScanCapital(ws[0], ws[1..]);
    }
  }

  lemma {:induction false} PiecesOf(s: string) returns (ws: seq<string>)
    ensures ws != [] && Pieces(ws) && SnakeKey(ws) == s
  {
    if s == "" {
      ws := [""];
    } else {
      var more := PiecesOf(s[1..]);
      if s[0] == '_' {
        ws := [""] + more;
        assert ws[1..] == more;
        assert s == "_" + s[1..];
      } else {
        ws := [[s[0]] + more[0]] + more[1..];
        assert ws[1..] == more[1..];
        assert s == [s[0]] + s[1..];
      }
    }
  }

  /** What the scanner makes of any key, split at its underscores: a key that starts
      with one is left alone, and else the pieces after the first are capitalised and
      the underscores dropped. */
  lemma RustCamelOfPieces(ws: seq<string>)
    requires ws != [] && Pieces(ws)
    ensures RustCamel(SnakeKey(ws)) ==
            if ws[0] == "" && |ws| > 1 then SnakeKey(ws) else ws[0] + Capitals(ws[1..])
  {
    if ws[0] == "" && |ws| > 1 {
      assert SnakeKey(ws)[0] == '_';
    } else {
      ScanPiece(ws[0], Tail(ws[1..]));
      ScanPieces(ws[1..]);
    }
  }

  // --------------------------------------------------------------- TypeScript

  predicate IsSeparator(c: char) { c == '_' || c == '.' }

  /** A match of `[_.]([a-z0-9])` at the start of `k`. */
  predicate SeparatorMatch(k: string) {
    |k| >= 2 && IsSeparator(k[0]) && IsLowerOrDigit(k[1])
  }

  /** `key.replace(/[_.]([a-z0-9])/g, upper)`: leftmost matches, not overlapping. */
  function TsCamel(k: string): string {
    if k == "" then ""
    else if SeparatorMatch(k) then [Upper(k[1])] + TsCamel(k[2..])
    else [k[0]] + TsCamel(k[1..])
  }

  /** `key.replace(/[A-Z]/g, c => "_" + lower(c))`. */
  function TsSnake(c: string): string {
    if c == "" then ""
    else if IsUpper(c[0]) then ['_', Lower(c[0])] + TsSnake(c[1..])
    else [c[0]] + TsSnake(c[1..])
  }

  /** Position `i` holds one of `[_.]` right before one of `[a-z0-9]`. */
  predicate PairAt(k: string, i: nat) {
    i + 1 < |k| && IsSeparator(k[i]) && IsLowerOrDigit(k[i + 1])
  }

  /** What survives camel-casing and back, with separators read as underscores. */
  predicate KeySurvives(k: string) {
    && (forall i :: 0 <= i < |k| ==> !IsUpper(k[i]))
    && (forall i :: 0 <= i < |k| && k[i] == '.' ==> i + 1 < |k| && IsLower(k[i + 1]))
    && (forall i :: 0 <= i < |k| - 1 && k[i] == '_' ==> !IsDigit(k[i + 1]))
  }

  /** The same, demanding that the key itself comes back. */
  predicate KeyReturns(k: string) {
    && (forall i :: 0 <= i < |k| ==> !IsUpper(k[i]))
    && (forall i :: 0 <= i < |k| - 1 && k[i] == '.' ==> !IsLowerOrDigit(k[i + 1]))
    && (forall i :: 0 <= i < |k| - 1 && k[i] == '_' ==> !IsDigit(k[i + 1]))
  }

  function Canon(k: string): string {
    seq(|k|, i requires 0 <= i < |k| => if k[i] == '.' then '_' else k[i])
  }

  lemma {:induction false} TsSnakeConcat(a: string, b: string)
    ensures TsSnake(a + b) == TsSnake(a) + TsSnake(b)
  {
    if a == "" {
      assert a + b == b;
    } else {
      assert (a + b)[0] == a[0] && (a + b)[1..] == a[1..] + b;
      TsSnakeConcat(a[1..], b);
    }
  }

  /** One step of there-and-back. */
  lemma ThereAndBackStep(k: string)
    requires k != ""
    ensures SeparatorMatch(k) ==>
              TsSnake(TsCamel(k)) == (if IsLower(k[1]) then ['_', k[1]] else [k[1]]) + TsSnake(TsCamel(k[2..]))
    ensures !SeparatorMatch(k) ==>
              TsSnake(TsCamel(k)) == (if IsUpper(k[0]) then ['_', Lower(k[0])] else [k[0]]) + TsSnake(TsCamel(k[1..]))
  {
    if SeparatorMatch(k) {
      TsSnakeConcat([Upper(k[1])], TsCamel(k[2..]));
      assert TsSnake([Upper(k[1])]) == (if IsLower(k[1]) then ['_', k[1]] else [k[1]]) by {
        assert [Upper(k[1])][1..] == "";
      }
    } else {
      TsSnakeConcat([k[0]], TsCamel(k[1..]));
      assert [k[0]][1..] == "";
    }
  }

  lemma {:induction false} SnakeHasNoUpper(c: string)
    ensures forall i :: 0 <= i < |TsSnake(c)| ==> !IsUpper(TsSnake(c)[i])
  {
    if c != "" { SnakeHasNoUpper(c[1..]); }
  }

  /** Without capitals the way there and back never lengthens a key. */
  lemma {:induction false} ThereAndBackLength(k: string)
    requires forall i :: 0 <= i < |k| ==> !IsUpper(k[i])
    ensures |TsSnake(TsCamel(k))| <= |k|
  {
    if k != "" {
      ThereAndBackStep(k);
      if SeparatorMatch(k) { ThereAndBackLength(k[2..]); } else { ThereAndBackLength(k[1..]); }
    }
  }

  lemma SurvivesTail(k: string, n: nat)
    requires n == 1 || n == 2
    requires n <= |k|
    ensures KeySurvives(k) ==> KeySurvives(k[n..])
    ensures KeyReturns(k) ==> KeyReturns(k[n..])
  {
    assert forall i :: 0 <= i < |k| - n ==> k[n..][i] == k[i + n];
  }

  lemma CanonCons(k: string, n: nat)
    requires n <= |k|
    ensures Canon(k) == Canon(k[..n]) + Canon(k[n..])
  {
  }

  lemma {:induction false} SurvivorsSurvive(k: string)
    requires KeySurvives(k)
    ensures TsSnake(TsCamel(k)) == Canon(k)
  {
    if k != "" {
      ThereAndBackStep(k);
      if SeparatorMatch(k) {
        SurvivesTail(k, 2);
        SurvivorsSurvive(k[2..]);
        CanonCons(k, 2);
        assert Canon(k[..2]) == ['_', k[1]];
      } else {
        SurvivesTail(k, 1);
        SurvivorsSurvive(k[1..]);
        CanonCons(k, 1);
        assert Canon(k[..1]) == [k[0]];
      }
    }
  }

  lemma {:induction false} OnlySurvivorsSurvive(k: string)
    requires TsSnake(TsCamel(k)) == Canon(k) && forall i :: 0 <= i < |k| ==> !IsUpper(k[i])
    ensures KeySurvives(k)
  {
    if k != "" {
      ThereAndBackStep(k);
      if SeparatorMatch(k) {
        CanonCons(k, 2);
        ThereAndBackLength(k[2..]);
        assert |Canon(k)| == |k|;
        assert IsLower(k[1]);
        assert TsSnake(TsCamel(k))[2..] == TsSnake(TsCamel(k[2..])) && Canon(k)[2..] == Canon(k[2..]);
        OnlySurvivorsSurvive(k[2..]);
        forall i | 2 <= i < |k| ensures k[i] == k[2..][i - 2] { }
      } else {
        CanonCons(k, 1);
        assert TsSnake(TsCamel(k))[0] == k[0] && Canon(k)[0] == (if k[0] == '.' then '_' else k[0]);
        assert TsSnake(TsCamel(k))[1..] == TsSnake(TsCamel(k[1..])) && Canon(k)[1..] == Canon(k[1..]);
        OnlySurvivorsSurvive(k[1..]);
        forall i | 1 <= i < |k| ensures k[i] == k[1..][i - 1] { }
      }
    }
  }

  /** Camel-casing a settings key and back gives it with dots read as
      underscores, if and only if it has no capital, no dot other than before a
      letter, and no underscore before a digit. */
  lemma SurvivesIff(k: string)
    ensures TsSnake(TsCamel(k)) == Canon(k) <==> KeySurvives(k)
  {
    if TsSnake(TsCamel(k)) == Canon(k) {
      SnakeHasNoUpper(TsCamel(k));
      forall i | 0 <= i < |k| ensures !IsUpper(k[i]) {
        assert !IsUpper(Canon(k)[i]);
      }
      OnlySurvivorsSurvive(k);
    }
    if KeySurvives(k) { SurvivorsSurvive(k); }
  }

  lemma {:induction false} ReturnersReturn(k: string)
    requires KeyReturns(k)
    ensures TsSnake(TsCamel(k)) == k
  {
    if k != "" {
      ThereAndBackStep(k);
      if SeparatorMatch(k) {
        SurvivesTail(k, 2);
        ReturnersReturn(k[2..]);
        assert k == [k[0], k[1]] + k[2..];
      } else {
        SurvivesTail(k, 1);
        ReturnersReturn(k[1..]);
        assert k == [k[0]] + k[1..];
      }
    }
  }

  lemma {:induction false} OnlyReturnersReturn(k: string)
    requires TsSnake(TsCamel(k)) == k && forall i :: 0 <= i < |k| ==> !IsUpper(k[i])
    ensures KeyReturns(k)
  {
    if k != "" {
      ThereAndBackStep(k);
      if SeparatorMatch(k) {
        ThereAndBackLength(k[2..]);
        assert IsLower(k[1]);
        assert k[2..] == TsSnake(TsCamel(k[2..]));
        OnlyReturnersReturn(k[2..]);
        forall i | 2 <= i < |k| ensures k[i] == k[2..][i - 2] { }
      } else {
        assert k[1..] == TsSnake(TsCamel(k[1..]));
        OnlyReturnersReturn(k[1..]);
        forall i | 1 <= i < |k| ensures k[i] == k[1..][i - 1] { }
      }
    }
  }

  /** `camelToSnake(snakeToCamel(k)) == k` if and only if `k` has no capital, no
      dot before a letter or digit, and no underscore before a digit. */
  lemma {:induction false} CamelThenSnakeIff(k: string)
    ensures TsSnake(TsCamel(k)) == k <==> KeyReturns(k)
  {
    if TsSnake(TsCamel(k)) == k {
      SnakeHasNoUpper(TsCamel(k));
      OnlyReturnersReturn(k);
    }
    if KeyReturns(k) { ReturnersReturn(k); }
  }

  lemma BackAndThereStep(c: string)
    requires c != ""
    ensures PairAt(c, 0) ==> TsCamel(TsSnake(c)) == [Upper(c[1])] + TsCamel(TsSnake(c[2..]))
    ensures !PairAt(c, 0) ==> TsCamel(TsSnake(c)) == [c[0]] + TsCamel(TsSnake(c[1..]))
  {
    if IsUpper(c[0]) {
      assert TsSnake(c)[2..] == TsSnake(c[1..]);
    } else {
      assert TsSnake(c)[1..] == TsSnake(c[1..]);
      if |c| > 1 {
        assert TsSnake(c[1..])[0] == if IsUpper(c[1]) then '_' else c[1];
        if PairAt(c, 0) {
          assert c[1..][1..] == c[2..];
          assert TsSnake(c)[2..] == TsSnake(c[1..])[1..] == TsSnake(c[2..]);
        }
      }
    }
  }

  lemma {:induction false} BackAndThereLength(c: string)
    ensures |TsCamel(TsSnake(c))| <= |c|
  {
    if c != "" {
      BackAndThereStep(c);
      if PairAt(c, 0) { BackAndThereLength(c[2..]); } else { BackAndThereLength(c[1..]); }
    }
  }

  lemma PairTail(c: string, i: nat)
    requires c != ""
    ensures PairAt(c[1..], i) <==> PairAt(c, i + 1)
  {
  }

  /** `snakeToCamel(camelToSnake(c)) == c` if and only if no separator stands
      right before a lower-case letter or a digit. */
  lemma {:induction false} SnakeThenCamelIff(c: string)
    ensures TsCamel(TsSnake(c)) == c <==> forall i: nat :: !PairAt(c, i)
  {
    if c != "" {
      BackAndThereStep(c);
      if PairAt(c, 0) {
        BackAndThereLength(c[2..]);
      } else {
        SnakeThenCamelIff(c[1..]);
        forall i: nat ensures PairAt(c[1..], i) <==> PairAt(c, i + 1) { PairTail(c, i); }
        assert c == [c[0]] + c[1..];
        assert (forall i: nat :: !PairAt(c, i)) <==> (forall i: nat :: !PairAt(c[1..], i)) by {
          if i: nat :| PairAt(c, i) { assert PairAt(c[1..], i - 1); }
          if i: nat :| PairAt(c[1..], i) { assert PairAt(c, i + 1); }
        }
      }
    }
  }

  // ----------------------------------------------------- agreement of scanners

  lemma {:induction false} TsCamelLength(k: string)
    ensures |TsCamel(k)| <= |k|
  {
    if k != "" { if SeparatorMatch(k) { TsCamelLength(k[2..]); } else { TsCamelLength(k[1..]); } }
  }

  lemma {:induction false} TsCamelFixedIff(k: string)
    ensures TsCamel(k) == k <==> forall i: nat :: !PairAt(k, i)
  {
    if k != "" {
      assert SeparatorMatch(k) <==> PairAt(k, 0);
      if SeparatorMatch(k) {
        TsCamelLength(k[2..]);
      } else {
        TsCamelFixedIff(k[1..]);
        assert k == [k[0]] + k[1..];
        assert (forall i: nat :: !PairAt(k, i)) <==> (forall i: nat :: !PairAt(k[1..], i)) by {
          if i: nat :| PairAt(k, i) { assert PairAt(k[1..], i - 1); }
          if i: nat :| PairAt(k[1..], i) { PairTail(k, i); }
        }
      }
    }
  }

  /** Every underscore, and no dot, stands right before `[a-z0-9]`. */
  predicate WordBreaksOnly(k: string) {
    && (forall i :: 0 <= i < |k| && k[i] == '_' ==> i + 1 < |k| && IsLowerOrDigit(k[i + 1]))
    && (forall i :: 0 <= i < |k| - 1 && k[i] == '.' ==> !IsLowerOrDigit(k[i + 1]))
  }

  lemma WordBreaksTail(k: string, n: nat)
    requires n <= |k|
    ensures WordBreaksOnly(k) ==> WordBreaksOnly(k[n..])
  {
    assert forall i :: 0 <= i < |k| - n ==> k[n..][i] == k[i + n];
  }

  lemma {:induction false} ScanAgreesIff(k: string)
    ensures Scan(k, false) == TsCamel(k) <==> WordBreaksOnly(k)
  {
    if k != "" {
      if k[0] == '_' && SeparatorMatch(k) {
        ScanAgreesIff(k[2..]);
        WordBreaksTail(k, 2);
        assert k[1..][1..] == k[2..];
        assert Scan(k, false) == [Upper(k[1])] + Scan(k[2..], false);
        assert TsCamel(k)[1..] == TsCamel(k[2..]) && Scan(k, false)[1..] == Scan(k[2..], false);
        if WordBreaksOnly(k[2..]) { forall i | 2 <= i < |k| ensures k[i] == k[2..][i - 2] { } }
      } else if k[0] == '_' {
        ScanHasNoUnderscore(k, false);
        assert TsCamel(k)[0] == '_';
      } else if SeparatorMatch(k) {
        assert Scan(k, false)[0] == '.' && TsCamel(k)[0] == Upper(k[1]);
      } else {
        ScanAgreesIff(k[1..]);
        WordBreaksTail(k, 1);
        assert TsCamel(k)[1..] == TsCamel(k[1..]) && Scan(k, false)[1..] == Scan(k[1..], false);
        if WordBreaksOnly(k[1..]) { forall i | 1 <= i < |k| ensures k[i] == k[1..][i - 1] { } }
      }
    }
  }

  /** The Rust and the TypeScript codec give a key the same camel form if and only
      if: the key starts with an underscore and holds no word break at all, or it
      does not and its word breaks are exactly its underscores. */
  lemma {:induction false} RustAgreesWithTsIff(k: string)
    ensures RustCamel(k) == TsCamel(k) <==>
              if k != "" && k[0] == '_' then forall i: nat :: !PairAt(k, i) else WordBreaksOnly(k)
  {
    if k != "" && k[0] == '_' { TsCamelFixedIff(k); } else { ScanAgreesIff(k); }
  }

  // ------------------------------------------------------------------- Python

  /** A boundary of `_CAMEL_RE` before `s`, with `prev` the character before it:
      lower-or-digit then capital, or capital then capital and lower. */
  predicate Boundary(prev: char, s: string) {
    && s != "" && IsUpper(s[0])
    && (IsLowerOrDigit(prev) || (IsUpper(prev) && |s| >= 2 && IsLower(s[1])))
  }

  /** The rest of `_CAMEL_RE.sub("_", name).lower()` after the character `prev`. */
  function PyRest(prev: char, s: string): string
    decreases |s|
  {
    if s == "" then ""
    else (if Boundary(prev, s) then "_" else "") + [Lower(s[0])] + PyRest(s[0], s[1..])
  }

  function PySnake(name: string): string {
    if name == "" then "" else [Lower(name[0])] + PyRest(name[0], name[1..])
  }

  /** `[a-z][a-z0-9]*`. */
  predicate Word(w: string) {
    w != "" && IsLower(w[0]) && forall i :: 0 <= i < |w| ==> IsLowerOrDigit(w[i])
  }

  predicate Words(ws: seq<string>) {
    forall i :: 0 <= i < |ws| ==> Word(ws[i])
  }

  function Cap(w: string): string
    requires w != ""
  {
    [Upper(w[0])] + w[1..]
  }

  function Caps(ws: seq<string>): string
    requires Words(ws)
  {
    if ws == [] then "" else Cap(ws[0]) + Caps(ws[1..])
  }

  lemma {:induction false} CapsAreCapitals(ws: seq<string>)
    requires Words(ws)
    ensures Caps(ws) == Capitals(ws) && Pieces(ws)
  {
    if ws != [] {
      assert Word(ws[0]);
      CapsAreCapitals(ws[1..]);
      forall i | 0 <= i < |ws| ensures '_' !in ws[i] { assert Word(ws[i]); }
    }
  }

  /** The camel form of a snake key: the first word, then the others capitalised. */
  lemma RustCamelOfWords(ws: seq<string>)
    requires Words(ws) && ws != []
    ensures RustCamel(SnakeKey(ws)) == ws[0] + Caps(ws[1..])
  {
    assert Word(ws[0]);
    CapsAreCapitals(ws[1..]);
    CapsAreCapitals(ws);
    RustCamelOfPieces(ws);
  }

  /** Over lower-case letters and digits the Python codec just copies. */
  lemma {:induction false} PyCopies(prev: char, w: string, rest: string)
    requires forall i :: 0 <= i < |w| ==> IsLowerOrDigit(w[i])
    ensures PyRest(prev, w + rest) == w + PyRest(if w == "" then prev else w[|w| - 1], rest)
    decreases |w|
  {
    if w == "" {
      assert w + rest == rest;
    } else {
      assert (w + rest)[1..] == w[1..] + rest;
      PyCopies(w[0], w[1..], rest);
      assert w == [w[0]] + w[1..];
    }
  }

  /** What the Python codec makes of capitalised words; `afterCap` says that the
      character before them is a capital, else it is a lower-case letter or a
      digit. */
  function Recovered(ws: seq<string>, afterCap: bool): string
    requires Words(ws)
  {
    if ws == [] then ""
    else Mark(afterCap, ws[0]) + ws[0] + Recovered(ws[1..], |ws[0]| == 1)
  }

  lemma LowerUpper(c: char)
    requires IsLower(c)
    ensures IsUpper(Upper(c)) && Lower(Upper(c)) == c
  {
  }

  lemma Regroup(a: string, b: string, c: string, d: string)
    ensures a + b + (c + d) == a + (b + c) + d
  {
  }

  /** The mark the Python codec puts before a capitalised word. */
  function Mark(afterCap: bool, w: string): string {
    if !afterCap || (|w| >= 2 && IsLower(w[1])) then "_" else ""
  }

  lemma BoundaryBeforeCap(prev: char, w: string, rest: string)
    requires Word(w) && (IsUpper(prev) || IsLowerOrDigit(prev)) && (rest != "" ==> IsUpper(rest[0]))
    ensures Boundary(prev, Cap(w) + rest) <==> Mark(IsUpper(prev), w) == "_"
  {
    var s := Cap(w) + rest;
    LowerUpper(w[0]);
    assert |s| >= 2 ==> s[1] == if |w| >= 2 then w[1] else rest[0];
  }

  lemma PyRestOfWord(c: char, w: string, rest: string)
    requires Word(w)
    ensures PyRest(c, w[1..] + rest) == w[1..] + PyRest(if |w| == 1 then c else w[|w| - 1], rest)
  {
    PyCopies(c, w[1..], rest);
  }

  lemma PyRestStep(prev: char, c: char, s: string)
    ensures PyRest(prev, [c] + s) == (if Boundary(prev, [c] + s) then "_" else "") + [Lower(c)] + PyRest(c, s)
  {
    assert ([c] + s)[1..] == s;
  }

  lemma PyCapWord(prev: char, w: string, rest: string)
    requires Word(w) && (IsUpper(prev) || IsLowerOrDigit(prev)) && (rest != "" ==> IsUpper(rest[0]))
    ensures PyRest(prev, Cap(w) + rest) == Mark(IsUpper(prev), w) + w + PyRest(Cap(w)[|w| - 1], rest)
  {
    var tail := w[1..] + rest;
    assert Cap(w) + rest == [Upper(w[0])] + tail;
    BoundaryBeforeCap(prev, w, rest);
    PyRestStep(prev, Upper(w[0]), tail);
    PyRestOfWord(Upper(w[0]), w, rest);
    PyCapWordGlue(Mark(IsUpper(prev), w), w, PyRest(Cap(w)[|w| - 1], rest));
  }

  lemma PyCapWordGlue(mark: string, w: string, more: string)
    requires Word(w)
    ensures mark + [Lower(Upper(w[0]))] + (w[1..] + more) == mark + w + more
  {
    LowerUpper(w[0]);
    Regroup(mark, [w[0]], w[1..], more);
    assert w == [w[0]] + w[1..];
  }

  lemma {:induction false} PyOfCaps(prev: char, ws: seq<string>)
    requires Words(ws) && (IsUpper(prev) || IsLowerOrDigit(prev))
    ensures PyRest(prev, Caps(ws)) == Recovered(ws, IsUpper(prev))
    decreases |ws|
  {
    if ws != [] {
      var w := ws[0];
      assert Word(w);
      if |ws| > 1 { assert Word(ws[1]); }
      PyCapWord(prev, w, Caps(ws[1..]));
      PyOfCaps(Cap(w)[|w| - 1], ws[1..]);
    }
  }

  lemma {:induction false} RecoveredLength(ws: seq<string>, afterCap: bool)
    requires Words(ws)
    ensures |Recovered(ws, afterCap)| <= |Tail(ws)|
  {
    if ws != [] { RecoveredLength(ws[1..], |ws[0]| == 1); }
  }

  /** Every one-letter word other than the first is last, or is followed by a
      word whose second character is a lower-case letter. */
  predicate LoneLettersGuarded(ws: seq<string>) {
    forall i :: 0 < i < |ws| - 1 && |ws[i]| == 1 ==> |ws[i + 1]| >= 2 && IsLower(ws[i + 1][1])
  }

  /** The same over the words after some word. */
  predicate GuardedAfter(ws: seq<string>, afterCap: bool) {
    && (afterCap && ws != [] ==> |ws[0]| >= 2 && IsLower(ws[0][1]))
    && (forall i :: 0 <= i < |ws| - 1 && |ws[i]| == 1 ==> |ws[i + 1]| >= 2 && IsLower(ws[i + 1][1]))
  }

  lemma {:induction false} RecoveredIff(ws: seq<string>, afterCap: bool)
    requires Words(ws)
    ensures Recovered(ws, afterCap) == Tail(ws) <==> GuardedAfter(ws, afterCap)
  {
    if ws != [] {
      var lone := |ws[0]| == 1;
      RecoveredLength(ws[1..], lone);
      RecoveredIff(ws[1..], lone);
      assert GuardedAfter(ws, afterCap) <==>
        (afterCap ==> |ws[0]| >= 2 && IsLower(ws[0][1])) && GuardedAfter(ws[1..], lone) by {
        assert forall i :: 0 < i < |ws| ==> ws[i] == ws[1..][i - 1];
      }
      if !afterCap || (|ws[0]| >= 2 && IsLower(ws[0][1])) {
        var head := "_" + ws[0];
        assert Recovered(ws, afterCap)[|head|..] == Recovered(ws[1..], lone) && Tail(ws)[|head|..] == Tail(ws[1..]);
      }
    }
  }

  lemma PySnakeStep(c: char, s: string)
    ensures PySnake([c] + s) == [Lower(c)] + PyRest(c, s)
  {
    assert ([c] + s)[1..] == s;
  }

  lemma ConsAppend(w: string, rest: string)
    requires w != ""
    ensures w + rest == [w[0]] + (w[1..] + rest)
  {
  }

  lemma PySnakeOfWord(w: string, rest: string)
    requires Word(w)
    ensures PySnake(w + rest) == w + PyRest(w[|w| - 1], rest)
  {
    var last := PyRest(w[|w| - 1], rest);
    ConsAppend(w, rest);
    PySnakeStep(w[0], w[1..] + rest);
    PyRestOfWord(w[0], w, rest);
    assert PyRest(w[0], w[1..] + rest) == w[1..] + last;
    ConsAppend(w, last);
    assert Lower(w[0]) == w[0];
  }

  lemma PythonOfCamel(ws: seq<string>)
    requires Words(ws) && ws != []
    ensures PySnake(RustCamel(SnakeKey(ws))) == ws[0] + Recovered(ws[1..], false)
  {
    assert Word(ws[0]);
    RustCamelOfWords(ws);
    PySnakeOfWord(ws[0], Caps(ws[1..]));
    PyOfCaps(ws[0][|ws[0]| - 1], ws[1..]);
  }

  lemma SamePrefix(w: string, a: string, b: string)
    ensures w + a == w + b <==> a == b
  {
    assert (w + a)[|w|..] == a && (w + b)[|w|..] == b;
  }

  /** `_camel_to_snake` undoes the Rust `snake_to_camel` on a key made of words
      joined by single underscores if and only if every one-letter word other
      than the first is last or is followed by a word whose second character is
      a lower-case letter. */
  lemma {:induction false} PythonUndoesRustIff(ws: seq<string>)
    requires Words(ws)
    ensures PySnake(RustCamel(SnakeKey(ws))) == SnakeKey(ws) <==> LoneLettersGuarded(ws)
  {
    if ws != [] {
      PythonOfCamel(ws);
      RecoveredIff(ws[1..], false);
      SamePrefix(ws[0], Recovered(ws[1..], false), Tail(ws[1..]));
      assert forall i :: 0 < i < |ws| ==> ws[i] == ws[1..][i - 1];
    }
  }
}
