/** Recognizers for the fixed patterns that both checkers share: number
    literals, the variable declaration `\s*(int|float)\s+([^;]+);` and the
    function-opening line `(int|float|void)\s+(\w+)\s*\(([^)]*)\)\s*\{`.
    The C++ checker matches the whole line (`std::regex_match`); the Python
    checker matches a prefix (`re.match`); `ws` is the blank class of each.

    Each recognizer is a deterministic scan (the regex engine's greedy choices
    worked out by hand); beside it a "cut" predicate says which cut points
    split a line into the pattern's parts, and an iff lemma shows that the
    scan succeeds exactly when such cut points exist, with the same captures. */
module Patterns {
  import opened Chars
  import opened Strings
  import opened Semantics

  predicate IsWord(s: string) { |s| > 0 && All(s, WordChar) }

  /** The two blank classes: `isspace` for the C++ checker, `str.isspace`
      for the Python one. */
  predicate BlankClass(ws: CharClass) {
    ws == CSpace || ws == PySpace
  }

  predicate IsDigits(s: string) { |s| > 0 && All(s, Digit) }

  // ---------------------------------------------------------------- literals

  /** `[0-9]+\.[0-9]+` over the whole token. */
  function IsFloatLiteral(tok: string): bool
  {
    var k := Span(tok, 0, Digit);
    0 < k && k + 1 < |tok| && tok[k] == '.' && Span(tok, k + 1, Digit) == |tok|
  }

  /** `[0-9]+` over the whole token. */
  function IsIntLiteral(tok: string): bool
  {
    0 < |tok| && Span(tok, 0, Digit) == |tok|
  }

  ghost predicate FloatShape(tok: string) {
    exists m, n :: IsDigits(m) && IsDigits(n) && tok == m + "." + n
  }

  lemma {:induction false} FloatLiteralIff(tok: string)
    ensures IsFloatLiteral(tok) <==> FloatShape(tok)
  {
    var k := Span(tok, 0, Digit);
    if IsFloatLiteral(tok) {
      SpanSpec(tok, 0, Digit);
      SpanSpec(tok, k + 1, Digit);
      var m, n := tok[..k], tok[k + 1..];
      assert tok == m + "." + n;
      assert IsDigits(n) by {
        assert forall i :: 0 <= i < |n| ==> n[i] == tok[k + 1 + i];
      }
    }
    if FloatShape(tok) {
      var m, n :| IsDigits(m) && IsDigits(n) && tok == m + "." + n;
      assert tok[0..] == m + ("." + n);
      SpanOver(tok, 0, m, "." + n, Digit);
      CharAt(tok, |m|, '.', n);
      SpanOver(tok, |m| + 1, n, [], Digit);
    }
  }

  lemma {:induction false} IntLiteralIff(tok: string)
    ensures IsIntLiteral(tok) <==> IsDigits(tok)
  {
    SpanSpec(tok, 0, Digit);
    if IsDigits(tok) {
      SpanIs(tok, 0, |tok|, Digit);
    }
  }

  /** No token is both: a float literal holds a '.', which is not a digit. */
  lemma {:induction false} LiteralsDisjoint(tok: string)
    ensures !(IsFloatLiteral(tok) && IsIntLiteral(tok))
  {
    if IsFloatLiteral(tok) {
      var k := Span(tok, 0, Digit);
      assert !IsDigit(tok[k]);
    }
  }

  // ------------------------------------------------------- the `;` terminator

  /** `\s{min,}([^;]+);` from position `i`, with `min` blanks required (0 for
      `\s*`, 1 for `\s+`): the captured text. When the blanks run up to the ';',
      the engine gives one blank back so that `[^;]+` can match it. With `whole`
      the ';' must end the line. */
  function TermAt(l: string, i: nat, ws: CharClass, min: nat, whole: bool): Option<string>
    requires i <= |l|
  {
    var b := Span(l, i, ws);
    var q := Find(l, b, ';');
    if b - i < min || q == |l| || (whole && q != |l| - 1) then None
    else if q > b then Some(l[b..q])
    else if b - i >= min + 1 then Some(l[b - 1..q])
    else None
  }

  /** `l[i..]` read as `\s{min,}([^;]+);`: at least `min` blanks up to `g`, the
      capture `l[g..q]` without a ';', and the ';' at `q`. A capture that
      starts with a blank is the single blank given back. */
  predicate TermCut(l: string, i: nat, ws: CharClass, min: nat, whole: bool, g: nat, q: nat)
  {
    i + min <= g < q < |l| && Every(l, i, g, ws) &&
    (forall k :: g <= k < q ==> l[k] != ';') && l[q] == ';' &&
    (!In(l[g], ws) || q == g + 1) && (whole ==> q == |l| - 1)
  }

  lemma {:induction false} TermAtSound(l: string, i: nat, ws: CharClass, min: nat, whole: bool, x: string)
    returns (g: nat, q: nat)
    requires i <= |l| && TermAt(l, i, ws, min, whole) == Some(x)
    ensures TermCut(l, i, ws, min, whole, g, q) && x == l[g..q]
  {
    var b := Span(l, i, ws);
    SpanSpec(l, i, ws);
    q := Find(l, b, ';');
    FindSpec(l, b, ';');
    g := if q > b then b else b - 1;
  }

  lemma {:induction false} TermAtComplete(l: string, i: nat, ws: CharClass, min: nat, whole: bool, g: nat, q: nat)
    requires i <= |l| && !In(';', ws)
    requires TermCut(l, i, ws, min, whole, g, q)
    ensures TermAt(l, i, ws, min, whole) == Some(l[g..q])
  {
    if In(l[g], ws) {
      SpanIs(l, i, q, ws);
      FindIs(l, q, q, ';');
    } else {
      SpanIs(l, i, g, ws);
      FindIs(l, g, q, ';');
    }
  }

  lemma {:induction false} TermAtIff(l: string, i: nat, ws: CharClass, min: nat, whole: bool, x: string)
    requires i <= |l| && !In(';', ws)
    ensures TermAt(l, i, ws, min, whole) == Some(x) <==>
            exists g: nat, q: nat :: TermCut(l, i, ws, min, whole, g, q) && x == l[g..q]
  {
    if TermAt(l, i, ws, min, whole) == Some(x) {
      var g, q := TermAtSound(l, i, ws, min, whole, x);
    }
    if exists g: nat, q: nat :: TermCut(l, i, ws, min, whole, g, q) && x == l[g..q] {
      var g: nat, q: nat :| TermCut(l, i, ws, min, whole, g, q) && x == l[g..q];
      TermAtComplete(l, i, ws, min, whole, g, q);
    }
  }

  // ------------------------------------------------------------ declarations

  /** `\s*(int|float)\s+([^;]+);`: the declared type and the raw name list. */
  function MatchDecl(l: string, ws: CharClass, whole: bool): Option<(Ty, string)>
  {
    var a := Span(l, 0, ws);
    match KeywordAt(l, a, false)
    case None => None
    case Some((t, a2)) =>
      match TermAt(l, a2, ws, 1, whole)
      case None => None
      case Some(names) => Some((t, names))
  }

  /** A declaration line: blanks up to `a`, the type keyword at `a`, then the
      blanks, names and ';' of `TermCut`. */
  predicate DeclCut(l: string, t: Ty, ws: CharClass, whole: bool, a: nat, g: nat, q: nat)
  {
    t in {Int, Float} && a + |TypeName(t)| <= |l| && Every(l, 0, a, ws) &&
    l[a..a + |TypeName(t)|] == TypeName(t) &&
    TermCut(l, a + |TypeName(t)|, ws, 1, whole, g, q)
  }

  lemma {:induction false} MatchDeclSound(l: string, ws: CharClass, whole: bool, t: Ty, names: string)
    returns (a: nat, g: nat, q: nat)
    requires MatchDecl(l, ws, whole) == Some((t, names))
    ensures DeclCut(l, t, ws, whole, a, g, q) && names == l[g..q]
  {
    a := Span(l, 0, ws);
    SpanSpec(l, 0, ws);
    var a2 := KeywordAt(l, a, false).value.1;
    g, q := TermAtSound(l, a2, ws, 1, whole, names);
  }

  lemma {:induction false} MatchDeclComplete(l: string, ws: CharClass, whole: bool, t: Ty, a: nat, g: nat, q: nat)
    requires BlankClass(ws) && DeclCut(l, t, ws, whole, a, g, q)
    ensures MatchDecl(l, ws, whole) == Some((t, l[g..q]))
  {
    assert l[a] == TypeName(t)[0];
    SpanIs(l, 0, a, ws);
    KeywordAtIs(l, a, false, t);
    TermAtComplete(l, a + |TypeName(t)|, ws, 1, whole, g, q);
    MatchDeclAt(l, ws, whole, t, a, a + |TypeName(t)|, l[g..q]);
  }

  /** What `MatchDecl` computes, given the keyword's position and the capture. */
  lemma {:induction false} MatchDeclAt(l: string, ws: CharClass, whole: bool, t: Ty, a: nat, a2: nat, names: string)
    requires a <= |l| && Span(l, 0, ws) == a && KeywordAt(l, a, false) == Some((t, a2))
    requires a2 <= |l| && TermAt(l, a2, ws, 1, whole) == Some(names)
    ensures MatchDecl(l, ws, whole) == Some((t, names))
  {
  }

  /** The declaration recognizer accepts exactly the lines that have the
      declaration's cut points, and captures the name list between them. */
  lemma {:induction false} MatchDeclIff(l: string, ws: CharClass, whole: bool, t: Ty, names: string)
    requires BlankClass(ws)
    ensures MatchDecl(l, ws, whole) == Some((t, names)) <==>
            exists a: nat, g: nat, q: nat :: DeclCut(l, t, ws, whole, a, g, q) && names == l[g..q]
  {
    if MatchDecl(l, ws, whole) == Some((t, names)) {
      var a, g, q := MatchDeclSound(l, ws, whole, t, names);
    }
    if exists a: nat, g: nat, q: nat :: DeclCut(l, t, ws, whole, a, g, q) && names == l[g..q] {
      var a: nat, g: nat, q: nat :| DeclCut(l, t, ws, whole, a, g, q) && names == l[g..q];
      MatchDeclComplete(l, ws, whole, t, a, g, q);
    }
  }

  // ------------------------------------------------------ function definitions

  /** `(int|float|void)\s+(\w+)\s*\(([^)]*)\)\s*\{`: the return type, the
      function name and the raw parameter list. */
  function MatchHeader(l: string, ws: CharClass, whole: bool): Option<(Ty, string, string)>
  {
    match KeywordAt(l, 0, true)
    case None => None
    case Some((t, a)) =>
      var b := Span(l, a, ws);
      var c := Span(l, b, WordChar);
      var d := Span(l, c, ws);
      if b == a || c == b || d == |l| || l[d] != '(' then None
      else
        var e := Find(l, d + 1, ')');
        if e == |l| then None
        else
          var f := Span(l, e + 1, ws);
          if f == |l| || l[f] != '{' || (whole && f != |l| - 1) then None
          else Some((t, l[b..c], l[d + 1..e]))
  }

  /** A function-opening line: the keyword, blanks up to `b`, the name up to
      `c`, blanks up to the '(' at `d`, the parameter list up to the ')' at `e`,
      blanks up to the '{' at `f`. */
  predicate HeaderCut(l: string, t: Ty, ws: CharClass, whole: bool,
                      b: nat, c: nat, d: nat, e: nat, f: nat)
  {
    t in {Int, Float, Void} && |TypeName(t)| < b < c <= d < e < f < |l| &&
    l[..|TypeName(t)|] == TypeName(t) && Every(l, |TypeName(t)|, b, ws) &&
    Every(l, b, c, WordChar) && Every(l, c, d, ws) && l[d] == '(' &&
    (forall k :: d < k < e ==> l[k] != ')') && l[e] == ')' &&
    Every(l, e + 1, f, ws) && l[f] == '{' && (whole ==> f == |l| - 1)
  }

  lemma {:induction false} MatchHeaderSound(l: string, ws: CharClass, whole: bool, t: Ty, name: string, params: string)
    returns (b: nat, c: nat, d: nat, e: nat, f: nat)
    requires MatchHeader(l, ws, whole) == Some((t, name, params))
    ensures HeaderCut(l, t, ws, whole, b, c, d, e, f) && name == l[b..c] && params == l[d + 1..e]
  {
    var a := KeywordAt(l, 0, true).value.1;
    b := Span(l, a, ws);
    c := Span(l, b, WordChar);
    d := Span(l, c, ws);
    e := Find(l, d + 1, ')');
    f := Span(l, e + 1, ws);
    HeaderCutAt(l, ws, whole, t, a, b, c, d, e, f);
  }

  /** The positions `MatchHeader` finds are cut points of the header. */
  lemma {:induction false} HeaderCutAt(l: string, ws: CharClass, whole: bool, t: Ty,
                      a: nat, b: nat, c: nat, d: nat, e: nat, f: nat)
    requires a < b < c <= d < e < f < |l| && t in {Int, Float, Void}
    requires KeywordAt(l, 0, true) == Some((t, a))
    requires Span(l, a, ws) == b && Span(l, b, WordChar) == c && Span(l, c, ws) == d
    requires l[d] == '(' && Find(l, d + 1, ')') == e && Span(l, e + 1, ws) == f
    requires l[f] == '{' && (whole ==> f == |l| - 1)
    ensures HeaderCut(l, t, ws, whole, b, c, d, e, f)
  {
    assert l[..a] == l[0..a];
    SpanSpec(l, a, ws);
    SpanSpec(l, b, WordChar);
    SpanSpec(l, c, ws);
    FindSpec(l, d + 1, ')');
    SpanSpec(l, e + 1, ws);
  }

  /** A word character is never a blank. */
  lemma {:induction false} WordNotBlank(ch: char)
    requires IsWordChar(ch)
    ensures !IsPySpace(ch)
  {
  }

  lemma {:induction false} MatchHeaderComplete(l: string, ws: CharClass, whole: bool, t: Ty,
                            b: nat, c: nat, d: nat, e: nat, f: nat)
    requires BlankClass(ws) && HeaderCut(l, t, ws, whole, b, c, d, e, f)
    ensures MatchHeader(l, ws, whole) == Some((t, l[b..c], l[d + 1..e]))
  {
    var a := |TypeName(t)|;
    assert l[0..a] == l[..a];
    KeywordAtIs(l, 0, true, t);
    WordNotBlank(l[b]);
    SpanIs(l, a, b, ws);
    HeaderNameEnds(l, ws, c, d);
    SpanIs(l, b, c, WordChar);
    assert !IsPySpace('(') && !IsPySpace('{');
    SpanIs(l, c, d, ws);
    FindIs(l, d + 1, e, ')');
    SpanIs(l, e + 1, f, ws);
    MatchHeaderAt(l, ws, whole, t, a, b, c, d, e, f);
  }

  /** The name ends at a blank or at the '(', neither of them a word character. */
  lemma {:induction false} HeaderNameEnds(l: string, ws: CharClass, c: nat, d: nat)
    requires BlankClass(ws) && c <= d < |l| && Every(l, c, d, ws) && l[d] == '('
    ensures !IsWordChar(l[c])
  {
    if c < d {
      assert In(l[c], ws);
      assert IsPySpace(l[c]);
    }
  }

  /** What `MatchHeader` computes, given the positions it finds. */
  lemma {:induction false} MatchHeaderAt(l: string, ws: CharClass, whole: bool, t: Ty,
                      a: nat, b: nat, c: nat, d: nat, e: nat, f: nat)
    requires a < b < c <= d < e < f < |l| && t in {Int, Float, Void}
    requires KeywordAt(l, 0, true) == Some((t, a))
    requires Span(l, a, ws) == b && Span(l, b, WordChar) == c && Span(l, c, ws) == d
    requires l[d] == '(' && Find(l, d + 1, ')') == e && Span(l, e + 1, ws) == f
    requires l[f] == '{' && (whole ==> f == |l| - 1)
    ensures MatchHeader(l, ws, whole) == Some((t, l[b..c], l[d + 1..e]))
  {
  }

  /** The header recognizer accepts exactly the lines that have the header's
      cut points, and captures the name and the parameter list between them. */
  lemma {:induction false} MatchHeaderIff(l: string, ws: CharClass, whole: bool, t: Ty, name: string, params: string)
    requires BlankClass(ws)
    ensures MatchHeader(l, ws, whole) == Some((t, name, params)) <==>
            exists b: nat, c: nat, d: nat, e: nat, f: nat ::
              HeaderCut(l, t, ws, whole, b, c, d, e, f) && name == l[b..c] && params == l[d + 1..e]
  {
    if MatchHeader(l, ws, whole) == Some((t, name, params)) {
      var b, c, d, e, f := MatchHeaderSound(l, ws, whole, t, name, params);
    }
    if exists b: nat, c: nat, d: nat, e: nat, f: nat ::
         HeaderCut(l, t, ws, whole, b, c, d, e, f) && name == l[b..c] && params == l[d + 1..e] {
      var b: nat, c: nat, d: nat, e: nat, f: nat :|
        HeaderCut(l, t, ws, whole, b, c, d, e, f) && name == l[b..c] && params == l[d + 1..e];
      MatchHeaderComplete(l, ws, whole, t, b, c, d, e, f);
    }
  }
}
