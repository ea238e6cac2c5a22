/** The recognizers of the Python checker. Python's `re.match` anchors a
    pattern at the start of the text only, so text after a match is ignored,
    `\s` and `str.strip` use `str.isspace`, and `.` stops at '\n'. */
module PyPatterns {
  import opened Chars
  import opened Strings
  import opened Semantics
  import opened Patterns

  // ------------------------------------------------------------ token lists

  /** Each text stripped of blanks. */
  function StripAll(ps: seq<string>): (r: seq<string>)
    ensures |r| == |ps|
  {
    if ps == [] then [] else [Strip(ps[0], PySpace)] + StripAll(ps[1..])
  }

  lemma {:induction false} StripAllAt(ps: seq<string>, k: nat)
    requires k < |ps|
    ensures StripAll(ps)[k] == Strip(ps[k], PySpace)
  {
    if k > 0 {
      StripAllAt(ps[1..], k - 1);
    }
  }

  /** `[x.strip() for x in s.split(d)]`: the text cut at every `d`, empty
      pieces kept, each piece stripped. */
  function Tokens(s: string, d: char): seq<string>
  {
    StripAll(Pieces(s, d))
  }

  /** A text that neither starts nor ends with a blank. */
  predicate Stripped(x: string) {
    x == [] || (!IsPySpace(x[0]) && !IsPySpace(x[|x| - 1]))
  }

  /** There is one token more than there are delimiters, and every token is
      stripped and holds no delimiter. */
  lemma {:induction false} TokensSpec(s: string, d: char)
    ensures |Tokens(s, d)| == multiset(s)[d] + 1
    ensures forall k :: 0 <= k < |Tokens(s, d)| ==> d !in Tokens(s, d)[k] && Stripped(Tokens(s, d)[k])
  {
    PiecesCount(s, d);
    PiecesNoDelim(s, d);
    forall k | 0 <= k < |Tokens(s, d)|
      ensures d !in Tokens(s, d)[k] && Stripped(Tokens(s, d)[k])
    {
      StripAllAt(Pieces(s, d), k);
      StripLacks(Pieces(s, d)[k], d, PySpace);
      StripSpec(Pieces(s, d)[k], PySpace);
    }
  }

  /** Tokens of a text without blanks at its pieces' ends are its pieces:
      splitting joined stripped tokens gives them back. */
  lemma {:induction false} TokensJoin(ts: seq<string>, d: char)
    requires |ts| >= 1
    requires forall k :: 0 <= k < |ts| ==> d !in ts[k] && Stripped(ts[k])
    ensures Tokens(Join(ts, d), d) == ts
  {
    PiecesJoin(ts, d);
    StripAllNoop(ts);
  }

  lemma {:induction false} StripAllNoop(ts: seq<string>)
    requires forall k :: 0 <= k < |ts| ==> Stripped(ts[k])
    ensures StripAll(ts) == ts
  {
    if ts != [] {
      StripNoop(ts[0], PySpace);
      StripAllNoop(ts[1..]);
    }
  }

  // ------------------------------------------------------------ declarations

  /** `parse_decl`: a line that starts with `\s*(int|float)\s+([^;]+);` gives
      its type and its names, the capture split at every ',' and each piece
      stripped. `None` stands for the source's `(None, [])`. */
  function ParseDecl(line: string): Option<(Ty, seq<string>)>
  {
    match MatchDecl(line, PySpace, false)
    case None => None
    case Some((t, raw)) => Some((t, Tokens(raw, ',')))
  }

  /** A declaration is recognised exactly when the line has the declaration's
      cut points, and its names are the tokens of the text between them. */
  lemma {:induction false} ParseDeclIff(line: string, t: Ty, names: seq<string>)
    ensures ParseDecl(line) == Some((t, names)) <==>
            exists a: nat, g: nat, q: nat :: DeclCut(line, t, PySpace, false, a, g, q) && names == Tokens(line[g..q], ',')
  {
    if ParseDecl(line) == Some((t, names)) {
      var raw := MatchDecl(line, PySpace, false).value.1;
      var a, g, q := MatchDeclSound(line, PySpace, false, t, raw);
    }
    if exists a: nat, g: nat, q: nat :: DeclCut(line, t, PySpace, false, a, g, q) && names == Tokens(line[g..q], ',') {
      var a: nat, g: nat, q: nat :| DeclCut(line, t, PySpace, false, a, g, q) && names == Tokens(line[g..q], ',');
      MatchDeclComplete(line, PySpace, false, t, a, g, q);
    }
  }

  /** A declaration is `int` or `float` and names one more name than its
      capture has commas; the names hold no comma and are stripped (a name may
      be empty: `int a,;` declares "a" and ""). */
  lemma {:induction false} ParseDeclNames(line: string)
    requires ParseDecl(line).Some?
    ensures var (t, names) := ParseDecl(line).value;
            && t in {Int, Float}
            && |names| == multiset(MatchDecl(line, PySpace, false).value.1)[','] + 1
            && forall k :: 0 <= k < |names| ==> ',' !in names[k] && Stripped(names[k])
  {
    var (t, raw) := MatchDecl(line, PySpace, false).value;
    var a, g, q := MatchDeclSound(line, PySpace, false, t, raw);
    TokensSpec(raw, ',');
  }

  // ---------------------------------------------------------------- literals

  /** `literal_type`: `float` for `[0-9]+\.[0-9]+`, `int` for `[0-9]+`, both
      over the whole token, and `None` otherwise. */
  function LiteralType(tok: string): Option<Ty>
  {
    if IsFloatLiteral(tok) then Some(Float)
    else if IsIntLiteral(tok) then Some(Int)
    else None
  }

  /** The literal type is given by the token's shape alone. */
  lemma {:induction false} LiteralTypeSpec(tok: string)
    ensures LiteralType(tok) == Some(Float) <==> FloatShape(tok)
    ensures LiteralType(tok) == Some(Int) <==> IsDigits(tok)
    ensures LiteralType(tok) == None <==> !FloatShape(tok) && !IsDigits(tok)
  {
    FloatLiteralIff(tok);
    IntLiteralIff(tok);
    LiteralsDisjoint(tok);
  }

  // ------------------------------------------------------------ assignments

  /** `(\w+)\s*=\s*([^;]+);` at the start of the line: the target and the
      expression text. */
  function MatchAssign(l: string): Option<(string, string)>
  {
    var c := Span(l, 0, WordChar);
    var d := Span(l, c, PySpace);
    if c == 0 || d == |l| || l[d] != '=' then None
    else
      match TermAt(l, d + 1, PySpace, 0, false)
      case None => None
      case Some(rhs) => Some((l[..c], rhs))
  }

  /** An assignment: the target up to `c`, blanks up to the '=' at `d`, then
      the blanks, expression and ';' of `TermCut`. */
  predicate AssignCut(l: string, c: nat, d: nat, g: nat, q: nat)
  {
    0 < c <= d < |l| && Every(l, 0, c, WordChar) && Every(l, c, d, PySpace) && l[d] == '=' &&
    TermCut(l, d + 1, PySpace, 0, false, g, q)
  }

  lemma {:induction false} MatchAssignSound(l: string, lhs: string, rhs: string) returns (c: nat, d: nat, g: nat, q: nat)
    requires MatchAssign(l) == Some((lhs, rhs))
    ensures AssignCut(l, c, d, g, q) && lhs == l[..c] && rhs == l[g..q]
  {
    c := Span(l, 0, WordChar);
    d := Span(l, c, PySpace);
    SpanSpec(l, 0, WordChar);
    SpanSpec(l, c, PySpace);
    g, q := TermAtSound(l, d + 1, PySpace, 0, false, rhs);
  }

  lemma {:induction false} MatchAssignComplete(l: string, c: nat, d: nat, g: nat, q: nat)
    requires AssignCut(l, c, d, g, q)
    ensures MatchAssign(l) == Some((l[..c], l[g..q]))
  {
    assert !IsWordChar(l[c]) by {
      if c < d { assert IsPySpace(l[c]); }
    }
    SpanIs(l, 0, c, WordChar);
    SpanIs(l, c, d, PySpace);
    TermAtComplete(l, d + 1, PySpace, 0, false, g, q);
  }

  /** The assignment recognizer accepts exactly the lines that have an
      assignment's cut points, and captures the text between them. */
  lemma {:induction false} MatchAssignIff(l: string, lhs: string, rhs: string)
    ensures MatchAssign(l) == Some((lhs, rhs)) <==>
            exists c: nat, d: nat, g: nat, q: nat :: AssignCut(l, c, d, g, q) && lhs == l[..c] && rhs == l[g..q]
  {
    if MatchAssign(l) == Some((lhs, rhs)) {
      var c, d, g, q := MatchAssignSound(l, lhs, rhs);
    }
    if exists c: nat, d: nat, g: nat, q: nat :: AssignCut(l, c, d, g, q) && lhs == l[..c] && rhs == l[g..q] {
      var c: nat, d: nat, g: nat, q: nat :| AssignCut(l, c, d, g, q) && lhs == l[..c] && rhs == l[g..q];
      MatchAssignComplete(l, c, d, g, q);
    }
  }

  // ------------------------------------------------------------------ calls

  /** `(\w+)\((.*)\)` at the start of the expression: the called name and the
      argument text, which runs to the last ')' before the first line break. */
  function MatchCall(e: string): Option<(string, string)>
  {
    var c := Span(e, 0, WordChar);
    if c == 0 || c == |e| || e[c] != '(' then None
    else
      var n := Find(e, c + 1, '\n');
      var r := LastBefore(e, c + 1, n, ')');
      if r <= c then None else Some((e[..c], e[c + 1..r]))
  }

  /** A call: the name up to the '(' at `c`, the argument text up to the ')'
      at `r` with no line break in between, and no later ')' on that line. */
  predicate CallCut(e: string, c: nat, r: nat)
  {
    0 < c < r < |e| && Every(e, 0, c, WordChar) && e[c] == '(' && Every(e, c + 1, r + 1, PyDot) &&
    e[r] == ')' && forall k :: r < k < |e| && Every(e, r, k + 1, PyDot) ==> e[k] != ')'
  }

  lemma {:induction false} MatchCallSound(e: string, name: string, args: string) returns (c: nat, r: nat)
    requires MatchCall(e) == Some((name, args))
    ensures CallCut(e, c, r) && name == e[..c] && args == e[c + 1..r]
  {
    c := Span(e, 0, WordChar);
    SpanSpec(e, 0, WordChar);
    var n := Find(e, c + 1, '\n');
    FindSpec(e, c + 1, '\n');
    r := LastBefore(e, c + 1, n, ')');
    LastBeforeSpec(e, c + 1, n, ')');
    forall k | r < k < |e| && Every(e, r, k + 1, PyDot)
      ensures e[k] != ')'
    {
    }
  }

  lemma {:induction false} MatchCallComplete(e: string, c: nat, r: nat)
    requires CallCut(e, c, r)
    ensures MatchCall(e) == Some((e[..c], e[c + 1..r]))
  {
    SpanIs(e, 0, c, WordChar);
    var n := Find(e, c + 1, '\n');
    FindSpec(e, c + 1, '\n');
    forall m | r < m < n
      ensures e[m] != ')'
    {
      assert Every(e, r, m + 1, PyDot);
    }
    LastBeforeIs(e, c + 1, n, ')', r);
  }

  /** The call recognizer accepts exactly the expressions that have a call's
      cut points, and captures the name and argument text between them. */
  lemma {:induction false} MatchCallIff(e: string, name: string, args: string)
    ensures MatchCall(e) == Some((name, args)) <==>
            exists c: nat, r: nat :: CallCut(e, c, r) && name == e[..c] && args == e[c + 1..r]
  {
    if MatchCall(e) == Some((name, args)) {
      var c, r := MatchCallSound(e, name, args);
    }
    if exists c: nat, r: nat :: CallCut(e, c, r) && name == e[..c] && args == e[c + 1..r] {
      var c: nat, r: nat :| CallCut(e, c, r) && name == e[..c] && args == e[c + 1..r];
      MatchCallComplete(e, c, r);
    }
  }

  // ------------------------------------------------------------------- sums

  /** `(.+)\+(.+)` at the start of the expression: the two operands, split at
      the last '+' of the first line that has a character on each side. */
  function MatchSum(e: string): Option<(string, string)>
  {
    var n := Find(e, 0, '\n');
    if n < 2 then None
    else
      var p := LastBefore(e, 1, n - 1, '+');
      if p < 1 then None else Some((e[..p], e[p + 1..n]))
  }

  /** A sum: the first line ends at `n`, and its '+' at `p` has a character
      before it, at least one after it, and no other '+' that does. */
  predicate SumCut(e: string, p: nat, n: nat)
  {
    1 <= p && p + 1 < n <= |e| && Every(e, 0, n, PyDot) && (n == |e| || e[n] == '\n') &&
    e[p] == '+' && forall m :: p < m < n - 1 ==> e[m] != '+'
  }

  lemma {:induction false} MatchSumSound(e: string, x: string, y: string) returns (p: nat, n: nat)
    requires MatchSum(e) == Some((x, y))
    ensures SumCut(e, p, n) && x == e[..p] && y == e[p + 1..n]
  {
    n := Find(e, 0, '\n');
    FindSpec(e, 0, '\n');
    p := LastBefore(e, 1, n - 1, '+');
    LastBeforeSpec(e, 1, n - 1, '+');
  }

  lemma {:induction false} MatchSumComplete(e: string, p: nat, n: nat)
    requires SumCut(e, p, n)
    ensures MatchSum(e) == Some((e[..p], e[p + 1..n]))
  {
    FindIs(e, 0, n, '\n');
    LastBeforeIs(e, 1, n - 1, '+', p);
  }

  /** The sum recognizer accepts exactly the expressions that have a sum's cut
      points, and captures the two operands around the '+'. */
  lemma {:induction false} MatchSumIff(e: string, x: string, y: string)
    ensures MatchSum(e) == Some((x, y)) <==>
            exists p: nat, n: nat :: SumCut(e, p, n) && x == e[..p] && y == e[p + 1..n]
  {
    if MatchSum(e) == Some((x, y)) {
      var p, n := MatchSumSound(e, x, y);
    }
    if exists p: nat, n: nat :: SumCut(e, p, n) && x == e[..p] && y == e[p + 1..n] {
      var p: nat, n: nat :| SumCut(e, p, n) && x == e[..p] && y == e[p + 1..n];
      MatchSumComplete(e, p, n);
    }
  }

  /** The operands glue back, around the '+', into the expression's first line. */
  lemma {:induction false} MatchSumJoin(e: string, x: string, y: string)
    requires MatchSum(e) == Some((x, y))
    ensures x != [] && y != [] && '\n' !in x + y && x + "+" + y <= e
  {
    var p, n := MatchSumSound(e, x, y);
    NotInSlice(e, 0, n, '\n');
    assert x + "+" + y == e[..n];
    assert e[0..n] == e[..n];
    assert x + y == e[..p] + e[p + 1..n];
  }

  // ---------------------------------------------------------- source lines

  /** What the line filter keeps of one line: the stripped line, unless it is
      blank or starts with `//`. */
  function SourceLine(l: string): seq<string>
  {
    var x := Strip(l, PySpace);
    if x != [] && !("//" <= x) then [x] else []
  }

  /** The lines the checker reads, in order. */
  function SourceLines(raw: seq<string>): seq<string>
  {
    if raw == [] then [] else SourceLine(raw[0]) + SourceLines(raw[1..])
  }

  /** Every line read is non-empty, stripped, and not a comment. */
  lemma {:induction false} SourceLinesSpec(raw: seq<string>)
    ensures forall k :: 0 <= k < |SourceLines(raw)| ==>
              var x := SourceLines(raw)[k]; x != [] && Stripped(x) && !("//" <= x)
  {
    if raw != [] {
      StripSpec(raw[0], PySpace);
      SourceLinesSpec(raw[1..]);
    }
  }

  /** The filter works line by line. */
  lemma {:induction false} SourceLinesAppend(a: seq<string>, b: seq<string>)
    ensures SourceLines(a + b) == SourceLines(a) + SourceLines(b)
  {
    if a == [] {
      assert a + b == b;
    } else {
      assert (a + b)[1..] == a[1..] + b;
      SourceLinesAppend(a[1..], b);
    }
  }

  /** Filtering the lines read changes nothing. */
  lemma {:induction false} SourceLinesIdempotent(raw: seq<string>)
    ensures SourceLines(SourceLines(raw)) == SourceLines(raw)
  {
    if raw != [] {
      var x := SourceLine(raw[0]);
      StripSpec(raw[0], PySpace);
      SourceLinesIdempotent(raw[1..]);
      SourceLinesAppend(x, SourceLines(raw[1..]));
      if x != [] {
        StripNoop(x[0], PySpace);
        assert x[1..] == [];
      }
    }
  }
}
