/** The fixed patterns only the C++ checker uses, and its `split`. Every
    pattern is matched against the whole text (`std::regex_match`) and `\s` is
    `CSpace`. */
module CppPatterns {
  import opened Chars
  import opened Strings
  import opened Semantics
  import opened Patterns

  // ------------------------------------------------------------- parameters

  /** `\s*(int|float)\s+(\w+)\s*`: the type and the name of one parameter. */
  function MatchParam(p: string): Option<(Ty, string)>
  {
    var a := Span(p, 0, CSpace);
    match KeywordAt(p, a, false)
    case None => None
    case Some((t, a2)) =>
      var b := Span(p, a2, CSpace);
      var c := Span(p, b, WordChar);
      var d := Span(p, c, CSpace);
      if b == a2 || c == b || d != |p| then None else Some((t, p[b..c]))
  }

  /** A parameter: blanks up to `a`, the keyword, blanks up to `b`, the name up
      to `c`, and blanks to the end. */
  predicate ParamCut(p: string, t: Ty, a: nat, b: nat, c: nat)
  {
    t in {Int, Float} && a + |TypeName(t)| < b < c <= |p| &&
    Every(p, 0, a, CSpace) && p[a..a + |TypeName(t)|] == TypeName(t) &&
    Every(p, a + |TypeName(t)|, b, CSpace) && Every(p, b, c, WordChar) &&
    Every(p, c, |p|, CSpace)
  }

  lemma {:induction false} MatchParamSound(p: string, t: Ty, name: string) returns (a: nat, b: nat, c: nat)
    requires MatchParam(p) == Some((t, name))
    ensures ParamCut(p, t, a, b, c) && name == p[b..c]
  {
    a := Span(p, 0, CSpace);
    var a2 := KeywordAt(p, a, false).value.1;
    b := Span(p, a2, CSpace);
    c := Span(p, b, WordChar);
    ParamCutAt(p, t, a, a2, b, c);
  }

  /** The positions `MatchParam` finds are cut points of the parameter. */
  lemma {:induction false} ParamCutAt(p: string, t: Ty, a: nat, a2: nat, b: nat, c: nat)
    requires a <= |p| && Span(p, 0, CSpace) == a && KeywordAt(p, a, false) == Some((t, a2))
    requires a2 < b <= |p| && Span(p, a2, CSpace) == b
    requires b < c <= |p| && Span(p, b, WordChar) == c && Span(p, c, CSpace) == |p|
    ensures ParamCut(p, t, a, b, c)
  {
    SpanSpec(p, 0, CSpace);
    SpanSpec(p, a2, CSpace);
    SpanSpec(p, b, WordChar);
    SpanSpec(p, c, CSpace);
  }

  lemma {:induction false} MatchParamComplete(p: string, t: Ty, a: nat, b: nat, c: nat)
    requires ParamCut(p, t, a, b, c)
    ensures MatchParam(p) == Some((t, p[b..c]))
  {
    var a2 := a + |TypeName(t)|;
    assert p[a] == TypeName(t)[0];
    SpanIs(p, 0, a, CSpace);
    KeywordAtIs(p, a, false, t);
    assert !IsCSpace(p[b]) by {
      assert IsWordChar(p[b]);
    }
    SpanIs(p, a2, b, CSpace);
    assert c == |p| || !IsWordChar(p[c]) by {
      if c < |p| {
        assert IsCSpace(p[c]);
      }
    }
    SpanIs(p, b, c, WordChar);
    SpanIs(p, c, |p|, CSpace);
    MatchParamAt(p, t, a, a2, b, c);
  }

  /** What `MatchParam` computes, given the positions it finds. */
  lemma {:induction false} MatchParamAt(p: string, t: Ty, a: nat, a2: nat, b: nat, c: nat)
    requires a <= |p| && Span(p, 0, CSpace) == a && KeywordAt(p, a, false) == Some((t, a2))
    requires a2 < b <= |p| && Span(p, a2, CSpace) == b
    requires b < c <= |p| && Span(p, b, WordChar) == c && Span(p, c, CSpace) == |p|
    ensures MatchParam(p) == Some((t, p[b..c]))
  {
  }

  lemma {:induction false} MatchParamIff(p: string, t: Ty, name: string)
    ensures MatchParam(p) == Some((t, name)) <==>
            exists a: nat, b: nat, c: nat :: ParamCut(p, t, a, b, c) && name == p[b..c]
  {
    if MatchParam(p) == Some((t, name)) {
      var a, b, c := MatchParamSound(p, t, name);
    }
    if exists a: nat, b: nat, c: nat :: ParamCut(p, t, a, b, c) && name == p[b..c] {
      var a: nat, b: nat, c: nat :| ParamCut(p, t, a, b, c) && name == p[b..c];
      MatchParamComplete(p, t, a, b, c);
    }
  }

  // ------------------------------------------------------------ assignments

  /** `\s*(\w+)\s*=\s*(.+);`: the assigned name and the expression text. The
      expression runs up to the ';' that ends the line; when the blanks after
      '=' reach that ';', one blank is given back to `.+`. */
  function MatchAssign(l: string): Option<(string, string)>
  {
    var a := Span(l, 0, CSpace);
    var c := Span(l, a, WordChar);
    var d := Span(l, c, CSpace);
    if c == a || d == |l| || l[d] != '=' || l[|l| - 1] != ';' then None
    else
      var n := |l| - 1;
      var b := Span(l, d + 1, CSpace);
      if b < n && Every(l, b, n, CDot) then Some((l[a..c], l[b..n]))
      else if b == n && b > d + 1 && IsCDot(l[b - 1]) then Some((l[a..c], l[b - 1..n]))
      else None
  }

  /** An assignment: blanks up to `a`, the name up to `c`, blanks up to the '='
      at `d`, blanks up to `g`, the expression from `g` to the closing ';' at
      the end. An expression that starts with a blank is the blank given back. */
  predicate AssignCut(l: string, a: nat, c: nat, d: nat, g: nat)
  {
    a < c <= d < g < |l| - 1 &&
    Every(l, 0, a, CSpace) && Every(l, a, c, WordChar) && Every(l, c, d, CSpace) &&
    l[d] == '=' && Every(l, d + 1, g, CSpace) && Every(l, g, |l| - 1, CDot) &&
    l[|l| - 1] == ';' && (!IsCSpace(l[g]) || g + 1 == |l| - 1)
  }

  lemma {:induction false} MatchAssignSound(l: string, lhs: string, rhs: string) returns (a: nat, c: nat, d: nat, g: nat)
    requires MatchAssign(l) == Some((lhs, rhs))
    ensures AssignCut(l, a, c, d, g) && lhs == l[a..c] && rhs == l[g..|l| - 1]
  {
    a := Span(l, 0, CSpace);
    c := Span(l, a, WordChar);
    d := Span(l, c, CSpace);
    var b := Span(l, d + 1, CSpace);
    g := if b < |l| - 1 then b else b - 1;
    SpanSpec(l, 0, CSpace);
    SpanSpec(l, a, WordChar);
    SpanSpec(l, c, CSpace);
    SpanSpec(l, d + 1, CSpace);
  }

  lemma {:induction false} MatchAssignComplete(l: string, a: nat, c: nat, d: nat, g: nat)
    requires AssignCut(l, a, c, d, g)
    ensures MatchAssign(l) == Some((l[a..c], l[g..|l| - 1]))
  {
    var n := |l| - 1;
    assert !IsCSpace(l[a]);
    SpanIs(l, 0, a, CSpace);
    assert !IsWordChar(l[c]) by {
      if c < d { assert IsCSpace(l[c]); }
    }
    SpanIs(l, a, c, WordChar);
    SpanIs(l, c, d, CSpace);
    if IsCSpace(l[g]) {
      SpanIs(l, d + 1, n, CSpace);
    } else {
      SpanIs(l, d + 1, g, CSpace);
    }
  }

  lemma {:induction false} MatchAssignIff(l: string, lhs: string, rhs: string)
    ensures MatchAssign(l) == Some((lhs, rhs)) <==>
            exists a: nat, c: nat, d: nat, g: nat ::
              AssignCut(l, a, c, d, g) && lhs == l[a..c] && rhs == l[g..|l| - 1]
  {
    if MatchAssign(l) == Some((lhs, rhs)) {
      var a, c, d, g := MatchAssignSound(l, lhs, rhs);
    }
    if exists a: nat, c: nat, d: nat, g: nat ::
         AssignCut(l, a, c, d, g) && lhs == l[a..c] && rhs == l[g..|l| - 1] {
      var a: nat, c: nat, d: nat, g: nat :|
        AssignCut(l, a, c, d, g) && lhs == l[a..c] && rhs == l[g..|l| - 1];
      MatchAssignComplete(l, a, c, d, g);
    }
  }

  // ------------------------------------------------------------------ calls

  /** `^(\w+)\((.*)\)$`: the called name and the argument text. */
  function MatchCall(e: string): Option<(string, string)>
  {
    var c := Span(e, 0, WordChar);
    if c == 0 || c + 2 > |e| || e[c] != '(' || e[|e| - 1] != ')' || !Every(e, c + 1, |e| - 1, CDot)
    then None
    else Some((e[..c], e[c + 1..|e| - 1]))
  }

  /** A call: the name up to the '(' at `c`, and the argument text from there
      to the ')' that ends the expression. */
  predicate CallCut(e: string, c: nat)
  {
    0 < c && c + 2 <= |e| && Every(e, 0, c, WordChar) && e[c] == '(' &&
    Every(e, c + 1, |e| - 1, CDot) && e[|e| - 1] == ')'
  }

  /** The cut a call has is the one `MatchCall` makes. */
  lemma {:induction false} MatchCallAt(e: string, c: nat)
    requires CallCut(e, c)
    ensures MatchCall(e) == Some((e[..c], e[c + 1..|e| - 1]))
  {
    SpanIs(e, 0, c, WordChar);
  }

  lemma {:induction false} MatchCallIff(e: string, name: string, args: string)
    ensures MatchCall(e) == Some((name, args)) <==>
            exists c: nat :: CallCut(e, c) && name == e[..c] && args == e[c + 1..|e| - 1]
  {
    SpanSpec(e, 0, WordChar);
    if exists c: nat :: CallCut(e, c) && name == e[..c] && args == e[c + 1..|e| - 1] {
      var c: nat :| CallCut(e, c) && name == e[..c] && args == e[c + 1..|e| - 1];
      MatchCallAt(e, c);
    }
  }

  // ------------------------------------------------------------------ split

  /** A piece trimmed of `isspace` blanks, as an item if it is not empty. */
  function Keep(p: string): seq<string>
  {
    var x := Strip(p, CSpace);
    if x == [] then [] else [x]
  }

  /** The pieces each trimmed of `isspace` blanks, the empty ones dropped. */
  function Kept(ps: seq<string>): (r: seq<string>)
    ensures |r| <= |ps|
  {
    if ps == [] then [] else Keep(ps[0]) + Kept(ps[1..])
  }

  /** What `split(s, d)` returns. */
  function Items(s: string, d: char): seq<string>
  {
    Kept(Pieces(s, d))
  }

  /** The items still to be read once `getline` stands at `pos`: the piece up
      to the next delimiter, then whatever follows it. */
  function ItemsFrom(s: string, pos: nat, d: char): seq<string>
    decreases |s| + 1 - pos
  {
    if pos <= |s| then
      var k := Find(s, pos, d);
      Keep(s[pos..k]) + ItemsFrom(s, k + 1, d)
    else []
  }

  /** Reading items from `pos` on yields the items of the rest of the text. */
  lemma {:induction false} ItemsFromPieces(s: string, pos: nat, d: char)
    requires pos <= |s|
    ensures ItemsFrom(s, pos, d) == Kept(Pieces(s[pos..], d))
    decreases |s| - pos
  {
    var k := Find(s, pos, d);
    PiecesFrom(s, pos, d);
    if k == |s| {
      assert s[pos..k] == s[pos..];
      assert ItemsFrom(s, k + 1, d) == [];
      assert [s[pos..]][1..] == [];
    } else {
      ItemsFromPieces(s, k + 1, d);
      var rest := Pieces(s[k + 1..], d);
      assert ([s[pos..k]] + rest)[1..] == rest;
    }
  }

  /** What `split` has produced once `getline` stands at `pos`. */
  predicate SplitInv(s: string, d: char, pos: nat, out: seq<string>)
  {
    pos <= |s| + 1 && out + ItemsFrom(s, pos, d) == ItemsFrom(s, 0, d)
  }

  lemma {:induction false} SplitStep(s: string, d: char, pos: nat, k: nat, item: string, prev: seq<string>, out: seq<string>)
    requires pos <= |s| && k == Find(s, pos, d)
    requires SplitInv(s, d, pos, prev)
    requires item == Strip(s[pos..k], CSpace)
    requires out == if item == [] then prev else prev + [item]
    ensures SplitInv(s, d, k + 1, out)
  {
    assert out == prev + Keep(s[pos..k]);
    AppendAssoc(prev, Keep(s[pos..k]), ItemsFrom(s, k + 1, d));
  }

  /** `split`: `getline` reads up to each delimiter in turn, the item is trimmed,
      and only a non-empty item is kept. */
  method Split(s: string, d: char) returns (out: seq<string>)
    ensures out == Items(s, d)
  {
    out := [];
    var pos := 0;
    SplitStart(s, d);
    while pos < |s|
      invariant SplitInv(s, d, pos, out)
    {
      var k;
      k, out := ReadItem(s, d, pos, out);
      pos := k + 1;
    }
    SplitDone(s, d, pos, out);
  }

  /** One pass of the `getline` loop from `pos`: the piece up to the next
      delimiter is trimmed and kept if it is not empty. */
  method ReadItem(s: string, d: char, pos: nat, prev: seq<string>) returns (k: nat, out: seq<string>)
    requires pos < |s| && SplitInv(s, d, pos, prev)
    ensures pos <= k <= |s| && SplitInv(s, d, k + 1, out)
  {
    k := Find(s, pos, d);
    var item := Strip(s[pos..k], CSpace);
    out := prev;
    if item != [] {
      out := out + [item];
    }
    SplitStep(s, d, pos, k, item, prev, out);
  }

  /** Nothing is left to read once `getline` has reached the end. */
  lemma {:induction false} SplitDone(s: string, d: char, pos: nat, out: seq<string>)
    requires |s| <= pos && SplitInv(s, d, pos, out)
    ensures out == Items(s, d)
  {
    if pos == |s| {
      assert Keep(s[pos..pos]) == [];
    }
    assert ItemsFrom(s, pos, d) == [];
    assert out + [] == out;
    ItemsFromPieces(s, 0, d);
    assert s[0..] == s;
  }

  /** Before the first `getline`, every item is still to be read. */
  lemma {:induction false} SplitStart(s: string, d: char)
    ensures SplitInv(s, d, 0, [])
  {
    assert [] + ItemsFrom(s, 0, d) == ItemsFrom(s, 0, d);
  }

  /** Every item is non-empty, starts and ends with a non-blank, and holds no
      delimiter. */
  lemma {:induction false} KeptItems(ps: seq<string>, d: char)
    requires forall k :: 0 <= k < |ps| ==> d !in ps[k]
    ensures forall k :: 0 <= k < |Kept(ps)| ==>
              var x := Kept(ps)[k]; x != [] && !IsCSpace(x[0]) && !IsCSpace(x[|x| - 1]) && d !in x
  {
    if ps != [] {
      KeptItems(ps[1..], d);
      StripLacks(ps[0], d, CSpace);
      StripSpec(ps[0], CSpace);
    }
  }

  lemma {:induction false} ItemsWellFormed(s: string, d: char)
    ensures forall k :: 0 <= k < |Items(s, d)| ==>
              var x := Items(s, d)[k]; x != [] && !IsCSpace(x[0]) && !IsCSpace(x[|x| - 1]) && d !in x
  {
    PiecesNoDelim(s, d);
    KeptItems(Pieces(s, d), d);
  }

  lemma {:induction false} KeptAppend(a: seq<string>, b: seq<string>)
    ensures Kept(a + b) == Kept(a) + Kept(b)
  {
    if a != [] {
      assert (a + b)[1..] == a[1..] + b;
      KeptAppend(a[1..], b);
    } else {
      assert a + b == b;
    }
  }

  /** Items keep their order: the items of text before a delimiter come first,
      then those of the text after it. */
  lemma {:induction false} ItemsAppend(a: string, b: string, d: char)
    ensures Items(a + [d] + b, d) == Items(a, d) + Items(b, d)
  {
    PiecesAppend(a, b, d);
    KeptAppend(Pieces(a, d), Pieces(b, d));
  }

  /** A text without the delimiter is one item, or none when it is blank. */
  lemma {:induction false} ItemsSingle(x: string, d: char)
    requires d !in x
    ensures Items(x, d) == if Strip(x, CSpace) == [] then [] else [Strip(x, CSpace)]
  {
    PiecesSingle(x, d);
  }

  // ---------------------------------------------------------- blank removal

  /** The expression text with every `isspace` character removed and the
      others kept in order. */
  function Squeeze(e: string): string
  {
    Remove(e, CSpace)
  }

  /** No blank is left, so squeezing twice changes nothing more. */
  lemma {:induction false} SqueezeSpec(e: string)
    ensures NoneIn(Squeeze(e), CSpace)
    ensures Squeeze(Squeeze(e)) == Squeeze(e)
  {
    RemoveNoneIn(e, CSpace);
    RemoveNoop(Squeeze(e), CSpace);
  }
}
