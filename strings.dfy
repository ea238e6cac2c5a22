/** Scanning, trimming and splitting of strings, shared by both checkers. */
module Strings {
  import opened Chars

  /** Every character of `s` satisfies `p`. */
  predicate All(s: string, p: CharClass) {
    forall k :: 0 <= k < |s| ==> In(s[k], p)
  }

  /** Every character of `s[i..j]` satisfies `p`. */
  predicate Every(s: string, i: nat, j: nat, p: CharClass)
    requires i <= j <= |s|
  {
    forall k :: i <= k < j ==> In(s[k], p)
  }

  /** The end of the longest run of characters satisfying `p` that starts at `i`. */
  function Span(s: string, i: nat, p: CharClass): (j: nat)
    requires i <= |s|
    ensures i <= j <= |s|
    decreases |s| - i
  {
    if i == |s| || !In(s[i], p) then i else Span(s, i + 1, p)
  }

  /** The run `Span` finds is in the class, and what follows it is not. */
  lemma {:induction false} SpanSpec(s: string, i: nat, p: CharClass)
    requires i <= |s|
    ensures Every(s, i, Span(s, i, p), p)
    ensures Span(s, i, p) == |s| || !In(s[Span(s, i, p)], p)
    decreases |s| - i
  {
    if i < |s| && In(s[i], p) {
      SpanSpec(s, i + 1, p);
    }
  }

  /** A run that satisfies `p` and cannot be extended is the one `Span` finds. */
  lemma {:induction false} SpanIs(s: string, i: nat, j: nat, p: CharClass)
    requires i <= j <= |s|
    requires forall k :: i <= k < j ==> In(s[k], p)
    requires j == |s| || !In(s[j], p)
    ensures Span(s, i, p) == j
    decreases j - i
  {
    if i < j {
      SpanIs(s, i + 1, j, p);
    }
  }

  /** The first position at or after `i` that holds `c`, or `|s|` if there is none. */
  function Find(s: string, i: nat, c: char): (j: nat)
    requires i <= |s|
    ensures i <= j <= |s|
    decreases |s| - i
  {
    if i == |s| || s[i] == c then i else Find(s, i + 1, c)
  }

  /** No `c` before the position `Find` returns, and `c` at it unless it is the end. */
  lemma {:induction false} FindSpec(s: string, i: nat, c: char)
    requires i <= |s|
    ensures forall k :: i <= k < Find(s, i, c) ==> s[k] != c
    ensures Find(s, i, c) == |s| || s[Find(s, i, c)] == c
    decreases |s| - i
  {
    if i < |s| && s[i] != c {
      FindSpec(s, i + 1, c);
    }
  }

  lemma {:induction false} FindIs(s: string, i: nat, j: nat, c: char)
    requires i <= j <= |s|
    requires forall k :: i <= k < j ==> s[k] != c
    requires j == |s| || s[j] == c
    ensures Find(s, i, c) == j
    decreases j - i
  {
    if i < j {
      FindIs(s, i + 1, j, c);
    }
  }

  /** A slice lacks `c` exactly when none of its positions holds `c`. */
  lemma {:induction false} NotInSlice(s: string, i: nat, j: nat, c: char)
    requires i <= j <= |s|
    ensures c !in s[i..j] <==> forall k :: i <= k < j ==> s[k] != c
  {
    if c in s[i..j] {
      var m :| 0 <= m < j - i && s[i..j][m] == c;
      assert s[i + m] == c;
    }
    if exists k :: i <= k < j && s[k] == c {
      var k :| i <= k < j && s[k] == c;
      assert s[i..j][k - i] == c;
    }
  }

  /** The last position in `[lo, hi)` that holds `c`, or `lo - 1` if there is none. */
  function LastBefore(s: string, lo: nat, hi: nat, c: char): (k: int)
    requires lo <= hi <= |s|
    ensures lo - 1 <= k < hi
    decreases hi - lo
  {
    if hi == lo then lo - 1
    else if s[hi - 1] == c then hi - 1
    else LastBefore(s, lo, hi - 1, c)
  }

  /** The position found holds `c`, and no later one in the range does. */
  lemma {:induction false} LastBeforeSpec(s: string, lo: nat, hi: nat, c: char)
    requires lo <= hi <= |s|
    ensures var k := LastBefore(s, lo, hi, c);
            (k >= lo ==> s[k] == c) && forall m :: k < m < hi && lo <= m ==> s[m] != c
    decreases hi - lo
  {
    if hi > lo && s[hi - 1] != c {
      LastBeforeSpec(s, lo, hi - 1, c);
    }
  }

  /** A `c` in `[lo, hi)` with no `c` after it there is the one `LastBefore` finds. */
  lemma {:induction false} LastBeforeIs(s: string, lo: nat, hi: nat, c: char, k: nat)
    requires lo <= k < hi <= |s| && s[k] == c
    requires forall m :: k < m < hi ==> s[m] != c
    ensures LastBefore(s, lo, hi, c) == k
    decreases hi - k
  {
    if k + 1 < hi {
      LastBeforeIs(s, lo, hi - 1, c, k);
    }
  }

  /** The start of the longest run of characters satisfying `p` that ends at `hi`,
      looking no further left than `lo`. */
  function BackSpan(s: string, lo: nat, hi: nat, p: CharClass): (j: nat)
    requires lo <= hi <= |s|
    ensures lo <= j <= hi
    decreases hi - lo
  {
    if hi == lo || !In(s[hi - 1], p) then hi else BackSpan(s, lo, hi - 1, p)
  }

  /** The run `BackSpan` finds is in the class, and what precedes it is not. */
  lemma {:induction false} BackSpanSpec(s: string, lo: nat, hi: nat, p: CharClass)
    requires lo <= hi <= |s|
    ensures Every(s, BackSpan(s, lo, hi, p), hi, p)
    ensures BackSpan(s, lo, hi, p) == lo || !In(s[BackSpan(s, lo, hi, p) - 1], p)
    decreases hi - lo
  {
    if hi > lo && In(s[hi - 1], p) {
      BackSpanSpec(s, lo, hi - 1, p);
    }
  }

  /** `s` without its leading and trailing characters that satisfy `ws`. */
  function Strip(s: string, ws: CharClass): string
  {
    var a := Span(s, 0, ws);
    SpanSpec(s, 0, ws);
    BackSpanSpec(s, a, |s|, ws);
    s[a..BackSpan(s, a, |s|, ws)]
  }

  /** The stripped text is no longer than the text, and neither starts nor
      ends with a character of the class. */
  lemma {:induction false} StripSpec(s: string, ws: CharClass)
    ensures var r := Strip(s, ws);
            |r| <= |s| && (r == [] || (!In(r[0], ws) && !In(r[|r| - 1], ws)))
  {
    var a := Span(s, 0, ws);
    SpanSpec(s, 0, ws);
    BackSpanSpec(s, a, |s|, ws);
  }

  /** Only blanks are removed: the result sits in `s` at `a`, between a blank
      prefix and a blank suffix. */
  lemma {:induction false} StripIsSlice(s: string, ws: CharClass) returns (a: nat)
    ensures a + |Strip(s, ws)| <= |s| && s[a..a + |Strip(s, ws)|] == Strip(s, ws)
    ensures Every(s, 0, a, ws) && Every(s, a + |Strip(s, ws)|, |s|, ws)
  {
    a := Span(s, 0, ws);
    SpanSpec(s, 0, ws);
    BackSpanSpec(s, a, |s|, ws);
  }

  /** Stripping a string whose ends are not blank changes nothing. */
  lemma {:induction false} StripNoop(s: string, ws: CharClass)
    requires s == [] || (!In(s[0], ws) && !In(s[|s| - 1], ws))
    ensures Strip(s, ws) == s
  {
    if s != [] {
      SpanIs(s, 0, 0, ws);
    }
  }

  /** A stripped text is a slice of it, so it lacks what the text lacks. */
  lemma {:induction false} StripLacks(x: string, c: char, ws: CharClass)
    requires c !in x
    ensures c !in Strip(x, ws)
  {
    var a := StripIsSlice(x, ws);
  }

  /** `s` without the characters that satisfy `p`, the others kept in order. */
  function Remove(s: string, p: CharClass): (r: string)
    ensures |r| <= |s|
  {
    if s == [] then []
    else if In(s[0], p) then Remove(s[1..], p)
    else [s[0]] + Remove(s[1..], p)
  }

  /** No character of `s` satisfies `p`. */
  predicate NoneIn(s: string, p: CharClass) {
    forall k :: 0 <= k < |s| ==> !In(s[k], p)
  }

  /** What is left holds none of the removed characters. */
  lemma {:induction false} RemoveNoneIn(s: string, p: CharClass)
    ensures NoneIn(Remove(s, p), p)
  {
    if s != [] {
      RemoveNoneIn(s[1..], p);
    }
  }

  lemma {:induction false} RemoveAppend(a: string, b: string, p: CharClass)
    ensures Remove(a + b, p) == Remove(a, p) + Remove(b, p)
  {
    if a != [] {
      assert (a + b)[0] == a[0];
      assert (a + b)[1..] == a[1..] + b;
      RemoveAppend(a[1..], b, p);
    } else {
      assert a + b == b;
    }
  }

  /** Removing from a string that has none of the characters changes nothing. */
  lemma {:induction false} RemoveNoop(s: string, p: CharClass)
    requires NoneIn(s, p)
    ensures Remove(s, p) == s
  {
    if s != [] {
      RemoveNoop(s[1..], p);
    }
  }

  /** The pieces of `s` between occurrences of `d`, empty pieces included
      (Python's `s.split(d)`). */
  function Pieces(s: string, d: char): (r: seq<string>)
    ensures |r| >= 1
    decreases |s|
  {
    var k := Find(s, 0, d);
    if k == |s| then [s] else [s[..k]] + Pieces(s[k + 1..], d)
  }

  /** No piece holds the delimiter. */
  lemma {:induction false} PiecesNoDelim(s: string, d: char)
    ensures forall k :: 0 <= k < |Pieces(s, d)| ==> d !in Pieces(s, d)[k]
    decreases |s|
  {
    var k := Find(s, 0, d);
    FindSpec(s, 0, d);
    NotInSlice(s, 0, k, d);
    assert s[..k] == s[0..k];
    if k < |s| {
      PiecesNoDelim(s[k + 1..], d);
    }
  }

  /** There is one piece more than there are delimiters. */
  lemma {:induction false} PiecesCount(s: string, d: char)
    ensures |Pieces(s, d)| == multiset(s)[d] + 1
    decreases |s|
  {
    var k := Find(s, 0, d);
    FindSpec(s, 0, d);
    NotInSlice(s, 0, k, d);
    assert s[..k] == s[0..k];
    if k == |s| {
      assert s[..k] == s;
    } else {
      PiecesCount(s[k + 1..], d);
      assert s == s[..k] + [d] + s[k + 1..];
      assert multiset(s) == multiset(s[..k]) + multiset{d} + multiset(s[k + 1..]);
    }
  }

  /** The pieces glued back together with `d` between them (Python's `d.join(ps)`). */
  function Join(ps: seq<string>, d: char): string
  {
    if |ps| == 0 then []
    else if |ps| == 1 then ps[0]
    else ps[0] + [d] + Join(ps[1..], d)
  }

  /** Splitting loses nothing: the pieces glue back into the string. */
  lemma {:induction false} JoinPieces(s: string, d: char)
    ensures Join(Pieces(s, d), d) == s
    decreases |s|
  {
    var k := Find(s, 0, d);
    FindSpec(s, 0, d);
    if k < |s| {
      JoinPieces(s[k + 1..], d);
      assert s == s[..k] + [d] + s[k + 1..];
    }
  }

  lemma {:induction false} AppendAssoc<T>(a: seq<T>, b: seq<T>, c: seq<T>)
    ensures a + (b + c) == (a + b) + c
  {
  }

  /** The pieces of a text without the delimiter: the text itself. */
  lemma {:induction false} PiecesSingle(x: string, d: char)
    requires d !in x
    ensures Pieces(x, d) == [x]
  {
    NotInSlice(x, 0, |x|, d);
    assert x[0..|x|] == x;
    FindIs(x, 0, |x|, d);
  }

  /** The pieces of a text that starts with a delimiter-free `x` and a delimiter. */
  lemma {:induction false} PiecesCons(x: string, rest: string, d: char)
    requires d !in x
    ensures Pieces(x + [d] + rest, d) == [x] + Pieces(rest, d)
  {
    var s := x + [d] + rest;
    assert s[0..] == x + ([d] + rest);
    FindOver(s, 0, x, [d] + rest, d);
    assert s[..|x|] == x;
    assert s[|x| + 1..] == rest;
  }

  /** Splitting undoes gluing, as long as no piece holds the delimiter. */
  lemma {:induction false} PiecesJoin(ps: seq<string>, d: char)
    requires |ps| >= 1
    requires forall k :: 0 <= k < |ps| ==> d !in ps[k]
    ensures Pieces(Join(ps, d), d) == ps
  {
    if |ps| == 1 {
      PiecesSingle(ps[0], d);
    } else {
      PiecesJoin(ps[1..], d);
      PiecesCons(ps[0], Join(ps[1..], d), d);
    }
  }

  /** Splitting distributes over a delimiter: the pieces of the left part come
      first, in order, then those of the right part. */
  lemma {:induction false} PiecesAppend(a: string, b: string, d: char)
    ensures Pieces(a + [d] + b, d) == Pieces(a, d) + Pieces(b, d)
    decreases |a|
  {
    var k := Find(a, 0, d);
    FindSpec(a, 0, d);
    NotInSlice(a, 0, k, d);
    var x := a[0..k];
    if k == |a| {
      assert x == a;
      PiecesCons(a, b, d);
      PiecesSingle(a, d);
    } else {
      var a' := a[k + 1..];
      assert a == x + [d] + a';
      var rest := a' + [d] + b;
      assert a + [d] + b == x + [d] + rest;
      PiecesCons(x, rest, d);
      PiecesCons(x, a', d);
      PiecesAppend(a', b, d);
      AppendAssoc([x], Pieces(a', d), Pieces(b, d));
      calc {
        Pieces(a + [d] + b, d);
        [x] + Pieces(rest, d);
        [x] + (Pieces(a', d) + Pieces(b, d));
        ([x] + Pieces(a', d)) + Pieces(b, d);
        Pieces(a, d) + Pieces(b, d);
      }
    }
  }

  /** The pieces of a suffix are those that follow the first delimiter. */
  lemma {:induction false} PiecesFrom(s: string, i: nat, d: char)
    requires i <= |s|
    ensures var k := Find(s, i, d);
      Pieces(s[i..], d) == if k == |s| then [s[i..]] else [s[i..k]] + Pieces(s[k + 1..], d)
  {
    var k := Find(s, i, d);
    var t := s[i..];
    FindShift(s, i, d);
    PiecesHead(t, d);
    assert t[..k - i] == s[i..k];
    if k < |s| {
      assert t[k - i + 1..] == s[k + 1..];
    }
  }

  /** One step of `Pieces`: the text up to the first delimiter, then the rest. */
  lemma {:induction false} PiecesHead(t: string, d: char)
    ensures var k := Find(t, 0, d);
      Pieces(t, d) == if k == |t| then [t] else [t[..k]] + Pieces(t[k + 1..], d)
  {
  }

  /** Searching a suffix finds the same delimiter, counted from the suffix's start. */
  lemma {:induction false} FindShift(s: string, i: nat, d: char)
    requires i <= |s|
    ensures Find(s[i..], 0, d) == Find(s, i, d) - i
  {
    var k := Find(s, i, d);
    FindSpec(s, i, d);
    var t := s[i..];
    forall m | 0 <= m < k - i
      ensures t[m] != d
    {
      assert t[m] == s[i + m];
    }
    FindIs(t, 0, k - i, d);
  }

  /** Reading `x` off the front of the suffix at `i`. */
  lemma {:induction false} Advance(s: string, i: nat, x: string, rest: string)
    requires i <= |s| && s[i..] == x + rest
    ensures i + |x| <= |s| && s[i..i + |x|] == x && s[i + |x|..] == rest
  {
    assert s[i..][..|x|] == x;
    assert s[i..][|x|..] == rest;
  }

  /** `Span` stops exactly at the end of a run `x` that is followed by a character
      outside the class (or by nothing). */
  lemma {:induction false} SpanOver(s: string, i: nat, x: string, rest: string, p: CharClass)
    requires i <= |s| && s[i..] == x + rest
    requires All(x, p) && (rest == [] || !In(rest[0], p))
    ensures i + |x| <= |s| && Span(s, i, p) == i + |x| && s[i..i + |x|] == x && s[i + |x|..] == rest
  {
    Advance(s, i, x, rest);
    forall k | i <= k < i + |x| ensures In(s[k], p) {
      assert s[k] == x[k - i];
    }
    if rest != [] {
      assert s[i + |x|] == rest[0];
    }
    SpanIs(s, i, i + |x|, p);
  }

  /** `Find` stops exactly at the end of a text `x` that lacks `c` and is
      followed by `c` (or by nothing). */
  lemma {:induction false} FindOver(s: string, i: nat, x: string, rest: string, c: char)
    requires i <= |s| && s[i..] == x + rest
    requires c !in x && (rest == [] || rest[0] == c)
    ensures i + |x| <= |s| && Find(s, i, c) == i + |x| && s[i..i + |x|] == x && s[i + |x|..] == rest
  {
    Advance(s, i, x, rest);
    if rest != [] {
      assert s[i + |x|] == rest[0];
    }
    NotInSlice(s, i, i + |x|, c);
    FindIs(s, i, i + |x|, c);
  }

  /** Reading one fixed character off the front of the suffix at `i`. */
  lemma {:induction false} CharAt(s: string, i: nat, c: char, rest: string)
    requires i <= |s| && s[i..] == [c] + rest
    ensures i < |s| && s[i] == c && s[i + 1..] == rest
  {
    assert s[i] == s[i..][0];
    assert s[i + 1..] == s[i..][1..];
  }
}
