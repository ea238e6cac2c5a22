/** Type tags, diagnostics and variable scopes, shared by both checkers. */
module Semantics {

  datatype Option<T> = None | Some(value: T)

  /** The checkers' type tags. The C++ checker writes them as the characters
      'i', 'f', 'v', 'u' and 0; the Python checker as the strings 'int', 'float',
      'void' and 'undef' (and `None` for "no literal"). `Unknown` ('u') marks an
      undeclared assignment target in the C++ checker only; `Undef` is "no type". */
  datatype Ty = Int | Float | Void | Unknown | Undef

  /** A variable scope: identifier to declared type. */
  type Scope = map<string, Ty>

  /** One diagnostic: its kind, the function it was found in, and what it is about.
      `Coercion` is the only warning; all other kinds are errors. */
  datatype Diag =
    | UndeclaredVariable(ctx: string, name: string)
    | UndeclaredFunction(ctx: string, name: string)
    | ArgumentCount(ctx: string, name: string)
    | UndeclaredArgument(ctx: string, arg: string)
    | ArgumentType(ctx: string, arg: string, actual: Ty, expected: Ty)
    | Coercion(ctx: string, from: Ty, to: Ty, name: string)

  /** A parameter: its name and its type. */
  type Param = (string, Ty)

  /** `m` with every name of `names` bound to `t`. */
  function Declared(m: Scope, names: seq<string>, t: Ty): Scope
  {
    m + map x | x in names :: t
  }

  /** The declared names get the declaration's type; every other entry is kept. */
  lemma {:induction false} DeclaredSpec(m: Scope, names: seq<string>, t: Ty)
    ensures var r := Declared(m, names, t);
            && (forall x :: x in r <==> x in m || x in names)
            && (forall x :: x in names ==> r[x] == t)
            && (forall x :: x in m && x !in names ==> r[x] == m[x])
  {
  }

  /** The loop that binds each declared name in turn to the declaration's type. */
  method DeclareNames(m: Scope, names: seq<string>, t: Ty) returns (r: Scope)
    ensures r == Declared(m, names, t)
  {
    r := m;
    var k := 0;
    while k < |names|
      invariant k <= |names|
      invariant r == Declared(m, names[..k], t)
    {
      DeclareStep(m, names, t, k);
      r := r[names[k] := t];
      k := k + 1;
    }
    assert names[..k] == names;
  }

  lemma {:induction false} DeclareStep(m: Scope, names: seq<string>, t: Ty, k: nat)
    requires k < |names|
    ensures Declared(m, names[..k + 1], t) == Declared(m, names[..k], t)[names[k] := t]
  {
    var l := Declared(m, names[..k + 1], t);
    var r := Declared(m, names[..k], t)[names[k] := t];
    assert names[..k + 1] == names[..k] + [names[k]];
    assert forall x :: x in l <==> x in r;
  }

  /** The map built by binding the pairs one after the other, so that a later
      pair overrides an earlier one with the same name. */
  function Bind<V>(ps: seq<(string, V)>): map<string, V>
  {
    if ps == [] then map[] else Bind(ps[..|ps| - 1])[ps[|ps| - 1].0 := ps[|ps| - 1].1]
  }

  /** A name is bound exactly when some parameter has it, and to the type of the
      last parameter that has it. */
  lemma {:induction false} BindLookup<V>(ps: seq<(string, V)>, x: string)
    ensures x in Bind(ps) <==> exists k :: 0 <= k < |ps| && ps[k].0 == x
    ensures forall k :: 0 <= k < |ps| && ps[k].0 == x && (forall m :: k < m < |ps| ==> ps[m].0 != x)
                ==> Bind(ps)[x] == ps[k].1
  {
    if ps != [] {
      var init := ps[..|ps| - 1];
      BindLookup(init, x);
      if ps[|ps| - 1].0 != x {
        assert forall k :: 0 <= k < |init| ==> init[k] == ps[k];
        if x in Bind(ps) {
          var k :| 0 <= k < |init| && init[k].0 == x;
          assert ps[k].0 == x;
        }
      }
    }
  }

  /** Binding one more pair updates the map at its name. */
  lemma {:induction false} BindSnoc<V>(ps: seq<(string, V)>, q: (string, V))
    ensures Bind(ps + [q]) == Bind(ps)[q.0 := q.1]
  {
    assert (ps + [q])[..|ps|] == ps;
  }

  /** Binding a sequence of pairs in two halves: the second half overrides. */
  lemma {:induction false} BindAppend<V>(a: seq<(string, V)>, b: seq<(string, V)>)
    ensures Bind(a + b) == Bind(a) + Bind(b)
    decreases |b|
  {
    if b != [] {
      var b0 := b[..|b| - 1];
      assert (a + b)[..|a + b| - 1] == a + b0;
      assert (a + b)[|a + b| - 1] == b[|b| - 1];
      BindAppend(a, b0);
      var (k, v) := b[|b| - 1];
      assert Bind(b) == Bind(b0)[k := v];
      assert Bind(a + b) == (Bind(a) + Bind(b0))[k := v];
      UpdateUnion(Bind(a), Bind(b0), k, v);
    } else {
      assert a + b == a;
      assert Bind(a) + Bind(b) == Bind(a);
    }
  }

  lemma {:induction false} EmptyUnion<V>(m: map<string, V>)
    ensures map[] + m == m && m + map[] == m
  {
  }

  lemma {:induction false} UpdateIsUnion<V>(m: map<string, V>, k: string, v: V)
    ensures m[k := v] == m + map[k := v]
  {
  }

  lemma {:induction false} UnionAssoc<V>(a: map<string, V>, b: map<string, V>, c: map<string, V>)
    ensures (a + b) + c == a + (b + c)
  {
  }

  lemma {:induction false} UpdateUnion<V>(m1: map<string, V>, m2: map<string, V>, k: string, v: V)
    ensures (m1 + m2)[k := v] == m1 + m2[k := v]
  {
    var l := (m1 + m2)[k := v];
    var r := m1 + m2[k := v];
    assert forall y :: y in l <==> y in r;
    forall y | y in l ensures l[y] == r[y] {
      if y != k && y in m2 {
        assert l[y] == m2[y];
      }
    }
  }

  /** The pairs a declaration binds: each name with the declared type. */
  function Pairs(names: seq<string>, t: Ty): seq<Param>
  {
    if names == [] then [] else Pairs(names[..|names| - 1], t) + [(names[|names| - 1], t)]
  }

  /** Binding a declaration's pairs maps exactly its names to its type. */
  lemma {:induction false} BindPairs(names: seq<string>, t: Ty)
    ensures Bind(Pairs(names, t)) == map x | x in names :: t
  {
    if names != [] {
      var init := names[..|names| - 1];
      var x := names[|names| - 1];
      BindPairs(init, t);
      var ps := Pairs(names, t);
      assert ps[..|ps| - 1] == Pairs(init, t);
      assert forall y :: y in names <==> y in init || y == x;
    }
  }

  /** Declaring names one after the other is binding their pairs. */
  lemma {:induction false} DeclaredBind(m: Scope, names: seq<string>, t: Ty)
    ensures Declared(m, names, t) == m + Bind(Pairs(names, t))
  {
    BindPairs(names, t);
  }

  /** Every entry is `int` or `float`: the only types a declaration can give. */
  ghost predicate Scalar(m: Scope) {
    forall x :: x in m ==> m[x] in {Int, Float}
  }

  lemma {:induction false} BindScalar(ps: seq<Param>)
    requires forall k :: 0 <= k < |ps| ==> ps[k].1 in {Int, Float}
    ensures Scalar(Bind(ps))
  {
    if ps != [] {
      BindScalar(ps[..|ps| - 1]);
    }
  }

  /** Declaring names as `int` or `float` keeps a scope typed. */
  lemma {:induction false} DeclaredScalar(m: Scope, names: seq<string>, t: Ty)
    requires Scalar(m) && t in {Int, Float}
    ensures Scalar(Declared(m, names, t))
  {
    DeclaredSpec(m, names, t);
  }

  /** How a type keyword is spelled in the checked program. */
  function TypeName(t: Ty): string
  {
    match t
    case Int => "int"
    case Float => "float"
    case Void => "void"
    case _ => ""
  }

  /** The alternation `(int|float)`, or `(int|float|void)` when `withVoid`, at
      position `i`: the type it names and the position after it. */
  function KeywordAt(s: string, i: nat, withVoid: bool): (r: Option<(Ty, nat)>)
    requires i <= |s|
    ensures r.Some? ==> r.value.0 in {Int, Float, Void} && (withVoid || r.value.0 != Void)
    ensures r.Some? ==> r.value.1 == i + |TypeName(r.value.0)| <= |s|
                        && s[i..r.value.1] == TypeName(r.value.0)
  {
    if "int" <= s[i..] then Some((Int, i + 3))
    else if "float" <= s[i..] then Some((Float, i + 5))
    else if withVoid && "void" <= s[i..] then Some((Void, i + 4))
    else None
  }

  /** The keyword found is the one the text spells: the three names share no prefix. */
  lemma {:induction false} KeywordAtIs(s: string, i: nat, withVoid: bool, t: Ty)
    requires i <= |s|
    requires t in {Int, Float} || (withVoid && t == Void)
    requires i + |TypeName(t)| <= |s| && s[i..i + |TypeName(t)|] == TypeName(t)
    ensures KeywordAt(s, i, withVoid) == Some((t, i + |TypeName(t)|))
  {
    var n := |TypeName(t)|;
    var rest := s[i..];
    assert rest[..n] == TypeName(t);
    assert rest[0] == TypeName(t)[0];
    assert "int" <= rest ==> rest[0] == 'i';
    assert "float" <= rest ==> rest[0] == 'f';
  }
}
