/** The Python checker: token typing, expression evaluation, and the
    line-by-line analysis that registers globals and functions and checks each
    function body. Each operation is a function stating its result, and where
    the source works step by step, a method with the same loops proved to
    compute it. */
module PyChecker {
  import opened Chars
  import opened Strings
  import opened Semantics
  import opened Patterns
  import opened PyPatterns
  import opened Segments

  /** A registered function (the `{'return': ..., 'params': [...]}` record):
      its return type and its named parameters. */
  datatype Sig = Sig(ret: Ty, params: seq<Param>)

  /** The `functions` table. */
  type Registry = map<string, Sig>

  // ----------------------------------------------------------------- tokens

  /** `token_type`: the local scope first, then the global one, then the
      literal reading of the token, and `undef` when none applies. */
  function TokenType(tok: string, local: Scope, global: Scope): Ty
  {
    if tok in local then local[tok]
    else if tok in global then global[tok]
    else match LiteralType(tok)
      case Some(t) => t
      case None => Undef
  }

  /** The lookup reads the global scope overridden by the local one; a name in
      neither is typed by its literal shape, and is `undef` exactly when it is
      no literal. */
  lemma {:induction false} TokenTypeScopes(tok: string, local: Scope, global: Scope)
    ensures tok in global + local ==> TokenType(tok, local, global) == (global + local)[tok]
    ensures tok !in global + local ==>
              && (TokenType(tok, local, global) == Float <==> FloatShape(tok))
              && (TokenType(tok, local, global) == Int <==> IsDigits(tok))
              && (TokenType(tok, local, global) == Undef <==> !FloatShape(tok) && !IsDigits(tok))
  {
    LiteralTypeSpec(tok);
  }

  // -------------------------------------------------------------- arguments

  /** `[a.strip() for a in argstr.split(',')] if argstr.strip() else []`. */
  function Args(argstr: string): seq<string>
  {
    if Strip(argstr, PySpace) == [] then [] else Tokens(argstr, ',')
  }

  /** A blank argument text has no arguments; any other has one more than it
      has commas. */
  lemma {:induction false} ArgsCount(argstr: string)
    ensures |Args(argstr)| == if Strip(argstr, PySpace) == [] then 0 else multiset(argstr)[','] + 1
  {
    TokensSpec(argstr, ',');
  }

  /** The check of one argument against its parameter's type: an argument
      without a type counts as a wrong type. */
  function ArgCheck(arg: string, expected: Ty, local: Scope, global: Scope, ctx: string): seq<Diag>
  {
    var at := TokenType(arg, local, global);
    if at != expected then [ArgumentType(ctx, arg, at, expected)] else []
  }

  /** The diagnostics of checking the first `n` argument/parameter pairs in
      order. */
  function ArgDiags(args: seq<string>, params: seq<Param>, n: nat, local: Scope, global: Scope,
                    ctx: string): seq<Diag>
    requires n <= |args| && n <= |params|
  {
    if n == 0 then []
    else ArgDiags(args, params, n - 1, local, global, ctx)
         + ArgCheck(args[n - 1], params[n - 1].1, local, global, ctx)
  }

  /** At most one diagnostic per checked pair, each a type error in `ctx`
      whose actual and expected types differ. */
  lemma {:induction false} ArgDiagsShape(args: seq<string>, params: seq<Param>, n: nat,
                                         local: Scope, global: Scope, ctx: string)
    requires n <= |args| && n <= |params|
    ensures var ds := ArgDiags(args, params, n, local, global, ctx);
            && |ds| <= n
            && forall k :: 0 <= k < |ds| ==> ds[k].ArgumentType? && ds[k].ctx == ctx && ds[k].actual != ds[k].expected
  {
    if n > 0 {
      ArgDiagsShape(args, params, n - 1, local, global, ctx);
      ArgCheckSpec(args[n - 1], params[n - 1].1, local, global, ctx);
    }
  }

  /** No diagnostic at all exactly when every checked argument has its
      parameter's type; `undef` never matches. */
  lemma {:induction false} ArgDiagsNone(args: seq<string>, params: seq<Param>, n: nat,
                                        local: Scope, global: Scope, ctx: string)
    requires n <= |args| && n <= |params|
    ensures ArgDiags(args, params, n, local, global, ctx) == []
            <==> forall k :: 0 <= k < n ==> TokenType(args[k], local, global) == params[k].1
  {
    if n > 0 {
      ArgDiagsNone(args, params, n - 1, local, global, ctx);
      var prev := ArgDiags(args, params, n - 1, local, global, ctx);
      var last := ArgCheck(args[n - 1], params[n - 1].1, local, global, ctx);
      ArgCheckSpec(args[n - 1], params[n - 1].1, local, global, ctx);
      if prev != [] {
        var k :| 0 <= k < n - 1 && TokenType(args[k], local, global) != params[k].1;
      } else if last == [] {
        forall k | 0 <= k < n ensures TokenType(args[k], local, global) == params[k].1 {
        }
      }
    }
  }

  lemma {:induction false} ArgCheckSpec(arg: string, expected: Ty, local: Scope, global: Scope, ctx: string)
    ensures var ds := ArgCheck(arg, expected, local, global, ctx);
            var at := TokenType(arg, local, global);
            && (ds == [] <==> at == expected)
            && (ds != [] ==> ds == [ArgumentType(ctx, arg, at, expected)])
  {
  }

  function Min(a: nat, b: nat): nat { if a < b then a else b }

  // ------------------------------------------------------------ expressions

  /** A call of `name` with the argument text `argstr`: an unknown function is
      an error and has no type; a known one has its return type, after a count
      error when the numbers differ and the type errors of the pairs `zip`
      forms. */
  function EvalCall(name: string, argstr: string, local: Scope, global: Scope, funcs: Registry,
                    ctx: string): (Ty, seq<Diag>)
  {
    if name !in funcs then (Undef, [UndeclaredFunction(ctx, name)])
    else
      var fn := funcs[name];
      var args := Args(argstr);
      (fn.ret, (if |args| != |fn.params| then [ArgumentCount(ctx, name)] else [])
               + ArgDiags(args, fn.params, Min(|args|, |fn.params|), local, global, ctx))
  }

  /** The type of a sum's operands together: `float` when either is `float`,
      `int` otherwise. */
  function SumType(lt: Ty, rt: Ty): Ty
  {
    if lt == Float || rt == Float then Float else Int
  }

  /** `eval_expr`: the type of an expression and the errors it adds, after the
      expression is stripped. A call is tried first, then a sum, then a single
      token. */
  function Eval(expr: string, local: Scope, global: Scope, funcs: Registry, ctx: string): (Ty, seq<Diag>)
  {
    var e := Strip(expr, PySpace);
    match MatchCall(e)
    case Some((name, argstr)) => EvalCall(name, argstr, local, global, funcs, ctx)
    case None =>
      match MatchSum(e)
      case Some((x, y)) =>
        (SumType(TokenType(Strip(x, PySpace), local, global), TokenType(Strip(y, PySpace), local, global)), [])
      case None => (TokenType(e, local, global), [])
  }

  /** An expression of the call shape is evaluated as that call. */
  lemma {:induction false} EvalIsCall(expr: string, local: Scope, global: Scope, funcs: Registry, ctx: string,
                                      c: nat, r: nat)
    requires CallCut(Strip(expr, PySpace), c, r)
    ensures var e := Strip(expr, PySpace);
            Eval(expr, local, global, funcs, ctx) == EvalCall(e[..c], e[c + 1..r], local, global, funcs, ctx)
  {
    MatchCallComplete(Strip(expr, PySpace), c, r);
  }

  /** A call of an unregistered function: one error, and no type. */
  lemma {:induction false} EvalUnknownCall(expr: string, local: Scope, global: Scope, funcs: Registry, ctx: string,
                                           c: nat, r: nat)
    requires CallCut(Strip(expr, PySpace), c, r) && Strip(expr, PySpace)[..c] !in funcs
    ensures Eval(expr, local, global, funcs, ctx) == (Undef, [UndeclaredFunction(ctx, Strip(expr, PySpace)[..c])])
  {
    EvalIsCall(expr, local, global, funcs, ctx, c, r);
  }

  /** A call of a registered function has its return type whatever its
      arguments; a count mismatch adds exactly one error, at the front; then
      come the type errors of the pairs both lists have, none exactly when each
      of those arguments has its parameter's type. */
  lemma {:induction false} KnownCall(name: string, argstr: string, local: Scope, global: Scope, funcs: Registry, ctx: string)
    requires name in funcs
    ensures var args := Args(argstr);
            var fn := funcs[name];
            var n := Min(|args|, |fn.params|);
            var r := EvalCall(name, argstr, local, global, funcs, ctx);
            var counted := if |args| != |fn.params| then 1 else 0;
            && r.0 == fn.ret
            && |r.1| <= counted + n
            && (counted == 1 ==> r.1[0] == ArgumentCount(ctx, name))
            && (forall k :: counted <= k < |r.1| ==> r.1[k].ArgumentType?)
            && (r.1 == [] <==> |args| == |fn.params| && forall k :: 0 <= k < n ==> TokenType(args[k], local, global) == fn.params[k].1)
  {
    var args := Args(argstr);
    var fn := funcs[name];
    ArgDiagsShape(args, fn.params, Min(|args|, |fn.params|), local, global, ctx);
    ArgDiagsNone(args, fn.params, Min(|args|, |fn.params|), local, global, ctx);
  }

  /** An expression that is no call but has the sum shape is typed by its two
      stripped operands, and adds no error. */
  lemma {:induction false} EvalSum(expr: string, local: Scope, global: Scope, funcs: Registry, ctx: string, p: nat, n: nat)
    requires MatchCall(Strip(expr, PySpace)) == None && SumCut(Strip(expr, PySpace), p, n)
    ensures var e := Strip(expr, PySpace);
            var lt := TokenType(Strip(e[..p], PySpace), local, global);
            var rt := TokenType(Strip(e[p + 1..n], PySpace), local, global);
            var r := Eval(expr, local, global, funcs, ctx);
            && (r.0 == Float <==> lt == Float || rt == Float)
            && (r.0 == Int <==> lt != Float && rt != Float)
            && r.1 == []
  {
    MatchSumComplete(Strip(expr, PySpace), p, n);
  }

  /** An expression with no call cut and no sum cut is a single token: its own
      type, and no error. */
  lemma {:induction false} EvalToken(expr: string, local: Scope, global: Scope, funcs: Registry, ctx: string)
    requires forall c: nat, r: nat :: !CallCut(Strip(expr, PySpace), c, r)
    requires forall p: nat, n: nat :: !SumCut(Strip(expr, PySpace), p, n)
    ensures Eval(expr, local, global, funcs, ctx) == (TokenType(Strip(expr, PySpace), local, global), [])
  {
    var e := Strip(expr, PySpace);
    if MatchCall(e).Some? {
      var (name, args) := MatchCall(e).value;
      var c, r := MatchCallSound(e, name, args);
      assert false;
    }
    if MatchSum(e).Some? {
      var (x, y) := MatchSum(e).value;
      var p, n := MatchSumSound(e, x, y);
      assert false;
    }
  }

  /** Evaluation adds only errors about calls: never an undeclared-variable
      error and never a warning; and it never reports a registered function as
      undeclared. */
  lemma {:induction false} EvalDiagKinds(expr: string, local: Scope, global: Scope, funcs: Registry, ctx: string)
    ensures var ds := Eval(expr, local, global, funcs, ctx).1;
            forall k :: 0 <= k < |ds| ==>
              && !ds[k].UndeclaredVariable? && !ds[k].Coercion?
              && (ds[k].UndeclaredFunction? ==> ds[k].name !in funcs)
  {
    var e := Strip(expr, PySpace);
    if MatchCall(e).Some? {
      var (name, argstr) := MatchCall(e).value;
      if name in funcs {
        KnownCall(name, argstr, local, global, funcs, ctx);
      }
    }
  }

  // ------------------------------------------------------- the argument loop

  /** The `zip` loop: one error per argument whose type is not its
      parameter's, appended in order. */
  method CheckArgs(args: seq<string>, params: seq<Param>, local: Scope, global: Scope,
                   errors: seq<Diag>, ctx: string) returns (errs: seq<Diag>)
    ensures errs == errors + ArgDiags(args, params, Min(|args|, |params|), local, global, ctx)
  {
    var n := Min(|args|, |params|);
    errs := errors;
    var i := 0;
    while i < n
      invariant i <= n
      invariant errs == errors + ArgDiags(args, params, i, local, global, ctx)
    {
      var at := TokenType(args[i], local, global);
      var ds := if at != params[i].1 then [ArgumentType(ctx, args[i], at, params[i].1)] else [];
      AppendAssoc(errors, ArgDiags(args, params, i, local, global, ctx), ds);
      errs := errs + ds;
      i := i + 1;
    }
  }

  /** The call branch of `eval_expr`: it appends its errors to `errors`. */
  method CheckCall(name: string, argstr: string, local: Scope, global: Scope, funcs: Registry,
                   errors: seq<Diag>, ctx: string) returns (t: Ty, errs: seq<Diag>)
    ensures t == EvalCall(name, argstr, local, global, funcs, ctx).0
    ensures errs == errors + EvalCall(name, argstr, local, global, funcs, ctx).1
  {
    if name !in funcs {
      return Undef, errors + [UndeclaredFunction(ctx, name)];
    }
    var fn := funcs[name];
    var args := if Strip(argstr, PySpace) != [] then Tokens(argstr, ',') else [];
    var counted := if |args| != |fn.params| then [ArgumentCount(ctx, name)] else [];
    errs := CheckArgs(args, fn.params, local, global, errors + counted, ctx);
    t := fn.ret;
    AppendAssoc(errors, counted, ArgDiags(args, fn.params, Min(|args|, |fn.params|), local, global, ctx));
  }

  /** `eval_expr` itself: it appends its errors to `errors`. */
  method EvalExpr(expr: string, local: Scope, global: Scope, funcs: Registry,
                  errors: seq<Diag>, ctx: string) returns (t: Ty, errs: seq<Diag>)
    ensures t == Eval(expr, local, global, funcs, ctx).0
    ensures errs == errors + Eval(expr, local, global, funcs, ctx).1
  {
    var e := Strip(expr, PySpace);
    var call := MatchCall(e);
    if call.Some? {
      t, errs := CheckCall(call.value.0, call.value.1, local, global, funcs, errors, ctx);
      return;
    }
    var sum := MatchSum(e);
    if sum.Some? {
      var lt := TokenType(Strip(sum.value.0, PySpace), local, global);
      var rt := TokenType(Strip(sum.value.1, PySpace), local, global);
      t := if lt == Float || rt == Float then Float else Int;
    } else {
      t := TokenType(e, local, global);
    }
    errs := errors;
  }

  // ------------------------------------------------------------------ bodies

  /** The state while a function body is checked: its local variables and the
      diagnostics so far. */
  datatype Frame = Frame(local: Scope, errors: seq<Diag>, warns: seq<Diag>)

  /** The type of an assignment target: its declared type, local first, or
      `undef` when it is declared in neither scope. Unlike `token_type`, a
      literal is not typed here. */
  function TargetType(lhs: string, local: Scope, global: Scope): Ty
  {
    if lhs in local then local[lhs] else if lhs in global then global[lhs] else Undef
  }

  /** `lhs = rhs` in the body of `ctx`: an undeclared target is an error, then
      the right-hand side is evaluated, then a type difference is a warning
      unless the right-hand side is `undef`. */
  function Assign(lhs: string, rhs: string, globals: Scope, funcs: Registry, ctx: string, f: Frame): Frame
  {
    var undeclared := lhs !in f.local && lhs !in globals;
    var lt := TargetType(lhs, f.local, globals);
    var ev := Eval(rhs, f.local, globals, funcs, ctx);
    Frame(f.local,
          f.errors + (if undeclared then [UndeclaredVariable(ctx, lhs)] else []) + ev.1,
          f.warns + (if lt != ev.0 && ev.0 != Undef then [Coercion(ctx, ev.0, lt, lhs)] else []))
  }

  /** One body line: a declaration if it starts like one, else an assignment
      if it starts like one, else nothing. */
  function BodyLine(b: string, globals: Scope, funcs: Registry, ctx: string, f: Frame): Frame
  {
    match ParseDecl(b)
    case Some((t, names)) => f.(local := Declared(f.local, names, t))
    case None =>
      match MatchAssign(b)
      case Some((lhs, rhs)) => Assign(lhs, rhs, globals, funcs, ctx, f)
      case None => f
  }

  /** `BodyLine` in the body of `ctx`, as a step over frames. */
  function LineStep(globals: Scope, funcs: Registry, ctx: string): (string, Frame) -> Frame
  {
    (b: string, f: Frame) => BodyLine(b, globals, funcs, ctx, f)
  }

  /** The body lines checked in order. */
  function BodyRun(body: seq<string>, globals: Scope, funcs: Registry, ctx: string, f: Frame): Frame
  {
    Fold(body, LineStep(globals, funcs, ctx), f)
  }

  /** An assignment adds exactly one undeclared-variable error when its target
      is declared in neither scope, and none otherwise; it adds at most one
      warning, exactly when the types differ and the right-hand side is not
      `undef`, and that warning names both types. */
  lemma {:induction false} AssignSpec(lhs: string, rhs: string, globals: Scope, funcs: Registry, ctx: string, f: Frame)
    ensures var r := Assign(lhs, rhs, globals, funcs, ctx, f);
            var lt := TargetType(lhs, f.local, globals);
            var rt := Eval(rhs, f.local, globals, funcs, ctx).0;
            && r.local == f.local
            && f.errors <= r.errors
            && multiset(r.errors[|f.errors|..])[UndeclaredVariable(ctx, lhs)]
               == (if lhs !in f.local && lhs !in globals then 1 else 0)
            && f.warns <= r.warns && |r.warns| <= |f.warns| + 1
            && (|r.warns| == |f.warns| + 1 <==> lt != rt && rt != Undef)
            && (|r.warns| == |f.warns| + 1 ==> r.warns[|f.warns|] == Coercion(ctx, rt, lt, lhs))
  {
    var ev := Eval(rhs, f.local, globals, funcs, ctx);
    EvalDiagKinds(rhs, f.local, globals, funcs, ctx);
    var flagged := if lhs !in f.local && lhs !in globals then [UndeclaredVariable(ctx, lhs)] else [];
    CountAppended(f.errors, flagged, ev.1, UndeclaredVariable(ctx, lhs));
  }

  /** Appending `added` and then diagnostics of other kinds: the new part holds
      `x` as often as `added` does. */
  lemma {:induction false} CountAppended(pre: seq<Diag>, added: seq<Diag>, ds: seq<Diag>, x: Diag)
    requires x.UndeclaredVariable?
    requires forall k :: 0 <= k < |ds| ==> !ds[k].UndeclaredVariable?
    ensures pre <= pre + added + ds
    ensures multiset((pre + added + ds)[|pre|..])[x] == multiset(added)[x]
  {
    assert (pre + added + ds)[|pre|..] == added + ds;
    assert forall k :: 0 <= k < |ds| ==> ds[k] != x;
    assert x !in ds;
    assert multiset(added + ds) == multiset(added) + multiset(ds);
  }

  /** An undeclared target has type `undef`, so it is warned about whenever
      the right-hand side has a type. */
  lemma {:induction false} UndeclaredTargetWarns(lhs: string, rhs: string, globals: Scope, funcs: Registry, ctx: string, f: Frame)
    requires lhs !in f.local && lhs !in globals
    requires Eval(rhs, f.local, globals, funcs, ctx).0 != Undef
    ensures Assign(lhs, rhs, globals, funcs, ctx, f).warns
            == f.warns + [Coercion(ctx, Eval(rhs, f.local, globals, funcs, ctx).0, Undef, lhs)]
  {
  }

  /** A line of both shapes is a declaration: `int = 1;` declares the name
      `= 1` and is not checked as an assignment to `int`. */
  lemma {:induction false} DeclarationFirst(l: string, globals: Scope, funcs: Registry, ctx: string, f: Frame)
    requires l == "int = 1;"
    ensures MatchAssign(l) == Some(("int", "1"))
    ensures BodyLine(l, globals, funcs, ctx, f) == f.(local := f.local["= 1" := Int])
  {
    AssignWitness(l);
    DeclWitness(l);
    assert Declared(f.local, ["= 1"], Int) == f.local["= 1" := Int];
  }

  lemma {:induction false} AssignWitness(l: string)
    requires l == "int = 1;"
    ensures MatchAssign(l) == Some(("int", "1"))
  {
    assert TermCut(l, 5, PySpace, 0, false, 6, 7);
    MatchAssignComplete(l, 3, 4, 6, 7);
    assert l[..3] == "int" && l[6..7] == "1";
  }

  lemma {:induction false} DeclWitness(l: string)
    requires l == "int = 1;"
    ensures ParseDecl(l) == Some((Int, ["= 1"]))
  {
    MatchDeclWitness(l);
    NameWitness(l[4..7]);
  }

  lemma {:induction false} MatchDeclWitness(l: string)
    requires l == "int = 1;"
    ensures MatchDecl(l, PySpace, false) == Some((Int, l[4..7])) && l[4..7] == "= 1"
  {
    assert l[0..3] == TypeName(Int);
    assert TermCut(l, 3, PySpace, 1, false, 4, 7);
    MatchDeclComplete(l, PySpace, false, Int, 0, 4, 7);
  }

  lemma {:induction false} NameWitness(x: string)
    requires x == "= 1"
    ensures Tokens(x, ',') == [x]
  {
    PiecesSingle(x, ',');
    StripNoop(x, PySpace);
    assert StripAll([x]) == [Strip(x, PySpace)];
  }

  /** The body lines only ever append diagnostics. */
  lemma {:induction false} BodyRunGrows(body: seq<string>, globals: Scope, funcs: Registry, ctx: string, f: Frame)
    ensures var r := BodyRun(body, globals, funcs, ctx, f);
            f.errors <= r.errors && f.warns <= r.warns
  {
    if body != [] {
      var init := body[..|body| - 1];
      var b := body[|body| - 1];
      var g := BodyRun(init, globals, funcs, ctx, f);
      BodyRunGrows(init, globals, funcs, ctx, f);
      if ParseDecl(b).None? && MatchAssign(b).Some? {
        var (lhs, rhs) := MatchAssign(b).value;
        AssignSpec(lhs, rhs, globals, funcs, ctx, g);
      }
    }
  }

  /** Inside a body, no error reports a registered function as undeclared. */
  lemma {:induction false} BodyRunKnows(body: seq<string>, globals: Scope, funcs: Registry, ctx: string, f: Frame)
    ensures var r := BodyRun(body, globals, funcs, ctx, f);
            && f.errors <= r.errors
            && forall k :: |f.errors| <= k < |r.errors| && r.errors[k].UndeclaredFunction? ==> r.errors[k].name !in funcs
  {
    if body != [] {
      var init := body[..|body| - 1];
      var g := BodyRun(init, globals, funcs, ctx, f);
      BodyRunKnows(init, globals, funcs, ctx, f);
      BodyLineKnows(body[|body| - 1], globals, funcs, ctx, g);
      assert BodyRun(body, globals, funcs, ctx, f) == BodyLine(body[|body| - 1], globals, funcs, ctx, g);
    }
  }

  /** One body line reports no registered function as undeclared. */
  lemma {:induction false} BodyLineKnows(b: string, globals: Scope, funcs: Registry, ctx: string, g: Frame)
    ensures var r := BodyLine(b, globals, funcs, ctx, g);
            && g.errors <= r.errors
            && forall k :: |g.errors| <= k < |r.errors| && r.errors[k].UndeclaredFunction? ==> r.errors[k].name !in funcs
  {
    if ParseDecl(b).None? && MatchAssign(b).Some? {
      var (lhs, rhs) := MatchAssign(b).value;
      EvalDiagKinds(rhs, g.local, globals, funcs, ctx);
      AssignSpec(lhs, rhs, globals, funcs, ctx, g);
    }
  }


  // -------------------------------------------------------------- parameters

  /** The parameters one piece of the list declares: `parse_decl` of the piece
      with a ';' appended, each name paired with the type. */
  function ParamOf(p: string): seq<Param>
  {
    match ParseDecl(p + ";")
    case Some((t, names)) => Pairs(names, t)
    case None => []
  }

  /** The parameters the first `n` pieces declare, in order. */
  function ParamList(parts: seq<string>, n: nat): seq<Param>
    requires n <= |parts|
  {
    if n == 0 then [] else ParamList(parts, n - 1) + ParamOf(parts[n - 1])
  }

  /** The parameters of a raw parameter list: none when it is blank, else
      those its ','-separated pieces declare. */
  function Params(raw: string): seq<Param>
  {
    if Strip(raw, PySpace) == [] then [] else ParamList(Pieces(raw, ','), |Pieces(raw, ',')|)
  }

  /** A parameter as a declaration admits it: `int` or `float`, its name
      stripped and without a comma. */
  predicate ParamTyped(q: Param) {
    q.1 in {Int, Float} && ',' !in q.0 && Stripped(q.0)
  }

  lemma {:induction false} PairsAt(names: seq<string>, t: Ty, k: nat)
    requires k < |names|
    ensures |Pairs(names, t)| == |names| && Pairs(names, t)[k] == (names[k], t)
    decreases |names|
  {
    if k < |names| - 1 {
      PairsAt(names[..|names| - 1], t, k);
    } else {
      PairsLength(names[..|names| - 1], t);
    }
  }

  lemma {:induction false} PairsLength(names: seq<string>, t: Ty)
    ensures |Pairs(names, t)| == |names|
    decreases |names|
  {
    if names != [] {
      PairsLength(names[..|names| - 1], t);
    }
  }

  lemma {:induction false} ParamOfTyped(p: string)
    ensures forall k :: 0 <= k < |ParamOf(p)| ==> ParamTyped(ParamOf(p)[k])
  {
    if ParseDecl(p + ";").Some? {
      var (t, names) := ParseDecl(p + ";").value;
      ParseDeclNames(p + ";");
      PairsLength(names, t);
      forall k | 0 <= k < |ParamOf(p)|
        ensures ParamTyped(ParamOf(p)[k])
      {
        PairsAt(names, t, k);
      }
    }
  }

  /** Every parameter is `int` or `float`, named by a stripped text without a
      comma. */
  lemma {:induction false} ParamListTyped(parts: seq<string>, n: nat)
    requires n <= |parts|
    ensures forall k :: 0 <= k < |ParamList(parts, n)| ==> ParamTyped(ParamList(parts, n)[k])
  {
    if n > 0 {
      ParamListTyped(parts, n - 1);
      ParamOfTyped(parts[n - 1]);
    }
  }

  lemma {:induction false} ParamsTyped(raw: string)
    ensures forall k :: 0 <= k < |Params(raw)| ==> ParamTyped(Params(raw)[k])
    ensures Scalar(Bind(Params(raw)))
  {
    if Strip(raw, PySpace) != [] {
      ParamListTyped(Pieces(raw, ','), |Pieces(raw, ',')|);
    }
    BindScalar(Params(raw));
  }

  /** The parameter loops: each declared name is appended to the parameter
      list and bound in the local scope, a later one of the same name
      overriding. */
  method ReadParams(raw: string) returns (local: Scope, params: seq<Param>)
    ensures params == Params(raw) && local == Bind(params)
  {
    local, params := map[], [];
    if Strip(raw, PySpace) == [] {
      return;
    }
    local, params := ReadPieces(Pieces(raw, ','));
  }

  /** The outer loop: the parameters of each piece in turn. */
  method ReadPieces(parts: seq<string>) returns (local: Scope, params: seq<Param>)
    ensures params == ParamList(parts, |parts|) && local == Bind(params)
  {
    local, params := map[], [];
    var k := 0;
    while k < |parts|
      invariant k <= |parts|
      invariant params == ParamList(parts, k) && local == Bind(params)
    {
      local, params := ReadParam(parts, k, local, params);
      k := k + 1;
    }
  }

  /** One turn of the outer loop: the parameters of piece `k`. */
  method ReadParam(parts: seq<string>, k: nat, local0: Scope, params0: seq<Param>) returns (local: Scope, params: seq<Param>)
    requires k < |parts|
    requires params0 == ParamList(parts, k) && local0 == Bind(params0)
    ensures params == ParamList(parts, k + 1) && local == Bind(params)
  {
    var decl := ParseDecl(parts[k] + ";");
    if decl.Some? {
      local, params := AddParams(decl.value.1, decl.value.0, local0, params0);
    } else {
      local, params := local0, params0;
      assert params0 + [] == params0;
    }
  }

  /** The inner loop: the names of one piece, each with the piece's type. */
  method AddParams(names: seq<string>, t: Ty, local0: Scope, params0: seq<Param>) returns (local: Scope, params: seq<Param>)
    requires local0 == Bind(params0)
    ensures params == params0 + Pairs(names, t) && local == Bind(params)
  {
    local, params := local0, params0;
    var k := 0;
    while k < |names|
      invariant k <= |names|
      invariant params == params0 + Pairs(names[..k], t) && local == Bind(params)
    {
      assert names[..k + 1][..k] == names[..k];
      AppendAssoc(params0, Pairs(names[..k], t), [(names[k], t)]);
      BindSnoc(params, (names[k], t));
      params := params + [(names[k], t)];
      local := local[names[k] := t];
      k := k + 1;
    }
    assert names[..k] == names;
  }

  // -------------------------------------------------------------- the driver

  /** Whether a line opens a function definition. */
  predicate IsHeaderLine(l: string)
  {
    MatchHeader(l, PySpace, false).Some?
  }

  /** What the analysis has gathered: the global scope, the function table, the
      errors and the warnings. */
  datatype State = State(globals: Scope, funcs: Registry, errors: seq<Diag>, warns: seq<Diag>)

  /** One top-level unit. A definition registers its signature first, then
      checks its body in a scope made of its parameters; a top-level line is a
      global declaration or nothing. */
  function ItemStep(s: State, it: Item): State
  {
    match it
    case Definition(h, body, _) =>
      (match MatchHeader(h, PySpace, false)
       case None => s
       case Some((t, name, raw)) =>
         var ps := Params(raw);
         var funcs := s.funcs[name := Sig(t, ps)];
         var f := BodyRun(body, s.globals, funcs, name, Frame(Bind(ps), s.errors, s.warns));
         State(s.globals, funcs, f.errors, f.warns))
    case TopLine(l) =>
      match ParseDecl(l)
      case Some((t, names)) => s.(globals := Declared(s.globals, names, t))
      case None => s
  }

  /** The units processed in order. */
  function RunItems(items: seq<Item>, s: State): State
  {
    if items == [] then s else RunItems(items[1..], ItemStep(s, items[0]))
  }

  /** `analyze`: the lines read from the raw lines, cut into units, processed
      from an empty state. */
  function Analysis(raw: seq<string>): State
  {
    RunItems(Segment(SourceLines(raw), IsHeaderLine), State(map[], map[], [], []))
  }

  // ------------------------------------------------------------ properties

  lemma {:induction false} ItemStepGrows(s: State, it: Item)
    ensures s.errors <= ItemStep(s, it).errors && s.warns <= ItemStep(s, it).warns
  {
    if it.Definition? && MatchHeader(it.header, PySpace, false).Some? {
      var (t, name, raw) := MatchHeader(it.header, PySpace, false).value;
      var ps := Params(raw);
      BodyRunGrows(it.body, s.globals, s.funcs[name := Sig(t, ps)], name, Frame(Bind(ps), s.errors, s.warns));
    }
  }

  /** Diagnostics are only ever appended. */
  lemma {:induction false} RunItemsGrows(items: seq<Item>, s: State)
    ensures s.errors <= RunItems(items, s).errors && s.warns <= RunItems(items, s).warns
  {
    if items != [] {
      ItemStepGrows(s, items[0]);
      RunItemsGrows(items[1..], ItemStep(s, items[0]));
    }
  }

  /** The signature a unit registers: only a definition registers one. */
  function Signature(it: Item): seq<(string, Sig)>
  {
    match it
    case TopLine(_) => []
    case Definition(h, _, _) =>
      match MatchHeader(h, PySpace, false)
      case Some((t, name, raw)) => [(name, Sig(t, Params(raw)))]
      case None => []
  }

  function Signatures(items: seq<Item>): seq<(string, Sig)>
  {
    if items == [] then [] else Signature(items[0]) + Signatures(items[1..])
  }

  /** The global bindings a unit makes: only a top-level declaration makes any. */
  function GlobalPairs(it: Item): seq<Param>
  {
    match it
    case Definition(_, _, _) => []
    case TopLine(l) =>
      match ParseDecl(l)
      case Some((t, names)) => Pairs(names, t)
      case None => []
  }

  function AllGlobalPairs(items: seq<Item>): seq<Param>
  {
    if items == [] then [] else GlobalPairs(items[0]) + AllGlobalPairs(items[1..])
  }

  lemma {:induction false} ItemStepTables(s: State, it: Item)
    ensures ItemStep(s, it).funcs == s.funcs + Bind(Signature(it))
    ensures ItemStep(s, it).globals == s.globals + Bind(GlobalPairs(it))
  {
    EmptyUnion(s.funcs);
    EmptyUnion(s.globals);
    match it
    case TopLine(l) =>
      if ParseDecl(l).Some? {
        var (t, names) := ParseDecl(l).value;
        DeclaredBind(s.globals, names, t);
      }
    case Definition(h, body, closed) =>
      if MatchHeader(h, PySpace, false).Some? {
        var (t, name, raw) := MatchHeader(h, PySpace, false).value;
        var q := (name, Sig(t, Params(raw)));
        BindSnoc([], q);
        assert [] + [q] == [q];
        UpdateIsUnion(s.funcs, name, q.1);
      }
  }

  /** The function table is the signatures of the definitions bound in order,
      and the global scope the names of the top-level declarations bound in
      order: function bodies never touch the globals, top-level lines never
      touch the functions. */
  lemma {:induction false} RunItemsTables(items: seq<Item>, s: State)
    ensures RunItems(items, s).funcs == s.funcs + Bind(Signatures(items))
    ensures RunItems(items, s).globals == s.globals + Bind(AllGlobalPairs(items))
  {
    if items == [] {
      EmptyUnion(s.funcs);
      EmptyUnion(s.globals);
    } else {
      var s' := ItemStep(s, items[0]);
      RunItemsTables(items[1..], s');
      ItemStepTables(s, items[0]);
      BindAppend(Signature(items[0]), Signatures(items[1..]));
      BindAppend(GlobalPairs(items[0]), AllGlobalPairs(items[1..]));
      UnionAssoc(s.funcs, Bind(Signature(items[0])), Bind(Signatures(items[1..])));
      UnionAssoc(s.globals, Bind(GlobalPairs(items[0])), Bind(AllGlobalPairs(items[1..])));
    }
  }

  /** The whole analysis: its function table binds the definitions'
      signatures in order, its global scope the top-level declarations' names. */
  lemma {:induction false} AnalysisTables(raw: seq<string>)
    ensures Analysis(raw).funcs == Bind(Signatures(Segment(SourceLines(raw), IsHeaderLine)))
    ensures Analysis(raw).globals == Bind(AllGlobalPairs(Segment(SourceLines(raw), IsHeaderLine)))
  {
    var items := Segment(SourceLines(raw), IsHeaderLine);
    RunItemsTables(items, State(map[], map[], [], []));
    EmptyUnion(Bind(Signatures(items)));
    EmptyUnion(Bind(AllGlobalPairs(items)));
  }

  /** A function defined several times keeps the signature of its last
      definition. */
  lemma {:induction false} LastDefinitionWins(raw: seq<string>, name: string, k: nat)
    requires var sigs := Signatures(Segment(SourceLines(raw), IsHeaderLine));
             k < |sigs| && sigs[k].0 == name && forall m :: k < m < |sigs| ==> sigs[m].0 != name
    ensures name in Analysis(raw).funcs
    ensures Analysis(raw).funcs[name] == Signatures(Segment(SourceLines(raw), IsHeaderLine))[k].1
  {
    AnalysisTables(raw);
    BindLookup(Signatures(Segment(SourceLines(raw), IsHeaderLine)), name);
  }

  /** A function is registered before its body is checked, so its body may
      call it: no call in a definition reports the function itself undeclared. */
  lemma {:induction false} RecursionResolves(s: State, h: string, body: seq<string>, closed: bool)
    requires MatchHeader(h, PySpace, false).Some?
    ensures var name := MatchHeader(h, PySpace, false).value.1;
            var r := ItemStep(s, Definition(h, body, closed));
            && s.errors <= r.errors
            && UndeclaredFunction(name, name) !in r.errors[|s.errors|..]
  {
    var (t, name, raw) := MatchHeader(h, PySpace, false).value;
    var ps := Params(raw);
    var funcs := s.funcs[name := Sig(t, ps)];
    BodyRunKnows(body, s.globals, funcs, name, Frame(Bind(ps), s.errors, s.warns));
  }

  // ------------------------------------------------------------ the loops

  /** One line of a function body, as the inner loop handles it. */
  method CheckLine(b: string, globals: Scope, funcs: Registry, ctx: string,
                   local: Scope, errors: seq<Diag>, warns: seq<Diag>)
    returns (local': Scope, errors': seq<Diag>, warns': seq<Diag>)
    ensures Frame(local', errors', warns') == BodyLine(b, globals, funcs, ctx, Frame(local, errors, warns))
  {
    local', errors', warns' := local, errors, warns;
    var decl := ParseDecl(b);
    if decl.Some? {
      local' := DeclareNames(local, decl.value.1, decl.value.0);
      return;
    }
    var asg := MatchAssign(b);
    if asg.Some? {
      errors', warns' := CheckAssign(asg.value.0, asg.value.1, globals, funcs, ctx, local, errors, warns);
    }
  }

  /** An assignment line: the target's check, the right-hand side's
      evaluation, then the coercion check. */
  method CheckAssign(lhs: string, rhs: string, globals: Scope, funcs: Registry, ctx: string,
                     local: Scope, errors: seq<Diag>, warns: seq<Diag>)
    returns (errors': seq<Diag>, warns': seq<Diag>)
    ensures Frame(local, errors', warns') == Assign(lhs, rhs, globals, funcs, ctx, Frame(local, errors, warns))
  {
    var lhsT := TargetType(lhs, local, globals);
    var flagged := if lhs !in local && lhs !in globals then [UndeclaredVariable(ctx, lhs)] else [];
    var rhsT, ds := EvalExpr(rhs, local, globals, funcs, [], ctx);
    assert ds == Eval(rhs, local, globals, funcs, ctx).1;
    errors' := errors + flagged + ds;
    warns' := warns + (if lhsT != rhsT && rhsT != Undef then [Coercion(ctx, rhsT, lhsT, lhs)] else []);
    AssignAt(lhs, rhs, globals, funcs, ctx, Frame(local, errors, warns), (rhsT, ds));
  }

  /** `Assign` once the evaluation is known. */
  lemma {:induction false} AssignAt(lhs: string, rhs: string, globals: Scope, funcs: Registry, ctx: string, f: Frame,
                 ev: (Ty, seq<Diag>))
    requires ev == Eval(rhs, f.local, globals, funcs, ctx)
    ensures var lt := TargetType(lhs, f.local, globals);
            Assign(lhs, rhs, globals, funcs, ctx, f)
            == Frame(f.local,
                     f.errors + (if lhs !in f.local && lhs !in globals then [UndeclaredVariable(ctx, lhs)] else []) + ev.1,
                     f.warns + (if lt != ev.0 && ev.0 != Undef then [Coercion(ctx, ev.0, lt, lhs)] else []))
  {
  }

  /** A definition whose header is line `i`: register the function, then check
      the body lines up to the first `}` line, and go past that line. */
  method CheckDefinition(lines: seq<string>, i: nat, globals: Scope, funcs0: Registry,
                         errors0: seq<Diag>, warns0: seq<Diag>)
    returns (next: nat, funcs: Registry, errors: seq<Diag>, warns: seq<Diag>)
    requires i < |lines| && IsHeaderLine(lines[i])
    ensures next == CloseAt(lines, i + 1) + 1
    ensures State(globals, funcs, errors, warns)
            == ItemStep(State(globals, funcs0, errors0, warns0),
                        Definition(lines[i], lines[i + 1..next - 1], next - 1 < |lines|))
  {
    var (t, fname, raw) := MatchHeader(lines[i], PySpace, false).value;
    var local, params := ReadParams(raw);
    funcs := funcs0[fname := Sig(t, params)];
    var j;
    j, local, errors, warns := CheckBody(lines, i + 1, globals, funcs, fname, local, errors0, warns0);
    next := j + 1;
    assert lines[i + 1..next - 1] == lines[i + 1..j];
    DefinitionAt(State(globals, funcs0, errors0, warns0), lines[i], lines[i + 1..next - 1], next - 1 < |lines|,
                 t, fname, raw, Frame(local, errors, warns));
  }

  lemma {:induction false} DefinitionAt(s: State, h: string, body: seq<string>, closed: bool,
                     t: Ty, name: string, raw: string, f: Frame)
    requires MatchHeader(h, PySpace, false) == Some((t, name, raw))
    requires f == BodyRun(body, s.globals, s.funcs[name := Sig(t, Params(raw))], name,
                          Frame(Bind(Params(raw)), s.errors, s.warns))
    ensures ItemStep(s, Definition(h, body, closed)) == State(s.globals, s.funcs[name := Sig(t, Params(raw))], f.errors, f.warns)
  {
  }

  /** The inner loop: the lines from `lo` up to the first `}` line. */
  method CheckBody(lines: seq<string>, lo: nat, globals: Scope, funcs: Registry, fname: string,
                   local0: Scope, errors0: seq<Diag>, warns0: seq<Diag>)
    returns (j: nat, local: Scope, errors: seq<Diag>, warns: seq<Diag>)
    requires lo <= |lines|
    ensures j == CloseAt(lines, lo)
    ensures Frame(local, errors, warns) == BodyRun(lines[lo..j], globals, funcs, fname, Frame(local0, errors0, warns0))
  {
    local, errors, warns := local0, errors0, warns0;
    j := lo;
    while j < |lines| && lines[j] != "}"
      invariant lo <= j <= CloseAt(lines, lo)
      invariant Frame(local, errors, warns) == FoldFrom(lines, lo, j, LineStep(globals, funcs, fname), Frame(local0, errors0, warns0))
    {
      CloseAtPast(lines, lo, j);
      local, errors, warns := CheckBodyLine(lines, lo, j, globals, funcs, fname, local0, errors0, warns0, local, errors, warns);
      j := j + 1;
    }
    CloseAtSpec(lines, lo);
    BodyFromSlice(lines, lo, j, globals, funcs, fname, Frame(local0, errors0, warns0));
  }

  lemma {:induction false} BodyFromSlice(lines: seq<string>, lo: nat, j: nat, globals: Scope, funcs: Registry, ctx: string, f: Frame)
    requires lo <= j <= |lines|
    ensures FoldFrom(lines, lo, j, LineStep(globals, funcs, ctx), f) == BodyRun(lines[lo..j], globals, funcs, ctx, f)
  {
    FoldFromSlice(lines, lo, j, LineStep(globals, funcs, ctx), f);
  }

  /** One turn of the inner loop: line `j` extends the checked prefix by one. */
  method CheckBodyLine(lines: seq<string>, lo: nat, j: nat, globals: Scope, funcs: Registry, fname: string,
                       local0: Scope, errors0: seq<Diag>, warns0: seq<Diag>,
                       local: Scope, errors: seq<Diag>, warns: seq<Diag>)
    returns (local': Scope, errors': seq<Diag>, warns': seq<Diag>)
    requires lo <= j < |lines|
    requires Frame(local, errors, warns) == FoldFrom(lines, lo, j, LineStep(globals, funcs, fname), Frame(local0, errors0, warns0))
    ensures Frame(local', errors', warns') == FoldFrom(lines, lo, j + 1, LineStep(globals, funcs, fname), Frame(local0, errors0, warns0))
  {
    local', errors', warns' := CheckLine(lines[j], globals, funcs, fname, local, errors, warns);
  }

  /** `analyze` over the raw lines: it computes `Analysis`. */
  method Analyze(raw: seq<string>) returns (globals: Scope, funcs: Registry, errors: seq<Diag>, warns: seq<Diag>)
    ensures State(globals, funcs, errors, warns) == Analysis(raw)
  {
    var lines := SourceLines(raw);
    globals, funcs, errors, warns := map[], map[], [], [];
    var i := 0;
    assert Rest(lines, 0) == lines;
    while i < |lines|
      invariant i <= |lines| + 1
      invariant RunItems(Segment(Rest(lines, i), IsHeaderLine), State(globals, funcs, errors, warns)) == Analysis(raw)
    {
      ghost var s := State(globals, funcs, errors, warns);
      if MatchHeader(lines[i], PySpace, false).Some? {
        DefinitionNext(lines, i, s);
        i, funcs, errors, warns := CheckDefinition(lines, i, globals, funcs, errors, warns);
      } else {
        TopLineNext(lines, i, s);
        globals := CheckTopLine(lines[i], globals, funcs, errors, warns);
        i := i + 1;
      }
    }
  }

  /** A top-level line: a global declaration binds its names, anything else
      is skipped. */
  method CheckTopLine(l: string, globals: Scope, funcs: Registry, errors: seq<Diag>, warns: seq<Diag>)
    returns (globals': Scope)
    ensures State(globals', funcs, errors, warns) == ItemStep(State(globals, funcs, errors, warns), TopLine(l))
  {
    globals' := globals;
    var decl := ParseDecl(l);
    if decl.Some? {
      globals' := DeclareNames(globals, decl.value.1, decl.value.0);
    }
  }

  /** Past a definition, the analysis goes on after its closing line. */
  lemma {:induction false} DefinitionNext(lines: seq<string>, i: nat, s: State)
    requires i < |lines| && IsHeaderLine(lines[i])
    ensures var j := CloseAt(lines, i + 1);
      RunItems(Segment(Rest(lines, i), IsHeaderLine), s)
        == RunItems(Segment(Rest(lines, j + 1), IsHeaderLine), ItemStep(s, Definition(lines[i], lines[i + 1..j], j < |lines|)))
  {
    var j := CloseAt(lines, i + 1);
    var it := Definition(lines[i], lines[i + 1..j], j < |lines|);
    SegmentDefinitionAt(lines, i, IsHeaderLine);
    RunItemsCons(it, Segment(Rest(lines, j + 1), IsHeaderLine), s);
  }

  /** Past a top-level line, the analysis goes on with the next line. */
  lemma {:induction false} TopLineNext(lines: seq<string>, i: nat, s: State)
    requires i < |lines| && !IsHeaderLine(lines[i])
    ensures RunItems(Segment(Rest(lines, i), IsHeaderLine), s)
              == RunItems(Segment(Rest(lines, i + 1), IsHeaderLine), ItemStep(s, TopLine(lines[i])))
  {
    SegmentTopAt(lines, i, IsHeaderLine);
    assert Rest(lines, i + 1) == lines[i + 1..];
    RunItemsCons(TopLine(lines[i]), Segment(Rest(lines, i + 1), IsHeaderLine), s);
  }

  lemma {:induction false} RunItemsCons(it: Item, rest: seq<Item>, s: State)
    ensures RunItems([it] + rest, s) == RunItems(rest, ItemStep(s, it))
  {
    assert ([it] + rest)[1..] == rest;
  }
}
