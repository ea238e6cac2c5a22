/** The C++ checker: literal and token typing, expression evaluation, and the
    line-by-line analysis that registers globals and functions and checks each
    function body. Each operation is a function stating its result, and where
    the source works step by step, a method with the same loops proved to
    compute it. */
module CppChecker {
  import opened Chars
  import opened Strings
  import opened Semantics
  import opened Patterns
  import opened CppPatterns
  import opened Segments

  /** A registered function (`struct Function`): its return type and the types
      of its parameters. */
  datatype Sig = Sig(ret: Ty, params: seq<Ty>)

  /** The `funcs` table. */
  type Registry = map<string, Sig>

  // --------------------------------------------------------------- literals

  /** `literalType`: 'f' for a float literal, 'i' for an integer literal, and
      0 for anything else. */
  function LiteralType(tok: string): Ty
  {
    if IsFloatLiteral(tok) then Float else if IsIntLiteral(tok) then Int else Undef
  }

  /** 'f' exactly for digits '.' digits, 'i' exactly for digits, 0 otherwise. */
  lemma {:induction false} LiteralTypeSpec(tok: string)
    ensures LiteralType(tok) == Float <==> FloatShape(tok)
    ensures LiteralType(tok) == Int <==> IsDigits(tok)
    ensures LiteralType(tok) == Undef <==> !FloatShape(tok) && !IsDigits(tok)
  {
    FloatLiteralIff(tok);
    IntLiteralIff(tok);
    LiteralsDisjoint(tok);
  }

  /** `tokenType`: the local scope first, then the global one, then the
      literal reading of the token. */
  function TokenType(tok: string, local: Scope, global: Scope): Ty
  {
    if tok in local then local[tok]
    else if tok in global then global[tok]
    else LiteralType(tok)
  }

  /** The lookup reads the global scope overridden by the local one, and falls
      back on the literal type: a local name shadows a global one. */
  lemma {:induction false} TokenTypeScopes(tok: string, local: Scope, global: Scope)
    ensures TokenType(tok, local, global)
            == if tok in global + local then (global + local)[tok] else LiteralType(tok)
    ensures tok in local ==> TokenType(tok, local, global) == local[tok]
  {
  }

  // -------------------------------------------------------------- arguments

  /** The check of one argument against its parameter type. */
  function ArgCheck(arg: string, expected: Ty, local: Scope, global: Scope, ctx: string): seq<Diag>
  {
    var at := TokenType(arg, local, global);
    if at == Undef then [UndeclaredArgument(ctx, arg)]
    else if at != expected then [ArgumentType(ctx, arg, at, expected)]
    else []
  }

  /** The diagnostics of checking the first `n` arguments in order; at most one
      per position, and each about an argument. */
  function ArgDiags(args: seq<string>, params: seq<Ty>, n: nat, local: Scope, global: Scope,
                    ctx: string): (r: seq<Diag>)
    requires n <= |args| && n <= |params|
    ensures |r| <= n
    ensures forall k :: 0 <= k < |r| ==> r[k].UndeclaredArgument? || r[k].ArgumentType?
  {
    if n == 0 then []
    else ArgDiags(args, params, n - 1, local, global, ctx)
         + ArgCheck(args[n - 1], params[n - 1], local, global, ctx)
  }

  /** An argument passes when it has a type and it is the expected one. */
  predicate ArgOk(arg: string, expected: Ty, local: Scope, global: Scope) {
    TokenType(arg, local, global) != Undef && TokenType(arg, local, global) == expected
  }

  /** No diagnostic at all exactly when every checked argument has a type and
      it is its parameter's type. */
  lemma {:induction false} ArgDiagsNone(args: seq<string>, params: seq<Ty>, n: nat,
                                        local: Scope, global: Scope, ctx: string)
    requires n <= |args| && n <= |params|
    ensures ArgDiags(args, params, n, local, global, ctx) == [] <==>
            forall k :: 0 <= k < n ==> ArgOk(args[k], params[k], local, global)
  {
    if n > 0 {
      ArgDiagsNone(args, params, n - 1, local, global, ctx);
      var prev := ArgDiags(args, params, n - 1, local, global, ctx);
      var last := ArgCheck(args[n - 1], params[n - 1], local, global, ctx);
      assert last == [] <==> ArgOk(args[n - 1], params[n - 1], local, global);
      assert ArgDiags(args, params, n, local, global, ctx) == prev + last;
      if prev + last == [] {
        assert prev == [] && last == [];
      } else if prev != [] {
        var k :| 0 <= k < n - 1 && !ArgOk(args[k], params[k], local, global);
      } else {
        assert !ArgOk(args[n - 1], params[n - 1], local, global);
      }
    }
  }

  /** Only the first `n` arguments and parameters are ever looked at. */
  lemma {:induction false} ArgDiagsPrefix(args: seq<string>, params: seq<Ty>,
                                          args': seq<string>, params': seq<Ty>, n: nat,
                                          local: Scope, global: Scope, ctx: string)
    requires n <= |args| && n <= |params| && n <= |args'| && n <= |params'|
    requires args[..n] == args'[..n] && params[..n] == params'[..n]
    ensures ArgDiags(args, params, n, local, global, ctx) == ArgDiags(args', params', n, local, global, ctx)
  {
    if n > 0 {
      assert args[..n - 1] == args'[..n - 1] && params[..n - 1] == params'[..n - 1];
      assert args[n - 1] == args[..n][n - 1] && params[n - 1] == params[..n][n - 1];
      ArgDiagsPrefix(args, params, args', params', n - 1, local, global, ctx);
    }
  }

  function Min(a: nat, b: nat): nat { if a < b then a else b }

  // ------------------------------------------------------------ expressions

  /** A call of `name` with the argument text `argstr`. */
  function EvalCall(name: string, argstr: string, local: Scope, global: Scope, funcs: Registry,
                    ctx: string): (Ty, seq<Diag>)
  {
    if name !in funcs then (Undef, [UndeclaredFunction(ctx, name)])
    else
      var fn := funcs[name];
      var args := Items(argstr, ',');
      (fn.ret, (if |args| != |fn.params| then [ArgumentCount(ctx, name)] else [])
               + ArgDiags(args, fn.params, Min(|args|, |fn.params|), local, global, ctx))
  }

  /** `evalExpr`: the type of an expression and the errors it adds, after all
      blanks are removed. A call is tried first, then a sum at the first '+',
      then a single token. */
  function Eval(expr: string, local: Scope, global: Scope, funcs: Registry, ctx: string): (Ty, seq<Diag>)
  {
    var e := Squeeze(expr);
    match MatchCall(e)
    case Some((name, argstr)) => EvalCall(name, argstr, local, global, funcs, ctx)
    case None =>
      var p := Find(e, 0, '+');
      if p < |e| then
        var lt := TokenType(e[..p], local, global);
        var rt := TokenType(e[p + 1..], local, global);
        (if lt == Float || rt == Float then Float else Int, [])
      else (TokenType(e, local, global), [])
  }

  /** A call of an unregistered function: one error, and no type. */
  lemma {:induction false} EvalUnknownCall(expr: string, local: Scope, global: Scope, funcs: Registry, ctx: string, c: nat)
    requires CallCut(Squeeze(expr), c) && Squeeze(expr)[..c] !in funcs
    ensures Eval(expr, local, global, funcs, ctx) == (Undef, [UndeclaredFunction(ctx, Squeeze(expr)[..c])])
  {
    EvalIsCall(expr, local, global, funcs, ctx, c);
  }

  /** An expression of the call shape is evaluated as that call. */
  lemma {:induction false} EvalIsCall(expr: string, local: Scope, global: Scope, funcs: Registry, ctx: string, c: nat)
    requires CallCut(Squeeze(expr), c)
    ensures Eval(expr, local, global, funcs, ctx)
            == EvalCall(Squeeze(expr)[..c], Squeeze(expr)[c + 1..|Squeeze(expr)| - 1], local, global, funcs, ctx)
  {
    MatchCallAt(Squeeze(expr), c);
  }

  lemma {:induction false} EvalOfCall(expr: string, local: Scope, global: Scope, funcs: Registry, ctx: string,
                                      name: string, argstr: string)
    requires MatchCall(Squeeze(expr)) == Some((name, argstr))
    ensures Eval(expr, local, global, funcs, ctx) == EvalCall(name, argstr, local, global, funcs, ctx)
  {
  }

  /** A call of a registered function has its return type whatever its
      arguments; a count mismatch adds exactly one error; and besides that,
      only the positions both lists have are checked, at most one error each. */
  lemma {:induction false} KnownCall(name: string, argstr: string, local: Scope, global: Scope, funcs: Registry, ctx: string)
    requires name in funcs
    ensures var args := Items(argstr, ',');
            var fn := funcs[name];
            var r := EvalCall(name, argstr, local, global, funcs, ctx);
            && r.0 == fn.ret
            && multiset(r.1)[ArgumentCount(ctx, name)] == (if |args| != |fn.params| then 1 else 0)
            && |r.1| <= (if |args| != |fn.params| then 1 else 0) + Min(|args|, |fn.params|)
  {
    var args := Items(argstr, ',');
    var fn := funcs[name];
    var ds := ArgDiags(args, fn.params, Min(|args|, |fn.params|), local, global, ctx);
    assert ArgumentCount(ctx, name) !in ds;
  }

  /** A sum at the first '+': float when either side is float, int otherwise,
      even when a side has no type; and no error. */
  lemma {:induction false} EvalSum(expr: string, local: Scope, global: Scope, funcs: Registry, ctx: string, p: nat)
    requires MatchCall(Squeeze(expr)) == None
    requires p < |Squeeze(expr)| && Squeeze(expr)[p] == '+' && '+' !in Squeeze(expr)[..p]
    ensures var e := Squeeze(expr);
            var lt := TokenType(e[..p], local, global);
            var rt := TokenType(e[p + 1..], local, global);
            var r := Eval(expr, local, global, funcs, ctx);
            && (r.0 == Float <==> lt == Float || rt == Float)
            && r.0 in {Int, Float}
            && r.1 == []
  {
    var e := Squeeze(expr);
    NotInSlice(e, 0, p, '+');
    FindIs(e, 0, p, '+');
  }

  /** Neither a call nor a sum: the token's own type, and no error. */
  lemma {:induction false} EvalToken(expr: string, local: Scope, global: Scope, funcs: Registry, ctx: string)
    requires MatchCall(Squeeze(expr)) == None && '+' !in Squeeze(expr)
    ensures Eval(expr, local, global, funcs, ctx) == (TokenType(Squeeze(expr), local, global), [])
  {
    var e := Squeeze(expr);
    NotInSlice(e, 0, |e|, '+');
    FindIs(e, 0, |e|, '+');
  }

  /** Registered functions return `int`, `float` or `void`. */
  ghost predicate Returns(funcs: Registry) {
    forall f :: f in funcs ==> funcs[f].ret in {Int, Float, Void}
  }

  /** Evaluation never yields the 'u' tag. */
  lemma {:induction false} EvalNotUnknown(expr: string, local: Scope, global: Scope, funcs: Registry, ctx: string)
    requires Returns(funcs) && Scalar(local) && Scalar(global)
    ensures Eval(expr, local, global, funcs, ctx).0 != Unknown
  {
  }

  /** Evaluation adds only errors about calls: never an undeclared-variable
      error and never a warning. */
  lemma {:induction false} EvalDiagKinds(expr: string, local: Scope, global: Scope, funcs: Registry, ctx: string)
    ensures var ds := Eval(expr, local, global, funcs, ctx).1;
            forall k :: 0 <= k < |ds| ==> !ds[k].UndeclaredVariable? && !ds[k].Coercion?
  {
  }

  /** The loop over the first min(#args, #params) positions, appending one
      error per bad argument. */
  method CheckArgs(args: seq<string>, params: seq<Ty>, local: Scope, global: Scope,
                   errors: seq<Diag>, ctx: string) returns (errs: seq<Diag>)
    ensures errs == errors + ArgDiags(args, params, Min(|args|, |params|), local, global, ctx)
  {
    var n := Min(|args|, |params|);
    errs := errors;
    var i := 0;
    while i < n
      invariant i <= n
      invariant errs == errors + ArgDiags(args, params, i, local, global, ctx)
    {
      var ds := CheckArg(args[i], params[i], local, global, ctx);
      ArgDiagsStep(args, params, i, local, global, ctx);
      AppendAssoc(errors, ArgDiags(args, params, i, local, global, ctx), ds);
      errs := errs + ds;
      i := i + 1;
    }
  }

  /** The loop body: one argument against its parameter. */
  method CheckArg(arg: string, expected: Ty, local: Scope, global: Scope, ctx: string) returns (ds: seq<Diag>)
    ensures ds == ArgCheck(arg, expected, local, global, ctx)
  {
    var at := TokenType(arg, local, global);
    if at == Undef {
      ds := [UndeclaredArgument(ctx, arg)];
    } else if at != expected {
      ds := [ArgumentType(ctx, arg, at, expected)];
    } else {
      ds := [];
    }
  }

  lemma {:induction false} ArgDiagsStep(args: seq<string>, params: seq<Ty>, i: nat, local: Scope, global: Scope, ctx: string)
    requires i < |args| && i < |params|
    ensures ArgDiags(args, params, i + 1, local, global, ctx)
            == ArgDiags(args, params, i, local, global, ctx) + ArgCheck(args[i], params[i], local, global, ctx)
  {
  }

  /** The call branch of `evalExpr`: it appends its errors to `errors`. */
  method CheckCall(name: string, argstr: string, local: Scope, global: Scope, funcs: Registry,
                   errors: seq<Diag>, ctx: string) returns (t: Ty, errs: seq<Diag>)
    ensures t == EvalCall(name, argstr, local, global, funcs, ctx).0
    ensures errs == errors + EvalCall(name, argstr, local, global, funcs, ctx).1
  {
    if name !in funcs {
      return Undef, errors + [UndeclaredFunction(ctx, name)];
    }
    var fn := funcs[name];
    var args := Split(argstr, ',');
    var counted := if |args| != |fn.params| then [ArgumentCount(ctx, name)] else [];
    errs := CheckArgs(args, fn.params, local, global, errors + counted, ctx);
    t := fn.ret;
    CallAt(name, argstr, local, global, funcs, ctx, args);
    AppendAssoc(errors, counted, ArgDiags(args, fn.params, Min(|args|, |fn.params|), local, global, ctx));
  }

  lemma {:induction false} CallAt(name: string, argstr: string, local: Scope, global: Scope, funcs: Registry, ctx: string,
               args: seq<string>)
    requires name in funcs && args == Items(argstr, ',')
    ensures EvalCall(name, argstr, local, global, funcs, ctx)
            == (funcs[name].ret, (if |args| != |funcs[name].params| then [ArgumentCount(ctx, name)] else [])
                                 + ArgDiags(args, funcs[name].params, Min(|args|, |funcs[name].params|), local, global, ctx))
  {
  }

  /** `evalExpr` itself: it appends its errors to `errors`. */
  method EvalExpr(expr: string, local: Scope, global: Scope, funcs: Registry,
                  errors: seq<Diag>, ctx: string) returns (t: Ty, errs: seq<Diag>)
    ensures t == Eval(expr, local, global, funcs, ctx).0
    ensures errs == errors + Eval(expr, local, global, funcs, ctx).1
  {
    var e := Squeeze(expr);
    var call := MatchCall(e);
    if call.Some? {
      t, errs := CheckCall(call.value.0, call.value.1, local, global, funcs, errors, ctx);
      return;
    }
    var p := Find(e, 0, '+');
    if p < |e| {
      var lt := TokenType(e[..p], local, global);
      var rt := TokenType(e[p + 1..], local, global);
      t := if lt == Float || rt == Float then Float else Int;
    } else {
      t := TokenType(e, local, global);
    }
    errs := errors;
  }

  // ------------------------------------------------------------------ bodies

  /** The state while a function body is checked: its local variables and the
      diagnostics so far. */
  datatype Frame = Frame(local: Scope, errors: seq<Diag>, warns: seq<Diag>)

  /** The tag of an assignment target: its type, or 'u' when it has none. */
  function TargetType(lhs: string, local: Scope, global: Scope): Ty
  {
    var t := TokenType(lhs, local, global);
    if t == Undef then Unknown else t
  }

  /** `lhs = rhs;` in the body of `ctx`: an undeclared target is an error, then
      the right-hand side is evaluated, then a type difference is a warning
      unless the right-hand side has no type. */
  function Assign(lhs: string, rhs: string, globals: Scope, funcs: Registry, ctx: string, f: Frame): Frame
  {
    var undeclared := TokenType(lhs, f.local, globals) == Undef;
    var lt := TargetType(lhs, f.local, globals);
    var ev := Eval(rhs, f.local, globals, funcs, ctx);
    Frame(f.local,
          f.errors + (if undeclared then [UndeclaredVariable(ctx, lhs)] else []) + ev.1,
          f.warns + (if lt != ev.0 && ev.0 != Undef then [Coercion(ctx, ev.0, lt, lhs)] else []))
  }

  /** One body line: a declaration if it has that shape, else an assignment if
      it has that shape, else nothing. */
  function BodyLine(b: string, globals: Scope, funcs: Registry, ctx: string, f: Frame): Frame
  {
    match MatchDecl(b, CSpace, true)
    case Some((t, names)) => f.(local := Declared(f.local, Items(names, ','), t))
    case None =>
      match MatchAssign(b)
      case Some((lhs, rhs)) => Assign(lhs, rhs, globals, funcs, ctx, f)
      case None => f
  }

  /** `BodyLine` in the body of `ctx`, as a step over frames. */
  function LineStep(globals: Scope, funcs: Registry, ctx: string): (string, Frame) -> Frame
  {
    (b: string, f: Frame) => BodyLine(b, globals, funcs, ctx, f)
  }

  /** The body lines checked in order. */
  function BodyRun(body: seq<string>, globals: Scope, funcs: Registry, ctx: string, f: Frame): Frame
  {
    Fold(body, LineStep(globals, funcs, ctx), f)
  }

  /** An undeclared target adds exactly one undeclared-variable error about it,
      and a declared one none; errors are only appended. */
  lemma {:induction false} AssignUndeclared(lhs: string, rhs: string, globals: Scope, funcs: Registry, ctx: string, f: Frame)
    ensures var r := Assign(lhs, rhs, globals, funcs, ctx, f);
            && f.errors <= r.errors
            && multiset(r.errors[|f.errors|..])[UndeclaredVariable(ctx, lhs)]
               == (if TokenType(lhs, f.local, globals) == Undef then 1 else 0)
  {
    var ev := Eval(rhs, f.local, globals, funcs, ctx);
    AssignAt(lhs, rhs, globals, funcs, ctx, f, TargetType(lhs, f.local, globals), ev);
    EvalDiagKinds(rhs, f.local, globals, funcs, ctx);
    var flagged := if TokenType(lhs, f.local, globals) == Undef then [UndeclaredVariable(ctx, lhs)] else [];
    CountAppended(f.errors, flagged, ev.1, UndeclaredVariable(ctx, lhs));
  }

  /** Appending `added` and then diagnostics of other kinds: the new part holds
      `x` as often as `added` does. */
  lemma {:induction false} CountAppended(pre: seq<Diag>, added: seq<Diag>, ds: seq<Diag>, x: Diag)
    requires x.UndeclaredVariable?
    requires forall k :: 0 <= k < |ds| ==> !ds[k].UndeclaredVariable? && !ds[k].Coercion?
    ensures pre <= pre + added + ds
    ensures multiset((pre + added + ds)[|pre|..])[x] == multiset(added)[x]
  {
    assert (pre + added + ds)[|pre|..] == added + ds;
    assert forall k :: 0 <= k < |ds| ==> ds[k] != x;
    assert x !in ds;
    assert multiset(added + ds) == multiset(added) + multiset(ds);
  }

  /** A warning is added exactly when the target's tag and the right-hand
      side's type differ and the latter is a type; it is the only one, and it
      names both. */
  lemma {:induction false} AssignWarning(lhs: string, rhs: string, globals: Scope, funcs: Registry, ctx: string, f: Frame)
    ensures var r := Assign(lhs, rhs, globals, funcs, ctx, f);
            var lt := TargetType(lhs, f.local, globals);
            var rt := Eval(rhs, f.local, globals, funcs, ctx).0;
            && f.warns <= r.warns && |r.warns| <= |f.warns| + 1
            && (|r.warns| == |f.warns| + 1 <==> lt != rt && rt != Undef)
            && (|r.warns| == |f.warns| + 1 ==> r.warns[|f.warns|] == Coercion(ctx, rt, lt, lhs))
  {
  }

  /** An undeclared target is tagged 'u', which no expression evaluates to, so
      whenever the right-hand side has a type the line is also warned about. */
  lemma {:induction false} UndeclaredTargetWarns(lhs: string, rhs: string, globals: Scope, funcs: Registry, ctx: string, f: Frame)
    requires Returns(funcs) && Scalar(f.local) && Scalar(globals)
    requires TokenType(lhs, f.local, globals) == Undef
    requires Eval(rhs, f.local, globals, funcs, ctx).0 != Undef
    ensures Assign(lhs, rhs, globals, funcs, ctx, f).warns
            == f.warns + [Coercion(ctx, Eval(rhs, f.local, globals, funcs, ctx).0, Unknown, lhs)]
  {
    EvalNotUnknown(rhs, f.local, globals, funcs, ctx);
  }

  /** A line of both shapes is a declaration: `int = 1;` declares the name
      `= 1` and is not checked as an assignment to `int`. */
  lemma {:induction false} DeclarationFirst(l: string, globals: Scope, funcs: Registry, ctx: string, f: Frame)
    requires l == "int = 1;"
    ensures MatchAssign(l) == Some(("int", "1"))
    ensures BodyLine(l, globals, funcs, ctx, f) == f.(local := f.local["= 1" := Int])
  {
    AssignWitness(l);
    DeclWitness(l);
    NameWitness("= 1");
    DeclLine(l, globals, funcs, ctx, f, Int, "= 1");
    assert Declared(f.local, ["= 1"], Int) == f.local["= 1" := Int];
  }

  /** A body line of the declaration shape only declares its names. */
  lemma {:induction false} DeclLine(b: string, globals: Scope, funcs: Registry, ctx: string, f: Frame, t: Ty, names: string)
    requires MatchDecl(b, CSpace, true) == Some((t, names))
    ensures BodyLine(b, globals, funcs, ctx, f) == f.(local := Declared(f.local, Items(names, ','), t))
  {
  }

  lemma {:induction false} AssignWitness(l: string)
    requires l == "int = 1;"
    ensures MatchAssign(l) == Some(("int", "1"))
  {
    MatchAssignComplete(l, 0, 3, 4, 6);
    assert l[0..3] == "int" && l[6..7] == "1";
  }

  lemma {:induction false} NameWitness(x: string)
    requires x == "= 1"
    ensures Items(x, ',') == [x]
  {
    ItemsSingle(x, ',');
    StripNoop(x, CSpace);
  }

  lemma {:induction false} DeclWitness(l: string)
    requires l == "int = 1;"
    ensures MatchDecl(l, CSpace, true) == Some((Int, "= 1"))
  {
    TermWitness(l);
    MatchDeclComplete(l, CSpace, true, Int, 0, 4, 7);
  }

  lemma {:induction false} TermWitness(l: string)
    requires l == "int = 1;"
    ensures l[0..3] == TypeName(Int) && TermCut(l, 3, CSpace, 1, true, 4, 7) && l[4..7] == "= 1"
  {
  }

  /** The body lines only ever append diagnostics. */
  lemma {:induction false} BodyRunGrows(body: seq<string>, globals: Scope, funcs: Registry, ctx: string, f: Frame)
    ensures var r := BodyRun(body, globals, funcs, ctx, f);
            f.errors <= r.errors && f.warns <= r.warns
  {
    if body != [] {
      var init := body[..|body| - 1];
      var b := body[|body| - 1];
      var g := BodyRun(init, globals, funcs, ctx, f);
      BodyRunGrows(init, globals, funcs, ctx, f);
      if MatchDecl(b, CSpace, true).None? && MatchAssign(b).Some? {
        var (lhs, rhs) := MatchAssign(b).value;
        AssignUndeclared(lhs, rhs, globals, funcs, ctx, g);
        AssignWarning(lhs, rhs, globals, funcs, ctx, g);
      }
    }
  }

  // -------------------------------------------------------------- headers

  /** The parameters `\s*(int|float)\s+(\w+)\s*` recognises among the pieces,
      in order; the others are skipped. */
  function ParamList(parts: seq<string>): seq<Param>
  {
    if parts == [] then [] else ParamList(parts[..|parts| - 1]) + ParamOf(parts[|parts| - 1])
  }

  /** One piece's parameter, if it is one. */
  function ParamOf(p: string): seq<Param>
  {
    match MatchParam(p)
    case Some((t, x)) => [(x, t)]
    case None => []
  }

  /** The parameters of a raw parameter list: none when it is empty, else
      those among its `split` items. */
  function Params(raw: string): seq<Param>
  {
    if raw == [] then [] else ParamList(Items(raw, ','))
  }

  function Types(ps: seq<Param>): seq<Ty>
  {
    seq(|ps|, k requires 0 <= k < |ps| => ps[k].1)
  }

  /** A parameter as the pattern admits it: `int` or `float`, named by a word. */
  predicate ParamTyped(q: Param) {
    q.1 in {Int, Float} && IsWord(q.0)
  }

  lemma {:induction false} ParamOfTyped(p: string)
    ensures forall k :: 0 <= k < |ParamOf(p)| ==> ParamTyped(ParamOf(p)[k])
  {
    if MatchParam(p).Some? {
      var (t, x) := MatchParam(p).value;
      var a, b, c := MatchParamSound(p, t, x);
      assert forall i :: 0 <= i < |x| ==> x[i] == p[b + i];
      assert ParamTyped((x, t));
    }
  }

  /** Parameters are `int` or `float`, and named by a word. */
  lemma {:induction false} ParamListTyped(parts: seq<string>)
    ensures forall k :: 0 <= k < |ParamList(parts)| ==> ParamTyped(ParamList(parts)[k])
  {
    if parts != [] {
      ParamListTyped(parts[..|parts| - 1]);
      ParamOfTyped(parts[|parts| - 1]);
    }
  }

  /** The parameter loop: each recognised parameter is bound in the local
      scope, a later one of the same name overriding, and its type recorded. */
  method ReadParams(raw: string) returns (local: Scope, types: seq<Ty>)
    ensures local == Bind(Params(raw)) && types == Types(Params(raw))
  {
    if raw == [] {
      return map[], [];
    }
    var parts := Split(raw, ',');
    local, types := ReadParamList(parts);
  }

  method ReadParamList(parts: seq<string>) returns (local: Scope, types: seq<Ty>)
    ensures local == Bind(ParamList(parts)) && types == Types(ParamList(parts))
  {
    local := map[];
    types := [];
    var k := 0;
    while k < |parts|
      invariant k <= |parts|
      invariant local == Bind(ParamList(parts[..k])) && types == Types(ParamList(parts[..k]))
    {
      ghost var local0, types0 := local, types;
      var m := MatchParam(parts[k]);
      if m.Some? {
        local := local[m.value.1 := m.value.0];
        types := types + [m.value.0];
      }
      ParamAdvance(parts, k, local0, types0, local, types);
      k := k + 1;
    }
    assert parts[..k] == parts;
  }

  lemma {:induction false} ParamAdvance(parts: seq<string>, k: nat, local0: Scope, types0: seq<Ty>, local: Scope, types: seq<Ty>)
    requires k < |parts|
    requires local0 == Bind(ParamList(parts[..k])) && types0 == Types(ParamList(parts[..k]))
    requires MatchParam(parts[k]).None? ==> local == local0 && types == types0
    requires MatchParam(parts[k]).Some? ==>
               local == local0[MatchParam(parts[k]).value.1 := MatchParam(parts[k]).value.0] &&
               types == types0 + [MatchParam(parts[k]).value.0]
    ensures local == Bind(ParamList(parts[..k + 1])) && types == Types(ParamList(parts[..k + 1]))
  {
    var ps := ParamList(parts[..k]);
    assert parts[..k + 1][..k] == parts[..k];
    assert ParamList(parts[..k + 1]) == ps + ParamOf(parts[k]);
    if MatchParam(parts[k]).Some? {
      var q := (MatchParam(parts[k]).value.1, MatchParam(parts[k]).value.0);
      assert ParamOf(parts[k]) == [q];
      BindSnoc(ps, q);
      TypesSnoc(ps, q);
    } else {
      assert ps + ParamOf(parts[k]) == ps;
    }
  }

  lemma {:induction false} TypesSnoc(ps: seq<Param>, q: Param)
    ensures Types(ps + [q]) == Types(ps) + [q.1]
  {
  }

  // -------------------------------------------------------------- the driver

  /** Whether a line opens a function definition. */
  predicate IsHeaderLine(l: string)
  {
    MatchHeader(l, CSpace, true).Some?
  }

  /** What the analysis has gathered: the global scope, the function table, the
      errors and the warnings. */
  datatype State = State(globals: Scope, funcs: Registry, errors: seq<Diag>, warns: seq<Diag>)

  /** One top-level unit. A definition registers its signature first, then
      checks its body in a scope made of its parameters; a top-level line is a
      global declaration or nothing. */
  function ItemStep(s: State, it: Item): State
  {
    match it
    case Definition(h, body, _) =>
      (match MatchHeader(h, CSpace, true)
       case None => s
       case Some((t, name, raw)) =>
         var ps := Params(raw);
         var funcs := s.funcs[name := Sig(t, Types(ps))];
         var f := BodyRun(body, s.globals, funcs, name, Frame(Bind(ps), s.errors, s.warns));
         State(s.globals, funcs, f.errors, f.warns))
    case TopLine(l) =>
      match MatchDecl(l, CSpace, true)
      case Some((t, names)) => s.(globals := Declared(s.globals, Items(names, ','), t))
      case None => s
  }

  /** The units processed in order. */
  function RunItems(items: seq<Item>, s: State): State
  {
    if items == [] then s else RunItems(items[1..], ItemStep(s, items[0]))
  }

  /** The analysis of a sequence of trimmed, non-empty lines. */
  function Analysis(lines: seq<string>): State
  {
    RunItems(Segment(lines, IsHeaderLine), State(map[], map[], [], []))
  }

  // ------------------------------------------------------------ properties

  /** Diagnostics are only ever appended. */
  lemma {:induction false} ItemStepGrows(s: State, it: Item)
    ensures s.errors <= ItemStep(s, it).errors && s.warns <= ItemStep(s, it).warns
  {
    if it.Definition? && MatchHeader(it.header, CSpace, true).Some? {
      var (t, name, raw) := MatchHeader(it.header, CSpace, true).value;
      var ps := Params(raw);
      BodyRunGrows(it.body, s.globals, s.funcs[name := Sig(t, Types(ps))], name, Frame(Bind(ps), s.errors, s.warns));
    }
  }

  lemma {:induction false} RunItemsGrows(items: seq<Item>, s: State)
    ensures s.errors <= RunItems(items, s).errors && s.warns <= RunItems(items, s).warns
  {
    if items != [] {
      ItemStepGrows(s, items[0]);
      RunItemsGrows(items[1..], ItemStep(s, items[0]));
    }
  }

  /** The signature a unit registers: only a definition registers one. */
  function Signature(it: Item): seq<(string, Sig)>
  {
    match it
    case TopLine(_) => []
    case Definition(h, _, _) =>
      match MatchHeader(h, CSpace, true)
      case Some((t, name, raw)) => [(name, Sig(t, Types(Params(raw))))]
      case None => []
  }

  function Signatures(items: seq<Item>): seq<(string, Sig)>
  {
    if items == [] then [] else Signature(items[0]) + Signatures(items[1..])
  }

  /** The global bindings a unit makes: only a top-level declaration makes any. */
  function GlobalPairs(it: Item): seq<Param>
  {
    match it
    case Definition(_, _, _) => []
    case TopLine(l) =>
      match MatchDecl(l, CSpace, true)
      case Some((t, names)) => Pairs(Items(names, ','), t)
      case None => []
  }

  function AllGlobalPairs(items: seq<Item>): seq<Param>
  {
    if items == [] then [] else GlobalPairs(items[0]) + AllGlobalPairs(items[1..])
  }

  lemma {:induction false} ItemStepTables(s: State, it: Item)
    ensures ItemStep(s, it).funcs == s.funcs + Bind(Signature(it))
    ensures ItemStep(s, it).globals == s.globals + Bind(GlobalPairs(it))
  {
    match it
    case TopLine(l) => TopLineTables(s, l);
    case Definition(h, body, closed) => DefinitionTables(s, h, body, closed);
  }

  lemma {:induction false} TopLineTables(s: State, l: string)
    ensures ItemStep(s, TopLine(l)).funcs == s.funcs + Bind(Signature(TopLine(l)))
    ensures ItemStep(s, TopLine(l)).globals == s.globals + Bind(GlobalPairs(TopLine(l)))
  {
    EmptyUnion(s.funcs);
    EmptyUnion(s.globals);
    if MatchDecl(l, CSpace, true).Some? {
      var (t, names) := MatchDecl(l, CSpace, true).value;
      DeclaredBind(s.globals, Items(names, ','), t);
    }
  }

  lemma {:induction false} DefinitionTables(s: State, h: string, body: seq<string>, closed: bool)
    ensures ItemStep(s, Definition(h, body, closed)).funcs == s.funcs + Bind(Signature(Definition(h, body, closed)))
    ensures ItemStep(s, Definition(h, body, closed)).globals == s.globals + Bind(GlobalPairs(Definition(h, body, closed)))
  {
    EmptyUnion(s.funcs);
    EmptyUnion(s.globals);
    if MatchHeader(h, CSpace, true).Some? {
      var (t, name, raw) := MatchHeader(h, CSpace, true).value;
      var q := (name, Sig(t, Types(Params(raw))));
      BindSnoc([], q);
      assert [] + [q] == [q];
      UpdateIsUnion(s.funcs, name, q.1);
    }
  }

  /** The function table is the signatures of the definitions bound in order,
      and the global scope the names of the top-level declarations bound in
      order: function bodies never touch the globals, top-level lines never
      touch the functions. */
  lemma {:induction false} RunItemsTables(items: seq<Item>, s: State)
    ensures RunItems(items, s).funcs == s.funcs + Bind(Signatures(items))
    ensures RunItems(items, s).globals == s.globals + Bind(AllGlobalPairs(items))
  {
    if items == [] {
      EmptyUnion(s.funcs);
      EmptyUnion(s.globals);
    } else {
      var s' := ItemStep(s, items[0]);
      RunItemsTables(items[1..], s');
      ItemStepTables(s, items[0]);
      BindAppend(Signature(items[0]), Signatures(items[1..]));
      BindAppend(GlobalPairs(items[0]), AllGlobalPairs(items[1..]));
      UnionAssoc(s.funcs, Bind(Signature(items[0])), Bind(Signatures(items[1..])));
      UnionAssoc(s.globals, Bind(GlobalPairs(items[0])), Bind(AllGlobalPairs(items[1..])));
    }
  }

  /** The whole analysis: its function table binds the definitions'
      signatures in order, its global scope the top-level declarations' names. */
  lemma {:induction false} AnalysisTables(lines: seq<string>)
    ensures Analysis(lines).funcs == Bind(Signatures(Segment(lines, IsHeaderLine)))
    ensures Analysis(lines).globals == Bind(AllGlobalPairs(Segment(lines, IsHeaderLine)))
  {
    var items := Segment(lines, IsHeaderLine);
    RunItemsTables(items, State(map[], map[], [], []));
    EmptyUnion(Bind(Signatures(items)));
    EmptyUnion(Bind(AllGlobalPairs(items)));
  }

  /** A function defined several times keeps the signature of its last
      definition. */
  lemma {:induction false} LastDefinitionWins(lines: seq<string>, name: string, k: nat)
    requires var sigs := Signatures(Segment(lines, IsHeaderLine));
             k < |sigs| && sigs[k].0 == name && forall m :: k < m < |sigs| ==> sigs[m].0 != name
    ensures name in Analysis(lines).funcs
    ensures Analysis(lines).funcs[name] == Signatures(Segment(lines, IsHeaderLine))[k].1
  {
    AnalysisTables(lines);
    BindLookup(Signatures(Segment(lines, IsHeaderLine)), name);
  }

  /** Inside a body, evaluation never reports a registered function as
      undeclared. */
  lemma {:induction false} EvalKnowsRegistered(expr: string, local: Scope, global: Scope, funcs: Registry, ctx: string)
    ensures var ds := Eval(expr, local, global, funcs, ctx).1;
            forall k :: 0 <= k < |ds| && ds[k].UndeclaredFunction? ==> ds[k].name !in funcs
  {
  }

  lemma {:induction false} BodyRunKnows(body: seq<string>, globals: Scope, funcs: Registry, ctx: string, f: Frame)
    ensures var r := BodyRun(body, globals, funcs, ctx, f);
            && f.errors <= r.errors
            && forall k :: |f.errors| <= k < |r.errors| && r.errors[k].UndeclaredFunction? ==> r.errors[k].name !in funcs
  {
    if body != [] {
      var init := body[..|body| - 1];
      var g := BodyRun(init, globals, funcs, ctx, f);
      BodyRunKnows(init, globals, funcs, ctx, f);
      BodyLineKnows(body[|body| - 1], globals, funcs, ctx, g);
      assert BodyRun(body, globals, funcs, ctx, f) == BodyLine(body[|body| - 1], globals, funcs, ctx, g);
    }
  }

  /** One body line reports no registered function as undeclared. */
  lemma {:induction false} BodyLineKnows(b: string, globals: Scope, funcs: Registry, ctx: string, g: Frame)
    ensures var r := BodyLine(b, globals, funcs, ctx, g);
            && g.errors <= r.errors
            && forall k :: |g.errors| <= k < |r.errors| && r.errors[k].UndeclaredFunction? ==> r.errors[k].name !in funcs
  {
    if MatchDecl(b, CSpace, true).None? && MatchAssign(b).Some? {
      var (lhs, rhs) := MatchAssign(b).value;
      EvalKnowsRegistered(rhs, g.local, globals, funcs, ctx);
      AssignUndeclared(lhs, rhs, globals, funcs, ctx, g);
    }
  }


  /** A function is registered before its body is checked, so its body may
      call it: no call in a definition reports the function itself undeclared. */
  lemma {:induction false} RecursionResolves(s: State, h: string, body: seq<string>, closed: bool)
    requires MatchHeader(h, CSpace, true).Some?
    ensures var name := MatchHeader(h, CSpace, true).value.1;
            var r := ItemStep(s, Definition(h, body, closed));
            && s.errors <= r.errors
            && UndeclaredFunction(name, name) !in r.errors[|s.errors|..]
  {
    var (t, name, raw) := MatchHeader(h, CSpace, true).value;
    var ps := Params(raw);
    var funcs := s.funcs[name := Sig(t, Types(ps))];
    BodyRunKnows(body, s.globals, funcs, name, Frame(Bind(ps), s.errors, s.warns));
  }

  // ------------------------------------------------------- what tables hold

  /** The tables hold only what a declaration or a header can give: variables
      are `int` or `float`, functions return `int`, `float` or `void`. */
  ghost predicate Typed(s: State) {
    Scalar(s.globals) && Returns(s.funcs)
  }

  /** The scope a header seeds holds only `int` and `float`. */
  lemma {:induction false} ParamsScalar(raw: string)
    ensures Scalar(Bind(Params(raw)))
  {
    if raw != [] {
      ParamListTyped(Items(raw, ','));
    }
    BindScalar(Params(raw));
  }

  /** A body line keeps the local scope typed. */
  lemma {:induction false} BodyLineScalar(b: string, globals: Scope, funcs: Registry, ctx: string, f: Frame)
    requires Scalar(f.local)
    ensures Scalar(BodyLine(b, globals, funcs, ctx, f).local)
  {
    if MatchDecl(b, CSpace, true).Some? {
      var (t, names) := MatchDecl(b, CSpace, true).value;
      var a, g, q := MatchDeclSound(b, CSpace, true, t, names);
      DeclaredScalar(f.local, Items(names, ','), t);
    }
  }

  /** The body lines keep the local scope typed. */
  lemma {:induction false} BodyRunScalar(body: seq<string>, globals: Scope, funcs: Registry, ctx: string, f: Frame)
    requires Scalar(f.local)
    ensures Scalar(BodyRun(body, globals, funcs, ctx, f).local)
  {
    if body != [] {
      var init := body[..|body| - 1];
      BodyRunScalar(init, globals, funcs, ctx, f);
      BodyLineScalar(body[|body| - 1], globals, funcs, ctx, BodyRun(init, globals, funcs, ctx, f));
    }
  }

  /** One unit keeps the tables typed. */
  lemma {:induction false} ItemStepTyped(s: State, it: Item)
    requires Typed(s)
    ensures Typed(ItemStep(s, it))
  {
    match it
    case Definition(h, body, _) =>
      if MatchHeader(h, CSpace, true).Some? {
        var (t, name, raw) := MatchHeader(h, CSpace, true).value;
        var b, c, d, e, f := MatchHeaderSound(h, CSpace, true, t, name, raw);
      }
    case TopLine(l) =>
      if MatchDecl(l, CSpace, true).Some? {
        var (t, names) := MatchDecl(l, CSpace, true).value;
        var a, g, q := MatchDeclSound(l, CSpace, true, t, names);
        DeclaredScalar(s.globals, Items(names, ','), t);
      }
  }

  lemma {:induction false} RunItemsTyped(items: seq<Item>, s: State)
    requires Typed(s)
    ensures Typed(RunItems(items, s))
  {
    if items != [] {
      ItemStepTyped(s, items[0]);
      RunItemsTyped(items[1..], ItemStep(s, items[0]));
    }
  }

  /** Wherever the analysis checks a body line it does so in a typed state:
      before line `m` of the `k`-th unit, a definition, the globals and the
      local scope hold only `int` and `float`, and every registered function,
      its own included, returns `int`, `float` or `void`. */
  lemma {:induction false} AnalysisBodyTyped(lines: seq<string>, k: nat, m: nat, s: State,
                                             t: Ty, name: string, raw: string)
    requires var items := Segment(lines, IsHeaderLine);
             k < |items| && items[k].Definition? && m <= |items[k].body|
    requires s == RunItems(Segment(lines, IsHeaderLine)[..k], State(map[], map[], [], []))
    requires MatchHeader(Segment(lines, IsHeaderLine)[k].header, CSpace, true) == Some((t, name, raw))
    ensures var funcs := s.funcs[name := Sig(t, Types(Params(raw)))];
            var f := BodyRun(Segment(lines, IsHeaderLine)[k].body[..m], s.globals, funcs, name,
                             Frame(Bind(Params(raw)), s.errors, s.warns));
            Scalar(s.globals) && Returns(funcs) && Scalar(f.local)
  {
    var items := Segment(lines, IsHeaderLine);
    RunItemsTyped(items[..k], State(map[], map[], [], []));
    var b, c, d, e, f := MatchHeaderSound(items[k].header, CSpace, true, t, name, raw);
    ParamsScalar(raw);
    BodyRunScalar(items[k].body[..m], s.globals, s.funcs[name := Sig(t, Types(Params(raw)))], name,
                  Frame(Bind(Params(raw)), s.errors, s.warns));
  }

  /** So in every body the analysis checks, an assignment to an undeclared
      target is warned about whenever its right-hand side has a type: line `m`
      of the `k`-th unit adds exactly that warning, with the 'u' tag. */
  lemma {:induction false} AnalysisTargetWarns(lines: seq<string>, k: nat, m: nat, s: State,
                                               t: Ty, name: string, raw: string, lhs: string, rhs: string)
    requires var items := Segment(lines, IsHeaderLine);
             k < |items| && items[k].Definition? && m < |items[k].body|
    requires s == RunItems(Segment(lines, IsHeaderLine)[..k], State(map[], map[], [], []))
    requires MatchHeader(Segment(lines, IsHeaderLine)[k].header, CSpace, true) == Some((t, name, raw))
    requires var b := Segment(lines, IsHeaderLine)[k].body[m];
             MatchDecl(b, CSpace, true) == None && MatchAssign(b) == Some((lhs, rhs))
    requires var funcs := s.funcs[name := Sig(t, Types(Params(raw)))];
             var f := BodyRun(Segment(lines, IsHeaderLine)[k].body[..m], s.globals, funcs, name,
                              Frame(Bind(Params(raw)), s.errors, s.warns));
             TokenType(lhs, f.local, s.globals) == Undef && Eval(rhs, f.local, s.globals, funcs, name).0 != Undef
    ensures var funcs := s.funcs[name := Sig(t, Types(Params(raw)))];
            var body := Segment(lines, IsHeaderLine)[k].body;
            var f0 := Frame(Bind(Params(raw)), s.errors, s.warns);
            var f := BodyRun(body[..m], s.globals, funcs, name, f0);
            BodyRun(body[..m + 1], s.globals, funcs, name, f0).warns
            == f.warns + [Coercion(name, Eval(rhs, f.local, s.globals, funcs, name).0, Unknown, lhs)]
  {
    var body := Segment(lines, IsHeaderLine)[k].body;
    var funcs := s.funcs[name := Sig(t, Types(Params(raw)))];
    var f0 := Frame(Bind(Params(raw)), s.errors, s.warns);
    var f := BodyRun(body[..m], s.globals, funcs, name, f0);
    AnalysisBodyTyped(lines, k, m, s, t, name, raw);
    UndeclaredTargetWarns(lhs, rhs, s.globals, funcs, name, f);
    assert body[..m + 1][..m] == body[..m];
    assert BodyRun(body[..m + 1], s.globals, funcs, name, f0) == BodyLine(body[m], s.globals, funcs, name, f);
  }

  // ------------------------------------------------------------ the loops

  /** One line of a function body, as the inner loop handles it. */
  method CheckLine(b: string, globals: Scope, funcs: Registry, ctx: string,
                   local: Scope, errors: seq<Diag>, warns: seq<Diag>)
    returns (local': Scope, errors': seq<Diag>, warns': seq<Diag>)
    ensures Frame(local', errors', warns') == BodyLine(b, globals, funcs, ctx, Frame(local, errors, warns))
  {
    local', errors', warns' := local, errors, warns;
    var decl := MatchDecl(b, CSpace, true);
    if decl.Some? {
      var ids := Split(decl.value.1, ',');
      local' := DeclareNames(local, ids, decl.value.0);
      return;
    }
    var asg := MatchAssign(b);
    if asg.Some? {
      errors', warns' := CheckAssign(asg.value.0, asg.value.1, globals, funcs, ctx, local, errors, warns);
    }
  }

  /** An assignment line: the target's check, the right-hand side's
      evaluation, then the coercion check. */
  method CheckAssign(lhs: string, rhs: string, globals: Scope, funcs: Registry, ctx: string,
                     local: Scope, errors: seq<Diag>, warns: seq<Diag>)
    returns (errors': seq<Diag>, warns': seq<Diag>)
    ensures Frame(local, errors', warns') == Assign(lhs, rhs, globals, funcs, ctx, Frame(local, errors, warns))
  {
    var lhsT := TokenType(lhs, local, globals);
    var flagged := if lhsT == Undef then [UndeclaredVariable(ctx, lhs)] else [];
    if lhsT == Undef {
      lhsT := Unknown;
    }
    var rhsT, ds := EvalExpr(rhs, local, globals, funcs, [], ctx);
    assert ds == Eval(rhs, local, globals, funcs, ctx).1;
    errors' := errors + flagged + ds;
    warns' := warns + (if lhsT != rhsT && rhsT != Undef then [Coercion(ctx, rhsT, lhsT, lhs)] else []);
    AssignAt(lhs, rhs, globals, funcs, ctx, Frame(local, errors, warns), lhsT, (rhsT, ds));
  }

  /** `Assign` once the target's tag and the evaluation are known. */
  lemma {:induction false} AssignAt(lhs: string, rhs: string, globals: Scope, funcs: Registry, ctx: string, f: Frame,
                 lt: Ty, ev: (Ty, seq<Diag>))
    requires lt == TargetType(lhs, f.local, globals)
    requires ev == Eval(rhs, f.local, globals, funcs, ctx)
    ensures Assign(lhs, rhs, globals, funcs, ctx, f)
            == Frame(f.local,
                     f.errors + (if TokenType(lhs, f.local, globals) == Undef then [UndeclaredVariable(ctx, lhs)] else []) + ev.1,
                     f.warns + (if lt != ev.0 && ev.0 != Undef then [Coercion(ctx, ev.0, lt, lhs)] else []))
  {
  }

  /** A definition whose header is line `i`: register the function, then check
      the body lines up to the first `}` line, and go past that line. */
  method CheckDefinition(lines: seq<string>, i: nat, globals: Scope, funcs0: Registry,
                         errors0: seq<Diag>, warns0: seq<Diag>)
    returns (next: nat, funcs: Registry, errors: seq<Diag>, warns: seq<Diag>)
    requires i < |lines| && IsHeaderLine(lines[i])
    ensures next == CloseAt(lines, i + 1) + 1
    ensures State(globals, funcs, errors, warns)
            == ItemStep(State(globals, funcs0, errors0, warns0),
                        Definition(lines[i], lines[i + 1..next - 1], next - 1 < |lines|))
  {
    var (t, fname, raw) := MatchHeader(lines[i], CSpace, true).value;
    var local, types := ReadParams(raw);
    funcs := funcs0[fname := Sig(t, types)];
    var j;
    j, local, errors, warns := CheckBody(lines, i + 1, globals, funcs, fname, local, errors0, warns0);
    next := j + 1;
    assert lines[i + 1..next - 1] == lines[i + 1..j];
    DefinitionAt(State(globals, funcs0, errors0, warns0), lines[i], lines[i + 1..next - 1], next - 1 < |lines|,
                 t, fname, raw, Frame(local, errors, warns));
  }

  lemma {:induction false} DefinitionAt(s: State, h: string, body: seq<string>, closed: bool,
                     t: Ty, name: string, raw: string, f: Frame)
    requires MatchHeader(h, CSpace, true) == Some((t, name, raw))
    requires f == BodyRun(body, s.globals, s.funcs[name := Sig(t, Types(Params(raw)))], name,
                          Frame(Bind(Params(raw)), s.errors, s.warns))
    ensures ItemStep(s, Definition(h, body, closed)) == State(s.globals, s.funcs[name := Sig(t, Types(Params(raw)))], f.errors, f.warns)
  {
  }

  /** The inner loop: the lines from `lo` up to the first `}` line. */
  method CheckBody(lines: seq<string>, lo: nat, globals: Scope, funcs: Registry, fname: string,
                   local0: Scope, errors0: seq<Diag>, warns0: seq<Diag>)
    returns (j: nat, local: Scope, errors: seq<Diag>, warns: seq<Diag>)
    requires lo <= |lines|
    ensures j == CloseAt(lines, lo)
    ensures Frame(local, errors, warns) == BodyRun(lines[lo..j], globals, funcs, fname, Frame(local0, errors0, warns0))
  {
    local, errors, warns := local0, errors0, warns0;
    j := lo;
    while j < |lines| && lines[j] != "}"
      invariant lo <= j <= CloseAt(lines, lo)
      invariant Frame(local, errors, warns) == FoldFrom(lines, lo, j, LineStep(globals, funcs, fname), Frame(local0, errors0, warns0))
    {
      CloseAtPast(lines, lo, j);
      local, errors, warns := CheckBodyLine(lines, lo, j, globals, funcs, fname, local0, errors0, warns0, local, errors, warns);
      j := j + 1;
    }
    CloseAtSpec(lines, lo);
    BodyFromSlice(lines, lo, j, globals, funcs, fname, Frame(local0, errors0, warns0));
  }

  lemma {:induction false} BodyFromSlice(lines: seq<string>, lo: nat, j: nat, globals: Scope, funcs: Registry, ctx: string, f: Frame)
    requires lo <= j <= |lines|
    ensures FoldFrom(lines, lo, j, LineStep(globals, funcs, ctx), f) == BodyRun(lines[lo..j], globals, funcs, ctx, f)
  {
    FoldFromSlice(lines, lo, j, LineStep(globals, funcs, ctx), f);
  }

  /** One turn of the inner loop: line `j` extends the checked prefix by one. */
  method CheckBodyLine(lines: seq<string>, lo: nat, j: nat, globals: Scope, funcs: Registry, fname: string,
                       local0: Scope, errors0: seq<Diag>, warns0: seq<Diag>,
                       local: Scope, errors: seq<Diag>, warns: seq<Diag>)
    returns (local': Scope, errors': seq<Diag>, warns': seq<Diag>)
    requires lo <= j < |lines|
    requires Frame(local, errors, warns) == FoldFrom(lines, lo, j, LineStep(globals, funcs, fname), Frame(local0, errors0, warns0))
    ensures Frame(local', errors', warns') == FoldFrom(lines, lo, j + 1, LineStep(globals, funcs, fname), Frame(local0, errors0, warns0))
  {
    local', errors', warns' := CheckLine(lines[j], globals, funcs, fname, local, errors, warns);
  }

  /** The analysis loop over trimmed, non-empty lines: it computes `Analysis`. */
  method Analyze(lines: seq<string>) returns (globals: Scope, funcs: Registry, errors: seq<Diag>, warns: seq<Diag>)
    ensures State(globals, funcs, errors, warns) == Analysis(lines)
  {
    globals, funcs, errors, warns := map[], map[], [], [];
    var i := 0;
    assert Rest(lines, 0) == lines;
    while i < |lines|
      invariant i <= |lines| + 1
      invariant RunItems(Segment(Rest(lines, i), IsHeaderLine), State(globals, funcs, errors, warns)) == Analysis(lines)
    {
      ghost var s := State(globals, funcs, errors, warns);
      if MatchHeader(lines[i], CSpace, true).Some? {
        DefinitionNext(lines, i, s);
        i, funcs, errors, warns := CheckDefinition(lines, i, globals, funcs, errors, warns);
      } else {
        TopLineNext(lines, i, s);
        globals := CheckTopLine(lines[i], globals, funcs, errors, warns);
        i := i + 1;
      }
    }
  }

  /** A top-level line: a global declaration binds its names, anything else
      is skipped. */
  method CheckTopLine(l: string, globals: Scope, funcs: Registry, errors: seq<Diag>, warns: seq<Diag>)
    returns (globals': Scope)
    ensures State(globals', funcs, errors, warns) == ItemStep(State(globals, funcs, errors, warns), TopLine(l))
  {
    globals' := globals;
    var decl := MatchDecl(l, CSpace, true);
    if decl.Some? {
      var ids := Split(decl.value.1, ',');
      globals' := DeclareNames(globals, ids, decl.value.0);
    }
  }

  /** Past a definition, the analysis goes on after its closing line. */
  lemma {:induction false} DefinitionNext(lines: seq<string>, i: nat, s: State)
    requires i < |lines| && IsHeaderLine(lines[i])
    ensures var j := CloseAt(lines, i + 1);
      RunItems(Segment(Rest(lines, i), IsHeaderLine), s)
        == RunItems(Segment(Rest(lines, j + 1), IsHeaderLine), ItemStep(s, Definition(lines[i], lines[i + 1..j], j < |lines|)))
  {
    var j := CloseAt(lines, i + 1);
    var it := Definition(lines[i], lines[i + 1..j], j < |lines|);
    SegmentDefinitionAt(lines, i, IsHeaderLine);
    RunItemsCons(it, Segment(Rest(lines, j + 1), IsHeaderLine), s);
  }

  /** Past a top-level line, the analysis goes on with the next line. */
  lemma {:induction false} TopLineNext(lines: seq<string>, i: nat, s: State)
    requires i < |lines| && !IsHeaderLine(lines[i])
    ensures RunItems(Segment(Rest(lines, i), IsHeaderLine), s)
              == RunItems(Segment(Rest(lines, i + 1), IsHeaderLine), ItemStep(s, TopLine(lines[i])))
  {
    SegmentTopAt(lines, i, IsHeaderLine);
    assert Rest(lines, i + 1) == lines[i + 1..];
    RunItemsCons(TopLine(lines[i]), Segment(Rest(lines, i + 1), IsHeaderLine), s);
  }

  lemma {:induction false} RunItemsCons(it: Item, rest: seq<Item>, s: State)
    ensures RunItems([it] + rest, s) == RunItems(rest, ItemStep(s, it))
  {
    assert ([it] + rest)[1..] == rest;
  }
}
