/** What the evaluator of interpreter.c promises, stated over the reference
    functions of module Semantics (and so, through the method contracts of
    module Evaluator, over the running interpreter). */
module Properties {
  import opened Values
  import opened LinkedList
  import opened Environment
  import opened Primitives
  import opened Semantics

  /** A list of exactly two elements. */
  predicate TwoItems(v: Value)
  {
    v.Cons? && v.cdr.Cons? && v.cdr.cdr.Null?
  }

  lemma TwoItemsList(v: Value)
    requires TwoItems(v)
    ensures IsList(v) && ToSeq(v) == [v.car, v.cdr.car]
  {
    assert ToSeq(v.cdr.cdr) == [];
  }

  /** The tags `eval` returns unchanged. */
  predicate Literal(v: Value)
  {
    v.Int? || v.Double? || v.Bool? || v.Str?
  }

  // ----- evaluation basics -----

  /** Literals evaluate to themselves, a symbol to its binding, `quote` to
      its argument unevaluated, all without touching the store; a closure
      as the expression is the placeholder error. */
  lemma EvalBasics(fuel: nat, st: Store, e: Value, f: nat)
    requires Fits(st, f, e) && fuel > 0
    ensures Literal(e) ==> Eval(fuel, st, e, f) == Outcome(Ok(e), st)
    ensures e.Symbol? ==> Eval(fuel, st, e, f) == Outcome(Lookup(st, f, e.name), st)
    ensures e.Closure? ==> Eval(fuel, st, e, f) == Outcome(Err(UnspecifiedReference), st)
    ensures e.Cons? && e.car == Symbol("quote") && e.cdr.Cons? && e.cdr.cdr.Null? ==>
      Eval(fuel, st, e, f) == Outcome(Ok(e.cdr.car), st)
  {
  }

  lemma EvalLiteral(fuel: nat, st: Store, e: Value, f: nat)
    requires Fits(st, f, e) && fuel > 0 && Literal(e)
    ensures Eval(fuel, st, e, f) == Outcome(Ok(e), st)
  {
  }

  /** All elements of a list are literals. */
  predicate AllLiterals(args: Value)
    requires IsList(args)
  {
    forall i | 0 <= i < |ToSeq(args)| :: Literal(ToSeq(args)[i])
  }

  lemma AllLiteralsCons(args: Value)
    requires IsList(args) && args.Cons? && AllLiterals(args)
    ensures Literal(args.car) && AllLiterals(args.cdr)
    ensures ToSeq(args) == [args.car] + ToSeq(args.cdr)
  {
    assert ToSeq(args)[0] == args.car;
    forall i | 0 <= i < |ToSeq(args.cdr)|
      ensures Literal(ToSeq(args.cdr)[i])
    {
      assert ToSeq(args.cdr)[i] == ToSeq(args)[i + 1];
    }
  }

  /** Operands come out as a list in source order: a list of literals
      evaluates to itself, element by element. */
  lemma {:induction false} EachLiterals(fuel: nat, st: Store, args: Value, f: nat, done: seq<Value>)
    requires Fits(st, f, args) && fuel > 0 && IsList(args) && AllLiterals(args)
    requires forall i | 0 <= i < |done| :: Refs(done[i]) <= |st.frames|
    ensures EvalEach(fuel, st, args, f, done) == Outcome(Ok(FromSeq(done + ToSeq(args))), st)
    decreases args
  {
    if args.Null? {
      assert done + ToSeq(args) == done;
    } else {
      AllLiteralsCons(args);
      EvalLiteral(fuel, st, args.car, f);
      EachLiterals(fuel, st, args.cdr, f, done + [args.car]);
      SnocAppend(done, args.car, ToSeq(args.cdr));
    }
  }

  lemma EvalEachLiterals(fuel: nat, st: Store, args: Value, f: nat)
    requires Fits(st, f, args) && fuel > 0 && IsList(args) && AllLiterals(args)
    ensures EvalEach(fuel, st, args, f, []) == Outcome(Ok(args), st)
  {
    EachLiterals(fuel, st, args, f, []);
    assert [] + ToSeq(args) == ToSeq(args);
    FromToSeq(args);
  }

  // ----- define -----

  /** On a proper list the counting loop fails only by exceeding `max`. */
  lemma {:induction false} CountUpToList(v: Value, count: nat, max: nat)
    requires count <= max && IsList(v)
    ensures CountUpTo(v, count, max).Err? ==> CountUpTo(v, count, max).error == ArityError
    decreases v
  {
    if v.Cons? && count + 1 <= max {
      CountUpToList(v.cdr, count + 1, max);
    }
  }

  /** `define` needs exactly two arguments, the first a symbol; it
      evaluates the value in the current frame, then prepends exactly one
      binding to that frame, changes no other frame, and returns Void. */
  lemma DefineSpec(fuel: nat, st: Store, args: Value, f: nat)
    requires Fits(st, f, args)
    ensures var o := EvalDefine(fuel, st, args, f);
      IsList(args) && !TwoItems(args) ==> o == Outcome(Err(ArityError), st)
    ensures var o := EvalDefine(fuel, st, args, f);
      TwoItems(args) && !args.car.Symbol? ==> o == Outcome(Err(TypeError), st)
    ensures var o := EvalDefine(fuel, st, args, f);
      TwoItems(args) && args.car.Symbol? ==>
        var ev := Eval(fuel, st, args.cdr.car, f);
        (o.result.Ok? <==> ev.result.Ok?) &&
        (o.result.Ok? ==>
          o.result.value == Void &&
          |o.store.frames| == |ev.store.frames| &&
          o.store.frames[f] == Frame([Binding(args.car.name, |ev.store.cells|)] + ev.store.frames[f].bindings, ev.store.frames[f].parent) &&
          (forall i | 0 <= i < |ev.store.frames| && i != f :: o.store.frames[i] == ev.store.frames[i]) &&
          o.store.cells == ev.store.cells + [ev.result.value])
  {
    if IsList(args) {
      CountUpToList(args, 0, 2);
    }
    if TwoItems(args) {
      TwoItemsList(args);
    }
  }

  // ----- set! -----

  /** `set!` overwrites, in place, the value cell of the nearest binding of
      the symbol and returns Void; every frame and every other cell stays as
      the evaluation of the new value left it.  A symbol no frame of the
      chain binds is an error. */
  lemma SetBangSpec(fuel: nat, st: Store, args: Value, f: nat)
    requires Fits(st, f, args) && args.Cons? && args.car.Symbol?
    ensures Resolve(st, f, args.car.name).None? ==>
      SetBang(fuel, st, args, f) == Outcome(Err(NoSuchBinding), st)
    ensures var o := SetBang(fuel, st, args, f);
      var c := Resolve(st, f, args.car.name);
      c.Some? && args.cdr.Cons? ==>
        var ev := Eval(fuel, st, args.cdr.car, f);
        (o.result.Ok? <==> ev.result.Ok?) &&
        (o.result.Ok? ==>
          o.result.value == Void && o.store.frames == ev.store.frames &&
          o.store.cells == ev.store.cells[c.value := ev.result.value])
  {
    ResolveFirstVisible(st, f, args.car.name);
  }

  // ----- lambda -----

  /** A proper list of symbols, pairwise distinct. */
  predicate DistinctSymbols(p: Value)
  {
    IsList(p) &&
    (forall i | 0 <= i < |ToSeq(p)| :: ToSeq(p)[i].Symbol?) &&
    (forall i, j | 0 <= i < j < |ToSeq(p)| :: ToSeq(p)[i] != ToSeq(p)[j])
  }

  lemma {:induction false} DistinctFromAccepts(name: string, next: Value)
    requires IsList(next)
    requires forall i | 0 <= i < |ToSeq(next)| :: ToSeq(next)[i].Symbol? && ToSeq(next)[i] != Symbol(name)
    ensures DistinctFrom(name, next).Ok?
    decreases next
  {
    if next.Cons? {
      assert ToSeq(next)[0] == next.car;
      assert forall i | 0 <= i < |ToSeq(next.cdr)| :: ToSeq(next.cdr)[i] == ToSeq(next)[i + 1];
      DistinctFromAccepts(name, next.cdr);
    }
  }

  /** Every proper list of pairwise distinct symbols passes the parameter
      check. */
  lemma {:induction false} ParamsComplete(p: Value)
    requires DistinctSymbols(p)
    ensures Params(p).Ok?
    decreases p
  {
    if p.Cons? {
      var s := ToSeq(p);
      var t := ToSeq(p.cdr);
      assert s == [p.car] + t;
      assert p.car == s[0];
      forall i | 0 <= i < |t|
        ensures t[i].Symbol? && t[i] != Symbol(p.car.name)
      {
        assert t[i] == s[i + 1];
      }
      DistinctFromAccepts(p.car.name, p.cdr);
      forall i, j | 0 <= i < j < |t|
        ensures t[i] != t[j]
      {
        assert t[i] == s[i + 1] && t[j] == s[j + 1];
      }
      ParamsComplete(p.cdr);
    }
  }

  /** The parameter check of `lambda` accepts exactly the proper lists of
      pairwise distinct symbols. */
  lemma ParamsAccepts(p: Value)
    ensures Params(p).Ok? <==> DistinctSymbols(p)
  {
    if DistinctSymbols(p) {
      ParamsComplete(p);
    }
  }

  /** `lambda` succeeds exactly for two arguments whose first is a list of
      pairwise distinct symbols; the closure keeps those names in order,
      the body unevaluated, and the frame it was created in. */
  lemma LambdaSpec(args: Value, f: nat)
    ensures Lambda(args, f).Ok? <==> TwoItems(args) && DistinctSymbols(args.car)
    ensures var r := Lambda(args, f);
      r.Ok? ==>
        r.value.frame == f && r.value.body == args.cdr.car &&
        IsList(args.car) && |r.value.params| == |ToSeq(args.car)| &&
        forall i | 0 <= i < |r.value.params| :: ToSeq(args.car)[i] == Symbol(r.value.params[i])
  {
    if args.Cons? {
      ParamsAccepts(args.car);
    }
    if TwoItems(args) {
      TwoItemsList(args);
    }
  }

  // ----- apply -----

  /** The bindings that positional binding of `ps` to the cells numbered
      from `base` leaves in a frame, newest first. */
  function Pairing(ps: seq<string>, base: nat): (bs: seq<Binding>)
    ensures |bs| == |ps|
    ensures forall i | 0 <= i < |ps| :: bs[|ps| - 1 - i] == Binding(ps[i], base + i)
  {
    if ps == [] then [] else Pairing(ps[1..], base + 1) + [Binding(ps[0], base)]
  }

  lemma PairingStep(ps: seq<string>, base: nat, older: seq<Binding>)
    requires ps != []
    ensures Pairing(ps[1..], base + 1) + ([Binding(ps[0], base)] + older) == Pairing(ps, base) + older
  {
    assert Pairing(ps, base) == Pairing(ps[1..], base + 1) + [Binding(ps[0], base)];
  }

  /** Binding a proper argument list succeeds exactly when the counts
      agree. */
  lemma {:induction false} BindArgsCount(st: Store, fr: nat, ps: seq<string>, args: Value)
    requires Valid(st) && fr < |st.frames| && Refs(args) <= |st.frames| && IsList(args)
    ensures var b := BindArgs(st, fr, ps, args);
      (b.result.Ok? <==> |ToSeq(args)| == |ps|) &&
      (b.result.Err? ==> b.result.error == ArityError)
    decreases args
  {
    if ps != [] && !args.Null? {
      BindArgsCount(AddBinding(st, fr, ps[0], args.car), fr, ps[1..], args.cdr);
    }
  }

  lemma SnocAppend(a: seq<Value>, x: Value, t: seq<Value>)
    ensures (a + [x]) + t == a + ([x] + t)
  {
  }

  lemma {:induction false} BindArgsCells(st: Store, fr: nat, ps: seq<string>, args: Value)
    requires Valid(st) && fr < |st.frames| && Refs(args) <= |st.frames| && IsList(args)
    requires |ToSeq(args)| == |ps|
    ensures BindArgs(st, fr, ps, args).store.cells == st.cells + ToSeq(args)
    decreases args
  {
    if ps != [] {
      var st' := AddBinding(st, fr, ps[0], args.car);
      BindArgsCells(st', fr, ps[1..], args.cdr);
      assert ToSeq(args) == [args.car] + ToSeq(args.cdr);
      SnocAppend(st.cells, args.car, ToSeq(args.cdr));
    }
  }

  lemma {:induction false} BindArgsOthers(st: Store, fr: nat, ps: seq<string>, args: Value, i: nat)
    requires Valid(st) && fr < |st.frames| && Refs(args) <= |st.frames|
    requires i < |st.frames| && i != fr
    ensures BindArgs(st, fr, ps, args).store.frames[i] == st.frames[i]
    decreases args
  {
    if ps != [] && args.Cons? {
      BindArgsOthers(AddBinding(st, fr, ps[0], args.car), fr, ps[1..], args.cdr, i);
    }
  }

  lemma {:induction false} BindArgsOwn(st: Store, fr: nat, ps: seq<string>, args: Value)
    requires Valid(st) && fr < |st.frames| && Refs(args) <= |st.frames| && IsList(args)
    requires |ToSeq(args)| == |ps|
    ensures BindArgs(st, fr, ps, args).store.frames[fr] ==
      Frame(Pairing(ps, |st.cells|) + st.frames[fr].bindings, st.frames[fr].parent)
    decreases args
  {
    if ps == [] {
      assert Pairing(ps, |st.cells|) + st.frames[fr].bindings == st.frames[fr].bindings;
    } else {
      BindArgsOwn(AddBinding(st, fr, ps[0], args.car), fr, ps[1..], args.cdr);
      PairingStep(ps, |st.cells|, st.frames[fr].bindings);
    }
  }

  /** With matching counts, the i-th parameter is bound, in the given frame
      only, to a fresh cell holding the i-th argument. */
  lemma BindArgsPositional(st: Store, fr: nat, ps: seq<string>, args: Value)
    requires Valid(st) && fr < |st.frames| && Refs(args) <= |st.frames| && IsList(args)
    requires |ToSeq(args)| == |ps|
    ensures var b := BindArgs(st, fr, ps, args).store;
      |b.frames| == |st.frames| &&
      b.frames[fr] == Frame(Pairing(ps, |st.cells|) + st.frames[fr].bindings, st.frames[fr].parent) &&
      (forall i | 0 <= i < |st.frames| && i != fr :: b.frames[i] == st.frames[i]) &&
      b.cells == st.cells + ToSeq(args)
  {
    BindArgsCells(st, fr, ps, args);
    BindArgsOwn(st, fr, ps, args);
    forall i | 0 <= i < |st.frames| && i != fr
      ensures BindArgs(st, fr, ps, args).store.frames[i] == st.frames[i]
    {
      BindArgsOthers(st, fr, ps, args, i);
    }
  }

  /** Applying a closure: one new frame, whose parent is the frame the
      closure captured (not the caller's), holding the parameters bound by
      position; a count mismatch is an error.  Applying anything that is
      neither a closure nor a primitive is an error. */
  lemma ApplySpec(fuel: nat, st: Store, func: Value, args: Value)
    requires Valid(st) && Refs(func) <= |st.frames| && Refs(args) <= |st.frames| && IsList(args)
    ensures !func.Closure? && !func.Primitive? ==> Apply(fuel, st, func, args) == Outcome(Err(NotCallable), st)
    ensures func.Primitive? ==> Apply(fuel, st, func, args) == Outcome(CallPrimitive(func.prim, args), st)
    ensures func.Closure? && |ToSeq(args)| != |func.params| ==> Apply(fuel, st, func, args).result == Err(ArityError)
    ensures func.Closure? && |ToSeq(args)| == |func.params| ==>
      var entry := BindArgs(Environment.NewFrame(st, Some(func.frame)), |st.frames|, func.params, args).store;
      entry.frames == st.frames + [Frame(Pairing(func.params, |st.cells|), Some(func.frame))] &&
      entry.cells == st.cells + ToSeq(args) &&
      Apply(fuel, st, func, args) == Eval(fuel, entry, func.body, |st.frames|)
  {
    if func.Closure? {
      var st1 := Environment.NewFrame(st, Some(func.frame));
      BindArgsCount(st1, |st.frames|, func.params, args);
      if |ToSeq(args)| == |func.params| {
        BindArgsPositional(st1, |st.frames|, func.params, args);
        var b := BindArgs(st1, |st.frames|, func.params, args).store;
        assert Pairing(func.params, |st.cells|) + [] == Pairing(func.params, |st.cells|);
        assert b.frames == st.frames + [Frame(Pairing(func.params, |st.cells|), Some(func.frame))];
      }
    }
  }

  // ----- let, let*, letrec, begin and bodies -----

  lemma {:induction false} LetLoopEmptyBody(fuel: nat, st: Store, pairs: Value, e: nat, fr: nat)
    requires Fits(st, e, pairs) && fr < |st.frames|
    ensures LetLoop(fuel, st, pairs, e, fr, Null).result.Err?
    decreases pairs
  {
    if !pairs.Null? {
      var p := BindingPair(pairs);
      if p.Ok? && FindFrom(st.frames[fr].bindings, p.value.0, 0).None? {
        var o := Eval(fuel, st, p.value.1, e);
        if o.result.Ok? {
          LetLoopEmptyBody(fuel, AddBinding(o.store, fr, p.value.0, o.result.value), pairs.cdr, e, fr);
        }
      }
    }
  }

  lemma {:induction false} LetStarLoopEmptyBody(fuel: nat, st: Store, pairs: Value, parent: nat)
    requires Fits(st, parent, pairs)
    ensures LetStarLoop(fuel, st, pairs, parent, Null).result.Err?
    decreases pairs
  {
    if !pairs.Null? {
      var p := BindingPair(pairs);
      if p.Ok? {
        var st1 := Environment.NewFrame(st, Some(parent));
        var o := Eval(fuel, st1, p.value.1, parent);
        if o.result.Ok? {
          LetStarLoopEmptyBody(fuel, AddBinding(o.store, |st.frames|, p.value.0, o.result.value), pairs.cdr, |st.frames|);
        }
      }
    }
  }

  lemma {:induction false} LetrecEvalEmptyBody(fuel: nat, st: Store, pending: seq<Binding>, env: nat, done: seq<Binding>)
    requires Valid(st) && env < |st.frames|
    requires forall k | 0 <= k < |pending| :: pending[k].cell < |st.cells|
    requires forall k | 0 <= k < |done| :: done[k].cell < |st.cells|
    ensures LetrecEval(fuel, st, pending, env, done, Null).result.Err?
    decreases |pending|
  {
    if pending != [] {
      var placeholder := st.cells[pending[0].cell];
      if placeholder.Unspecified? {
        var o := Eval(fuel, st, placeholder.expr, env);
        if o.result.Ok? && !o.result.value.Unspecified? {
          LetrecEvalEmptyBody(fuel, NewCell(o.store, o.result.value), pending[1..], env,
                              [Binding(pending[0].name, |o.store.cells|)] + done);
        }
      }
    }
  }

  lemma {:induction false} LetrecInitEmptyBody(fuel: nat, st: Store, pairs: Value, env: nat)
    requires Fits(st, env, pairs)
    ensures LetrecInit(fuel, st, pairs, env, Null).result.Err?
    decreases pairs
  {
    if pairs.Null? {
      LetrecEvalEmptyBody(fuel, st, st.frames[env].bindings, env, []);
    } else {
      var p := BindingPair(pairs);
      if p.Ok? && FindFrom(st.frames[env].bindings, p.value.0, 0).None? {
        LetrecInitEmptyBody(fuel, AddBinding(st, env, p.value.0, Unspecified(p.value.1)), pairs.cdr, env);
      }
    }
  }

  /** `let`, `let*` and `letrec` never succeed without a body; `begin`
      without expressions is Void. */
  lemma EmptyBodyRejected(fuel: nat, st: Store, bindings: Value, f: nat)
    requires Fits(st, f, bindings)
    ensures EvalLet(fuel, st, Cons(bindings, Null), f).result.Err?
    ensures EvalLetStar(fuel, st, Cons(bindings, Null), f).result.Err?
    ensures EvalLetrec(fuel, st, Cons(bindings, Null), f).result.Err?
    ensures EvalBegin(fuel, st, Null, f) == Outcome(Ok(Void), st)
  {
    var st1 := Environment.NewFrame(st, Some(f));
    LetLoopEmptyBody(fuel, st1, bindings, f, |st.frames|);
    LetStarLoopEmptyBody(fuel, st, bindings, f);
    LetrecInitEmptyBody(fuel, st1, bindings, |st.frames|);
  }

  /** Resolution from frame `f` only depends on `f` and its ancestors,
      which all have smaller indices. */
  lemma {:induction false} ResolveLocal(st: Store, st': Store, f: nat, name: string)
    requires Valid(st) && Valid(st') && f < |st.frames| <= |st'.frames|
    requires forall i | 0 <= i <= f :: st'.frames[i] == st.frames[i]
    ensures Resolve(st', f, name) == Resolve(st, f, name)
    decreases f
  {
    if st.frames[f].parent.Some? {
      ResolveLocal(st, st', st.frames[f].parent.value, name);
    }
  }

  /** `let` evaluates its initializers in the outer frame: a binding added
      to the new frame is invisible from there. */
  lemma LetHidesNewBindings(st: Store, e: nat, fr: nat, name: string, v: Value, x: string)
    requires Valid(st) && e < fr < |st.frames| && Refs(v) <= |st.frames|
    ensures Lookup(AddBinding(st, fr, name, v), e, x) == Lookup(st, e, x)
  {
    ResolveLocal(st, AddBinding(st, fr, name, v), e, x);
  }

  /** The binding just added to a frame is the first one found there. */
  lemma NewestFirst(st: Store, fr: nat, name: string, v: Value)
    requires Valid(st) && fr < |st.frames| && Refs(v) <= |st.frames|
    ensures FindFrom(AddBinding(st, fr, name, v).frames[fr].bindings, name, 0) == Some(0)
    ensures Lookup(AddBinding(st, fr, name, v), fr, name) == Ok(v)
  {
    var st2 := AddBinding(st, fr, name, v);
    assert st2.frames[fr].bindings[0] == Binding(name, |st.cells|);
  }

  lemma LetLoopStep(fuel: nat, st: Store, pairs: Value, e: nat, fr: nat, body: Value)
    requires Fits(st, e, pairs) && fr < |st.frames| && Refs(body) <= |st.frames|
    requires pairs.Cons? && BindingPair(pairs).Ok? && FindFrom(st.frames[fr].bindings, BindingPair(pairs).value.0, 0).None?
    ensures var p := BindingPair(pairs).value;
      var o := Eval(fuel, st, p.1, e);
      o.result.Ok? ==>
        LetLoop(fuel, st, pairs, e, fr, body) == LetLoop(fuel, AddBinding(o.store, fr, p.0, o.result.value), pairs.cdr, e, fr, body)
  {
  }

  /** One step of `let`: the initializer is evaluated in the outer frame
      `e`, its value bound in the new frame `fr`, and the next initializer
      still cannot see it. */
  lemma LetStep(fuel: nat, st: Store, pairs: Value, e: nat, fr: nat, body: Value, x: string)
    requires Fits(st, e, pairs) && e < fr < |st.frames| && Refs(body) <= |st.frames|
    requires pairs.Cons? && BindingPair(pairs).Ok? && FindFrom(st.frames[fr].bindings, BindingPair(pairs).value.0, 0).None?
    ensures var p := BindingPair(pairs).value;
      var o := Eval(fuel, st, p.1, e);
      o.result.Ok? ==>
        var st2 := AddBinding(o.store, fr, p.0, o.result.value);
        LetLoop(fuel, st, pairs, e, fr, body) == LetLoop(fuel, st2, pairs.cdr, e, fr, body) &&
        Lookup(st2, e, x) == Lookup(o.store, e, x) &&
        Lookup(st2, fr, p.0) == Ok(o.result.value)
  {
    LetLoopStep(fuel, st, pairs, e, fr, body);
    var p := BindingPair(pairs).value;
    var o := Eval(fuel, st, p.1, e);
    if o.result.Ok? {
      LetHidesNewBindings(o.store, e, fr, p.0, o.result.value, x);
      NewestFirst(o.store, fr, p.0, o.result.value);
    }
  }

  lemma LetStarLoopStep(fuel: nat, st: Store, pairs: Value, parent: nat, body: Value)
    requires Fits(st, parent, pairs) && Refs(body) <= |st.frames|
    requires pairs.Cons? && BindingPair(pairs).Ok?
    ensures var p := BindingPair(pairs).value;
      var o := Eval(fuel, Environment.NewFrame(st, Some(parent)), p.1, parent);
      o.result.Ok? ==>
        LetStarLoop(fuel, st, pairs, parent, body) ==
          LetStarLoop(fuel, AddBinding(o.store, |st.frames|, p.0, o.result.value), pairs.cdr, |st.frames|, body)
  {
  }

  /** One step of `let*`: a fresh frame is chained onto the previous one,
      the initializer is evaluated in the previous frame, and the rest of
      the bindings are evaluated in the new frame, which binds the symbol. */
  lemma LetStarStep(fuel: nat, st: Store, pairs: Value, parent: nat, body: Value)
    requires Fits(st, parent, pairs) && Refs(body) <= |st.frames|
    requires pairs.Cons? && BindingPair(pairs).Ok?
    ensures var p := BindingPair(pairs).value;
      var o := Eval(fuel, Environment.NewFrame(st, Some(parent)), p.1, parent);
      o.result.Ok? ==>
        var st2 := AddBinding(o.store, |st.frames|, p.0, o.result.value);
        LetStarLoop(fuel, st, pairs, parent, body) == LetStarLoop(fuel, st2, pairs.cdr, |st.frames|, body) &&
        st2.frames[|st.frames|].parent == Some(parent) &&
        Lookup(st2, |st.frames|, p.0) == Ok(o.result.value)
  {
    LetStarLoopStep(fuel, st, pairs, parent, body);
    var p := BindingPair(pairs).value;
    var o := Eval(fuel, Environment.NewFrame(st, Some(parent)), p.1, parent);
    if o.result.Ok? {
      NewestFirst(o.store, |st.frames|, p.0, o.result.value);
    }
  }

  /** `letrec` with one binding, after phase one: the new frame holds a
      single binding of the symbol to a fresh placeholder cell. */
  function LetrecPrebound(st: Store, f: nat, x: string, init: Value): (st2: Store)
    requires Valid(st) && f < |st.frames| && Refs(init) <= |st.frames|
    ensures Valid(st2) && |st2.frames| == |st.frames| + 1
    ensures st2.frames[|st.frames|] == Frame([Binding(x, |st.cells|)], Some(f))
    ensures st2.cells == st.cells + [Unspecified(init)]
  {
    AddBinding(Environment.NewFrame(st, Some(f)), |st.frames|, x, Unspecified(init))
  }

  lemma LetrecOneBinding(fuel: nat, st: Store, x: string, init: Value, body: Value, f: nat)
    requires Fits(st, f, Cons(Cons(Cons(Symbol(x), Cons(init, Null)), Null), body)) && !init.Null?
    ensures EvalLetrec(fuel, st, Cons(Cons(Cons(Symbol(x), Cons(init, Null)), Null), body), f) ==
      LetrecEval(fuel, LetrecPrebound(st, f, x, init), [Binding(x, |st.cells|)], |st.frames|, [], body)
  {
    var pairs := Cons(Cons(Symbol(x), Cons(init, Null)), Null);
    var env := |st.frames|;
    var st1 := Environment.NewFrame(st, Some(f));
    assert BindingPair(pairs) == Ok((x, init));
    assert st1.frames[env].bindings == [];
    var st2 := AddBinding(st1, env, x, Unspecified(init));
    assert st2 == LetrecPrebound(st, f, x, init);
    assert LetrecInit(fuel, st1, pairs, env, body) == LetrecInit(fuel, st2, Null, env, body);
    assert st2.frames[env].bindings == [Binding(x, |st.cells|)];
  }

  /** Phase two of `letrec` stops with an error when an initializer yields
      a placeholder. */
  lemma LetrecPlaceholderValue(fuel: nat, st: Store, pending: seq<Binding>, env: nat, done: seq<Binding>, body: Value)
    requires Valid(st) && env < |st.frames| && Refs(body) <= |st.frames|
    requires forall k | 0 <= k < |pending| :: pending[k].cell < |st.cells|
    requires forall k | 0 <= k < |done| :: done[k].cell < |st.cells|
    requires pending != [] && st.cells[pending[0].cell].Unspecified?
    requires var o := Eval(fuel, st, st.cells[pending[0].cell].expr, env);
      o.result.Ok? && o.result.value.Unspecified?
    ensures LetrecEval(fuel, st, pending, env, done, body).result == Err(UnspecifiedReference)
  {
  }

  /** `letrec` binds placeholders first, so an initializer that is the
      symbol itself yields the placeholder, which is an error. */
  lemma LetrecSelfReference(fuel: nat, st: Store, x: string, body: Value, f: nat)
    requires Fits(st, f, body) && fuel > 0
    ensures EvalLetrec(fuel, st, Cons(Cons(Cons(Symbol(x), Cons(Symbol(x), Null)), Null), body), f).result
      == Err(UnspecifiedReference)
  {
    LetrecOneBinding(fuel, st, x, Symbol(x), body, f);
    var st2 := LetrecPrebound(st, f, x, Symbol(x));
    var env := |st.frames|;
    assert FindFrom(st2.frames[env].bindings, x, 0) == Some(0);
    assert Resolve(st2, env, x) == Some(|st.cells|);
    assert st2.cells[|st.cells|] == Unspecified(Symbol(x));
    assert Lookup(st2, env, x) == Ok(Unspecified(Symbol(x)));
    assert Eval(fuel, st2, Symbol(x), env).result == Ok(Unspecified(Symbol(x)));
    LetrecPlaceholderValue(fuel, st2, [Binding(x, |st.cells|)], env, [], body);
  }

  lemma LetrecEvalStep(fuel: nat, st: Store, pending: seq<Binding>, env: nat, done: seq<Binding>, body: Value)
    requires Valid(st) && env < |st.frames| && Refs(body) <= |st.frames|
    requires forall k | 0 <= k < |pending| :: pending[k].cell < |st.cells|
    requires forall k | 0 <= k < |done| :: done[k].cell < |st.cells|
    requires pending != [] && st.cells[pending[0].cell].Unspecified?
    ensures var o := Eval(fuel, st, st.cells[pending[0].cell].expr, env);
      o.result.Ok? && !o.result.value.Unspecified? ==>
        LetrecEval(fuel, st, pending, env, done, body) ==
          LetrecEval(fuel, NewCell(o.store, o.result.value), pending[1..], env, [Binding(pending[0].name, |o.store.cells|)] + done, body)
  {
  }

  /** `letrec` with one binding whose initializer yields a value: the body
      runs in the frame whose bindings were replaced by a single fresh
      binding holding that value (see SoleBinding for what it then sees). */
  lemma LetrecSingle(fuel: nat, st: Store, x: string, init: Value, body: Value, f: nat)
    requires Fits(st, f, Cons(Cons(Cons(Symbol(x), Cons(init, Null)), Null), body)) && !init.Null?
    ensures var env := |st.frames|;
      var o := Eval(fuel, LetrecPrebound(st, f, x, init), init, env);
      o.result.Ok? && !o.result.value.Unspecified? ==>
        EvalLetrec(fuel, st, Cons(Cons(Cons(Symbol(x), Cons(init, Null)), Null), body), f) ==
          EvalBody(fuel, SetBindings(NewCell(o.store, o.result.value), env, [Binding(x, |o.store.cells|)]), body, env)
  {
    LetrecOneBinding(fuel, st, x, init, body, f);
    var env := |st.frames|;
    var st2 := LetrecPrebound(st, f, x, init);
    assert st2.cells[|st.cells|] == Unspecified(init);
    LetrecEvalStep(fuel, st2, [Binding(x, |st.cells|)], env, [], body);
    var o := Eval(fuel, st2, init, env);
    if o.result.Ok? && !o.result.value.Unspecified? {
      var bs := [Binding(x, |o.store.cells|)];
      assert [Binding(x, |st.cells|)][1..] == [] && bs + [] == bs;
      LetrecEvalDone(fuel, NewCell(o.store, o.result.value), env, bs, body);
    }
  }

  lemma LetrecEvalDone(fuel: nat, st: Store, env: nat, done: seq<Binding>, body: Value)
    requires Valid(st) && env < |st.frames| && Refs(body) <= |st.frames|
    requires forall k | 0 <= k < |done| :: done[k].cell < |st.cells|
    ensures LetrecEval(fuel, st, [], env, done, body) == EvalBody(fuel, SetBindings(st, env, done), body, env)
  {
  }

  /** A frame whose bindings were replaced by a single one (the end of
      `letrec` with one binding) binds exactly that symbol, to that cell;
      every other symbol is looked up in the parent, as if the placeholders
      had never been there. */
  lemma SoleBinding(st: Store, env: nat, x: string, c: nat, y: string)
    requires Valid(st) && env < |st.frames| && c < |st.cells|
    ensures SetBindings(st, env, [Binding(x, c)]).frames[env].bindings == [Binding(x, c)]
    ensures Lookup(SetBindings(st, env, [Binding(x, c)]), env, x) == Ok(st.cells[c])
    ensures y != x && st.frames[env].parent.Some? ==>
      Lookup(SetBindings(st, env, [Binding(x, c)]), env, y) == Lookup(st, st.frames[env].parent.value, y)
  {
    var st3 := SetBindings(st, env, [Binding(x, c)]);
    assert FindFrom(st3.frames[env].bindings, x, 0) == Some(0);
    if y != x && st.frames[env].parent.Some? {
      assert FindFrom(st3.frames[env].bindings, y, 0) == None;
      ResolveLocal(st, st3, st.frames[env].parent.value, y);
    }
  }

  /** A body loop stops before an empty-list item: what follows is never
      evaluated, and the value is that of the item before it. */
  lemma BodyStopsAtEmpty(fuel: nat, st: Store, a: Value, rest: Value, fr: nat)
    requires Fits(st, fr, Cons(a, Cons(Null, rest)))
    ensures BodyLoop(fuel, st, Cons(a, Cons(Null, rest)), fr) == Eval(fuel, st, a, fr)
  {
  }

  /** `let` rejects a symbol bound twice in one binding list. */
  lemma LetRejectsRepeat(fuel: nat, st: Store, x: string, a: Value, b: Value, rest: Value, body: Value, f: nat)
    requires Fits(st, f, Cons(Cons(Cons(Symbol(x), Cons(a, Null)), Cons(Cons(Symbol(x), Cons(b, Null)), rest)), body))
    requires !a.Null? && !b.Null?
    requires Eval(fuel, Environment.NewFrame(st, Some(f)), a, f).result.Ok?
    ensures EvalLet(fuel, st, Cons(Cons(Cons(Symbol(x), Cons(a, Null)), Cons(Cons(Symbol(x), Cons(b, Null)), rest)), body), f).result
      == Err(DuplicateBinding)
  {
    var st1 := Environment.NewFrame(st, Some(f));
    var fr := |st.frames|;
    var first := Cons(Cons(Symbol(x), Cons(a, Null)), Cons(Cons(Symbol(x), Cons(b, Null)), rest));
    var second := Cons(Cons(Symbol(x), Cons(b, Null)), rest);
    assert BindingPair(first) == Ok((x, a));
    assert FindFrom(st1.frames[fr].bindings, x, 0).None?;
    assert EvalLet(fuel, st, Cons(first, body), f) == LetLoop(fuel, st1, first, f, fr, body);
    LetLoopStep(fuel, st1, first, f, fr, body);
    var o := Eval(fuel, st1, a, f);
    NewestFirst(o.store, fr, x, o.result.value);
    LetLoopDuplicate(fuel, AddBinding(o.store, fr, x, o.result.value), second, f, fr, body);
  }

  lemma LetLoopDuplicate(fuel: nat, st: Store, pairs: Value, e: nat, fr: nat, body: Value)
    requires Fits(st, e, pairs) && fr < |st.frames| && Refs(body) <= |st.frames|
    requires pairs.Cons? && BindingPair(pairs).Ok? && FindFrom(st.frames[fr].bindings, BindingPair(pairs).value.0, 0).Some?
    ensures LetLoop(fuel, st, pairs, e, fr, body) == Outcome(Err(DuplicateBinding), st)
  {
  }

  // ----- truth tests -----

  lemma {:induction false} HasItemsCount(c: Value, k: nat)
    requires IsList(c)
    ensures HasItems(c, k).Ok? <==> |ToSeq(c)| >= k
    ensures HasItems(c, k).Err? ==> HasItems(c, k).error == ArityError
    decreases k
  {
    if k > 0 && c.Cons? {
      HasItemsCount(c.cdr, k - 1);
    }
  }

  /** `if` needs three arguments; the consequent is taken only when the
      test yields the boolean true — any other boolean, and any string or
      symbol whose text is not "#t", selects the alternative, and a test
      without text is undefined behaviour. */
  lemma IfSpec(fuel: nat, st: Store, args: Value, f: nat)
    requires Fits(st, f, args)
    ensures IsList(args) && |ToSeq(args)| < 3 ==> EvalIf(fuel, st, args, f) == Outcome(Err(ArityError), st)
    ensures args.Cons? && args.cdr.Cons? && args.cdr.cdr.Cons? ==>
      var t := Eval(fuel, st, args.car, f);
      var o := EvalIf(fuel, st, args, f);
      (t.result.Err? ==> o == t) &&
      (t.result.Ok? && t.result.value.Bool? ==>
        o == Eval(fuel, t.store, if t.result.value.b then args.cdr.car else args.cdr.cdr.car, f)) &&
      (t.result.Ok? && (t.result.value.Symbol? || t.result.value.Str?) ==>
        o == Eval(fuel, t.store, if KeyText(t.result.value) == Some("#t") then args.cdr.car else args.cdr.cdr.car, f)) &&
      (t.result.Ok? && KeyText(t.result.value).None? ==> o == Outcome(Err(Undefined), t.store))
  {
    if IsList(args) {
      HasItemsCount(args, 3);
    }
  }

  /** `and` returns the boolean token, never the last value: over literal
      arguments it is false exactly when one of them is the boolean false. */
  lemma {:induction false} AndLiterals(fuel: nat, st: Store, args: Value, f: nat)
    requires Fits(st, f, args) && fuel > 0 && IsList(args) && AllLiterals(args)
    ensures EvalAnd(fuel, st, args, f) == Outcome(Ok(Bool(Bool(false) !in ToSeq(args))), st)
    decreases args
  {
    if args.Cons? {
      AllLiteralsCons(args);
      EvalLiteral(fuel, st, args.car, f);
      AndLiterals(fuel, st, args.cdr, f);
    }
  }

  /** `or` counts only the boolean true: over literal arguments it is true
      exactly when one of them is the boolean true. */
  lemma {:induction false} OrLiterals(fuel: nat, st: Store, args: Value, f: nat)
    requires Fits(st, f, args) && fuel > 0 && IsList(args) && AllLiterals(args)
    ensures EvalOr(fuel, st, args, f) == Outcome(Ok(Bool(Bool(true) in ToSeq(args))), st)
    decreases args
  {
    if args.Cons? {
      AllLiteralsCons(args);
      EvalLiteral(fuel, st, args.car, f);
      OrLiterals(fuel, st, args.cdr, f);
    }
  }

  /** `and` and `or` stop at the first deciding argument: the rest is not
      evaluated. */
  lemma ShortCircuit(fuel: nat, st: Store, a: Value, rest: Value, f: nat)
    requires Fits(st, f, Cons(a, rest)) && !a.Null?
    ensures var ev := Eval(fuel, st, a, f);
      ev.result == Ok(Bool(false)) ==> EvalAnd(fuel, st, Cons(a, rest), f) == Outcome(Ok(Bool(false)), ev.store)
    ensures var ev := Eval(fuel, st, a, f);
      ev.result == Ok(Bool(true)) ==> EvalOr(fuel, st, Cons(a, rest), f) == Outcome(Ok(Bool(true)), ev.store)
  {
  }

  /** `cond` picks the first clause whose test is the symbol `else` or
      evaluates to the boolean true, and evaluates its expression in the
      store the test left; an error in a test stops it; any other value of
      the test passes on to the next clause; no clauses yield Void. */
  lemma CondSpec(fuel: nat, st: Store, test: Value, expr: Value, more: Value, rest: Value, f: nat)
    requires Fits(st, f, Cons(Cons(test, Cons(expr, more)), rest))
    ensures EvalCond(fuel, st, Null, f) == Outcome(Ok(Void), st)
    ensures test == Symbol("else") ==>
      EvalCond(fuel, st, Cons(Cons(test, Cons(expr, more)), rest), f) == Eval(fuel, st, expr, f)
    ensures test != Symbol("else") ==>
      var t := Eval(fuel, st, test, f);
      var o := EvalCond(fuel, st, Cons(Cons(test, Cons(expr, more)), rest), f);
      (t.result.Err? ==> o == t) &&
      (t.result == Ok(Bool(true)) ==> o == Eval(fuel, t.store, expr, f)) &&
      (t.result.Ok? && t.result.value != Bool(true) ==> o == EvalCond(fuel, t.store, rest, f))
  {
  }

  /** `cond` with literal tests: an `else` clause or a test that is the
      boolean true selects its expression; any other literal test, however
      "truthy", passes on to the next clause without touching the store. */
  lemma CondLiteralTests(fuel: nat, st: Store, test: Value, expr: Value, more: Value, rest: Value, f: nat)
    requires Fits(st, f, Cons(Cons(test, Cons(expr, more)), rest)) && fuel > 0
    requires Literal(test) || test == Symbol("else")
    ensures test == Symbol("else") || test == Bool(true) ==>
      EvalCond(fuel, st, Cons(Cons(test, Cons(expr, more)), rest), f) == Eval(fuel, st, expr, f)
    ensures Literal(test) && test != Bool(true) ==>
      EvalCond(fuel, st, Cons(Cons(test, Cons(expr, more)), rest), f) == EvalCond(fuel, st, rest, f)
  {
  }

  // ----- the global frame -----

  /** Every primitive name resolves, in the global frame, to its primitive. */
  lemma GlobalBindings(i: nat)
    requires i < |Builtins|
    ensures Lookup(GlobalStore(), 0, Builtins[i].0) == Ok(Primitive(Builtins[i].1))
  {
    var st := GlobalStore();
    var bs := st.frames[0].bindings;
    var name := Builtins[i].0;
    var k := |Builtins| - 1 - i;
    assert bs[k] == Binding(name, i);
    forall m | 0 <= m < k
      ensures bs[m].name != name
    {
      assert bs[m] == Binding(Builtins[|Builtins| - 1 - m].0, |Builtins| - 1 - m);
    }
    assert Visible(st, 0) == bs + [];
    assert bs + [] == bs;
    FindFromAt(bs, name, 0, k);
    ResolveFirstVisible(st, 0, name);
  }
}
