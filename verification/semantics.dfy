/** The evaluator of interpreter.c as reference functions over an explicit
    store.  Each function mirrors one C function (or one of its loops): it
    takes the store before the step and yields an `Outcome` — the value or
    the error the C code stops with, and the store afterwards.

    Every nested call of `Eval` consumes one unit of `fuel`; running out
    yields `Err(OutOfFuel)` where the source would recurse further.  The
    other components of each `decreases` clause order the functions that
    call one another with the same fuel. */
module Semantics {
  import opened Values
  import opened LinkedList
  import opened Environment
  import opened Primitives

  datatype Outcome = Outcome(result: Result<Value>, store: Store)

  /** `e` may be evaluated in frame `f` of `st`. */
  predicate Fits(st: Store, f: nat, e: Value)
  {
    Valid(st) && f < |st.frames| && Refs(e) <= |st.frames|
  }

  /** An evaluation step keeps the store well formed, never frees or
      re-parents anything, and returns a value that refers to existing
      frames only. */
  predicate Sound(st: Store, o: Outcome)
  {
    Valid(o.store) && Grows(st, o.store) &&
    (o.result.Ok? ==> Refs(o.result.value) <= |o.store.frames|)
  }

  lemma {:induction false} RefsFromSeq(s: seq<Value>, n: nat)
    requires forall i | 0 <= i < |s| :: Refs(s[i]) <= n
    ensures Refs(FromSeq(s)) <= n
  {
    if s != [] {
      RefsFromSeq(s[1..], n);
    }
  }

  // ----- eval -----

  /** `eval(tree, frame)`: literals evaluate to themselves, a symbol to its
      binding, a pair to a special form or an application.  A closure or a
      `letrec` placeholder as the tree is an error (the closure case of the
      source falls through into the placeholder case); any other tag is
      undefined behaviour. */
  function Eval(fuel: nat, st: Store, e: Value, f: nat): (o: Outcome)
    requires Fits(st, f, e)
    ensures Sound(st, o)
    decreases fuel, 0, 0
  {
    if fuel == 0 then Outcome(Err(OutOfFuel), st)
    else
      match e
      case Int(_) => Outcome(Ok(e), st)
      case Double(_) => Outcome(Ok(e), st)
      case Bool(_) => Outcome(Ok(e), st)
      case Str(_) => Outcome(Ok(e), st)
      case Symbol(name) => Outcome(Lookup(st, f, name), st)
      case Closure(_, _, _) => Outcome(Err(UnspecifiedReference), st)
      case Unspecified(_) => Outcome(Err(UnspecifiedReference), st)
      case Cons(first, args) => EvalForm(fuel - 1, st, first, args, f)
      case _ => Outcome(Err(Undefined), st)
  }

  /** The pair case of `eval`: the operator's text selects a special form
      in the source's order, anything else is an application. */
  function EvalForm(fuel: nat, st: Store, first: Value, args: Value, f: nat): (o: Outcome)
    requires Fits(st, f, Cons(first, args))
    ensures Sound(st, o)
    decreases fuel, 6, 0
  {
    if first.Null? then Outcome(Err(NullOperator), st)
    else
      match KeyText(first)
      case None => Outcome(Err(Undefined), st)
      case Some(k) =>
        if k == "if" then EvalIf(fuel, st, args, f)
        else if k == "let" then EvalLet(fuel, st, args, f)
        else if k == "quote" then Outcome(Quote(args), st)
        else if k == "define" then EvalDefine(fuel, st, args, f)
        else if k == "lambda" then Outcome(Lambda(args, f), st)
        else if k == "let*" then EvalLetStar(fuel, st, args, f)
        else if k == "letrec" then EvalLetrec(fuel, st, args, f)
        else if k == "set!" then SetBang(fuel, st, args, f)
        else if k == "begin" then EvalBegin(fuel, st, args, f)
        else if k == "and" then EvalAnd(fuel, st, args, f)
        else if k == "or" then EvalOr(fuel, st, args, f)
        else if k == "cond" then EvalCond(fuel, st, args, f)
        else EvalCall(fuel, st, first, args, f)
  }

  // ----- quote, define, lambda -----

  /** `quote`: exactly one argument, returned unevaluated. */
  function Quote(args: Value): (r: Result<Value>)
    ensures r.Ok? <==> args.Cons? && args.cdr.Null?
    ensures r.Ok? ==> r.value == args.car && Refs(r.value) <= Refs(args)
    ensures r.Err? && args.Null? ==> r.error == ArityError
  {
    if args.Null? then Err(ArityError)
    else if !args.Cons? then Err(AssertionFailure)
    else if !args.cdr.Null? then Err(ArityError)
    else Ok(args.car)
  }

  /** The argument-counting loop of `define` and `lambda`: walks the list,
      failing as soon as the count exceeds `max`. */
  function CountUpTo(v: Value, count: nat, max: nat): (r: Result<nat>)
    requires count <= max
    ensures r.Ok? ==> IsList(v) && r.value == count + |ToSeq(v)| && r.value <= max
    ensures IsList(v) ==> (r.Ok? <==> count + |ToSeq(v)| <= max)
    ensures r.Ok? && r.value == count ==> v.Null?
    ensures r.Ok? && r.value == count + 1 ==> v.Cons? && v.cdr.Null?
    ensures r.Ok? && r.value == count + 2 ==> v.Cons? && v.cdr.Cons? && v.cdr.cdr.Null?
    decreases v
  {
    if v.Null? then Ok(count)
    else if count + 1 > max then Err(ArityError)
    else if !v.Cons? then Err(AssertionFailure)
    else CountUpTo(v.cdr, count + 1, max)
  }

  /** `define`: exactly two arguments, the first a symbol; the value is
      evaluated in `f` and a new binding is prepended to `f`. */
  function EvalDefine(fuel: nat, st: Store, args: Value, f: nat): (o: Outcome)
    requires Fits(st, f, args)
    ensures Sound(st, o)
    decreases fuel, 5, 0
  {
    match CountUpTo(args, 0, 2)
    case Err(err) => Outcome(Err(err), st)
    case Ok(n) =>
      if n < 2 then Outcome(Err(ArityError), st)
      else if !args.car.Symbol? then Outcome(Err(TypeError), st)
      else
        var o := Eval(fuel, st, args.cdr.car, f);
        if o.result.Err? then o
        else Outcome(Ok(Void), AddBinding(o.store, f, args.car.name, o.result.value))
  }

  /** The inner parameter loop of `lambda`: no later element has the text
      `name`. */
  function DistinctFrom(name: string, next: Value): (r: Result<()>)
    ensures r.Ok? ==> IsList(next) && forall i | 0 <= i < |ToSeq(next)| :: KeyText(ToSeq(next)[i]) != Some(name)
    decreases next
  {
    if next.Null? then Ok(())
    else if !next.Cons? then Err(AssertionFailure)
    else
      match KeyText(next.car)
      case None => Err(Undefined)
      case Some(t) => if t == name then Err(DuplicateBinding) else DistinctFrom(name, next.cdr)
  }

  /** The outer parameter loop of `lambda`: a proper list of pairwise
      distinct symbols, returned as their names. */
  function Params(curr: Value): (r: Result<seq<string>>)
    ensures r.Ok? ==> IsList(curr) && |r.value| == |ToSeq(curr)|
    ensures r.Ok? ==> forall i | 0 <= i < |r.value| :: ToSeq(curr)[i] == Symbol(r.value[i])
    ensures r.Ok? ==> forall i, j | 0 <= i < j < |r.value| :: r.value[i] != r.value[j]
    decreases curr
  {
    if curr.Null? then Ok([])
    else if !curr.Cons? then Err(AssertionFailure)
    else if !curr.car.Symbol? then Err(TypeError)
    else
      match DistinctFrom(curr.car.name, curr.cdr)
      case Err(err) => Err(err)
      case Ok(_) =>
        match Params(curr.cdr)
        case Err(err) => Err(err)
        case Ok(rest) =>
          assert forall j | 0 <= j < |rest| :: KeyText(ToSeq(curr.cdr)[j]) == Some(rest[j]);
          Ok([curr.car.name] + rest)
  }

  /** `lambda`: two arguments, a parameter list and a body; the closure
      captures the current frame. */
  function Lambda(args: Value, f: nat): (r: Result<Value>)
    ensures r.Ok? ==> r.value.Closure? && r.value.frame == f
    ensures r.Ok? ==> args.Cons? && args.cdr.Cons? && args.cdr.cdr.Null? && r.value.body == args.cdr.car
    ensures r.Ok? ==> Params(args.car) == Ok(r.value.params)
  {
    match CountUpTo(args, 0, 2)
    case Err(err) => Err(err)
    case Ok(n) =>
      if n < 2 then Err(ArityError)
      else
        match Params(args.car)
        case Err(err) => Err(err)
        case Ok(names) => Ok(Closure(names, args.cdr.car, f))
  }

  // ----- application -----

  /** `evalEach`: evaluates the arguments left to right; `done` holds the
      values of those already evaluated, in order. */
  function EvalEach(fuel: nat, st: Store, args: Value, f: nat, done: seq<Value>): (o: Outcome)
    requires Fits(st, f, args)
    requires forall i | 0 <= i < |done| :: Refs(done[i]) <= |st.frames|
    ensures Sound(st, o)
    ensures o.result.Ok? ==> IsList(args) && IsList(o.result.value)
    ensures o.result.Ok? ==> |ToSeq(o.result.value)| == |done| + |ToSeq(args)| && ToSeq(o.result.value)[..|done|] == done
    decreases fuel, 1, args
  {
    if args.Null? then
      RefsFromSeq(done, |st.frames|);
      Outcome(Ok(FromSeq(done)), st)
    else if !args.Cons? then Outcome(Err(AssertionFailure), st)
    else
      var o := Eval(fuel, st, args.car, f);
      if o.result.Err? then o
      else
        var r := EvalEach(fuel, o.store, args.cdr, f, done + [o.result.value]);
        assert r.result.Ok? ==> ToSeq(r.result.value)[..|done|] == (done + [o.result.value])[..|done|];
        r
  }

  /** The binding loop of `apply`: parameters and arguments are paired
      positionally into frame `fr`; a count mismatch is an error. */
  function BindArgs(st: Store, fr: nat, ps: seq<string>, args: Value): (o: Outcome)
    requires Valid(st) && fr < |st.frames| && Refs(args) <= |st.frames|
    ensures Valid(o.store) && Grows(st, o.store) && |o.store.frames| == |st.frames|
    ensures o.result.Ok? ==> o.result.value == Void
    decreases args
  {
    if ps == [] || args.Null? then
      if ps != [] || !args.Null? then Outcome(Err(ArityError), st) else Outcome(Ok(Void), st)
    else if !args.Cons? then Outcome(Err(AssertionFailure), st)
    else BindArgs(AddBinding(st, fr, ps[0], args.car), fr, ps[1..], args.cdr)
  }

  /** `apply`: a primitive runs on the argument list; a closure gets a new
      frame whose parent is the frame it captured, binds its parameters
      there, and evaluates its body in it. */
  function Apply(fuel: nat, st: Store, func: Value, args: Value): (o: Outcome)
    requires Valid(st) && Refs(func) <= |st.frames| && Refs(args) <= |st.frames|
    ensures Sound(st, o)
    decreases fuel, 3, 0
  {
    match func
    case Primitive(p) => Outcome(CallPrimitive(p, args), st)
    case Closure(ps, body, captured) =>
      var st1 := NewFrame(st, Some(captured));
      var b := BindArgs(st1, |st.frames|, ps, args);
      if b.result.Err? then b
      else Eval(fuel, b.store, body, |st.frames|)
    case _ => Outcome(Err(NotCallable), st)
  }

  /** The application branch of `eval`: operator first, then the
      arguments, then `apply`. */
  function EvalCall(fuel: nat, st: Store, first: Value, args: Value, f: nat): (o: Outcome)
    requires Fits(st, f, Cons(first, args))
    ensures Sound(st, o)
    decreases fuel, 5, 0
  {
    var op := Eval(fuel, st, first, f);
    if op.result.Err? then op
    else
      var ev := EvalEach(fuel, op.store, args, f, []);
      if ev.result.Err? then ev
      else Apply(fuel, ev.store, op.result.value, ev.result.value)
  }

  // ----- if -----

  /** The argument check of `if`: at least `k` more elements. */
  function HasItems(c: Value, k: nat): (r: Result<()>)
    ensures r.Ok? && k >= 1 ==> c.Cons?
    ensures r.Ok? && k >= 2 ==> c.Cons? && c.cdr.Cons?
    ensures r.Ok? && k >= 3 ==> c.Cons? && c.cdr.Cons? && c.cdr.cdr.Cons?
    ensures r.Err? && k >= 1 && c.Null? ==> r.error == ArityError
    decreases k
  {
    if k == 0 then Ok(())
    else if c.Null? then Err(ArityError)
    else if !c.Cons? then Err(AssertionFailure)
    else HasItems(c.cdr, k - 1)
  }

  /** `if`: the consequent is taken exactly when the test's text is "#t". */
  function EvalIf(fuel: nat, st: Store, args: Value, f: nat): (o: Outcome)
    requires Fits(st, f, args)
    ensures Sound(st, o)
    decreases fuel, 5, 0
  {
    match HasItems(args, 3)
    case Err(err) => Outcome(Err(err), st)
    case Ok(_) =>
      var t := Eval(fuel, st, args.car, f);
      if t.result.Err? then t
      else
        match KeyText(t.result.value)
        case None => Outcome(Err(Undefined), t.store)
        case Some(s) =>
          if s == "#t" then Eval(fuel, t.store, args.cdr.car, f)
          else Eval(fuel, t.store, args.cdr.cdr.car, f)
  }

  // ----- bodies and let forms -----

  /** The body loop shared by `let`, `let*`, `letrec` and `begin`: every
      expression is evaluated in order, and the loop stops early before an
      empty-list expression. */
  function BodyLoop(fuel: nat, st: Store, last: Value, fr: nat): (o: Outcome)
    requires Fits(st, fr, last)
    ensures Sound(st, o)
    decreases fuel, 1, last
  {
    if !last.Cons? then Outcome(Err(AssertionFailure), st)
    else if last.cdr.Null? then Eval(fuel, st, last.car, fr)
    else if !last.cdr.Cons? then Outcome(Err(AssertionFailure), st)
    else if last.cdr.car.Null? then Eval(fuel, st, last.car, fr)
    else
      var o := Eval(fuel, st, last.car, fr);
      if o.result.Err? then o
      else BodyLoop(fuel, o.store, last.cdr, fr)
  }

  /** A `let`-family body: it must not be empty. */
  function EvalBody(fuel: nat, st: Store, body: Value, fr: nat): (o: Outcome)
    requires Fits(st, fr, body)
    ensures Sound(st, o)
    ensures body.Null? ==> o == Outcome(Err(MalformedExpression), st)
    decreases fuel, 2, 0
  {
    if body.Null? then Outcome(Err(MalformedExpression), st)
    else BodyLoop(fuel, st, body, fr)
  }

  /** The checks on one element of a binding list: it is a pair whose car
      is a symbol and whose second element exists and is not the empty
      list.  Yields the symbol's name and the initializer. */
  function BindingPair(pairs: Value): (r: Result<(string, Value)>)
    ensures r.Ok? ==> pairs.Cons? && pairs.car.Cons? && pairs.car.cdr.Cons?
    ensures r.Ok? ==> pairs.car.car == Symbol(r.value.0) && pairs.car.cdr.car == r.value.1
    ensures r.Ok? ==> !r.value.1.Null? && Refs(r.value.1) <= Refs(pairs)
  {
    if !pairs.Cons? || !pairs.car.Cons? then Err(MalformedExpression)
    else if !pairs.car.cdr.Cons? then Err(AssertionFailure)
    else if !pairs.car.car.Symbol? then Err(MalformedExpression)
    else if pairs.car.cdr.car.Null? then Err(MalformedExpression)
    else Ok((pairs.car.car.name, pairs.car.cdr.car))
  }

  /** `let`: a new frame whose parent is `f`; the initializers are
      evaluated in `f`, the body in the new frame. */
  function EvalLet(fuel: nat, st: Store, args: Value, f: nat): (o: Outcome)
    requires Fits(st, f, args)
    ensures Sound(st, o)
    decreases fuel, 5, 0
  {
    var st1 := NewFrame(st, Some(f));
    if !args.Cons? then Outcome(Err(AssertionFailure), st1)
    else LetLoop(fuel, st1, args.car, f, |st.frames|, args.cdr)
  }

  /** The binding loop of `let`: initializers evaluated in `e`, bindings
      added to `fr`, a symbol bound twice rejected. */
  function LetLoop(fuel: nat, st: Store, pairs: Value, e: nat, fr: nat, body: Value): (o: Outcome)
    requires Fits(st, e, pairs) && fr < |st.frames| && Refs(body) <= |st.frames|
    ensures Sound(st, o)
    decreases fuel, 3, pairs
  {
    if pairs.Null? then EvalBody(fuel, st, body, fr)
    else
      match BindingPair(pairs)
      case Err(err) => Outcome(Err(err), st)
      case Ok(p) =>
        if FindFrom(st.frames[fr].bindings, p.0, 0).Some? then Outcome(Err(DuplicateBinding), st)
        else
          var o := Eval(fuel, st, p.1, e);
          if o.result.Err? then o
          else LetLoop(fuel, AddBinding(o.store, fr, p.0, o.result.value), pairs.cdr, e, fr, body)
  }

  /** `let*`: one new frame per binding, each the child of the previous
      one; every initializer is evaluated in the frame before its own. */
  function EvalLetStar(fuel: nat, st: Store, args: Value, f: nat): (o: Outcome)
    requires Fits(st, f, args)
    ensures Sound(st, o)
    decreases fuel, 5, 0
  {
    if !args.Cons? then Outcome(Err(AssertionFailure), st)
    else LetStarLoop(fuel, st, args.car, f, args.cdr)
  }

  function LetStarLoop(fuel: nat, st: Store, pairs: Value, parent: nat, body: Value): (o: Outcome)
    requires Fits(st, parent, pairs) && Refs(body) <= |st.frames|
    ensures Sound(st, o)
    decreases fuel, 3, pairs
  {
    if pairs.Null? then EvalBody(fuel, st, body, parent)
    else
      match BindingPair(pairs)
      case Err(err) => Outcome(Err(err), st)
      case Ok(p) =>
        var st1 := NewFrame(st, Some(parent));
        var o := Eval(fuel, st1, p.1, parent);
        if o.result.Err? then o
        else LetStarLoop(fuel, AddBinding(o.store, |st.frames|, p.0, o.result.value), pairs.cdr, |st.frames|, body)
  }

  /** `letrec`: a new frame `env` whose parent is `f`; first every symbol
      is bound to a placeholder holding its initializer, then every
      initializer is evaluated in `env`, then `env`'s bindings are replaced
      by fresh ones holding the results, then the body runs in `env`. */
  function EvalLetrec(fuel: nat, st: Store, args: Value, f: nat): (o: Outcome)
    requires Fits(st, f, args)
    ensures Sound(st, o)
    decreases fuel, 5, 0
  {
    var st1 := NewFrame(st, Some(f));
    if !args.Cons? then Outcome(Err(AssertionFailure), st1)
    else LetrecInit(fuel, st1, args.car, |st.frames|, args.cdr)
  }

  /** Phase one of `letrec`: placeholders, with the checks of `let`. */
  function LetrecInit(fuel: nat, st: Store, pairs: Value, env: nat, body: Value): (o: Outcome)
    requires Fits(st, env, pairs) && Refs(body) <= |st.frames|
    ensures Sound(st, o)
    decreases fuel, 4, pairs
  {
    if pairs.Null? then LetrecEval(fuel, st, st.frames[env].bindings, env, [], body)
    else
      match BindingPair(pairs)
      case Err(err) => Outcome(Err(err), st)
      case Ok(p) =>
        if FindFrom(st.frames[env].bindings, p.0, 0).Some? then Outcome(Err(DuplicateBinding), st)
        else LetrecInit(fuel, AddBinding(st, env, p.0, Unspecified(p.1)), pairs.cdr, env, body)
  }

  /** Phases two and three of `letrec`: `pending` is what is left of the
      snapshot of `env`'s bindings, newest first; each binding's current
      value must still be a placeholder; its initializer's value goes into a
      fresh binding prepended to `done`, which finally replaces `env`'s
      bindings. */
  function LetrecEval(fuel: nat, st: Store, pending: seq<Binding>, env: nat, done: seq<Binding>, body: Value): (o: Outcome)
    requires Valid(st) && env < |st.frames| && Refs(body) <= |st.frames|
    requires forall k | 0 <= k < |pending| :: pending[k].cell < |st.cells|
    requires forall k | 0 <= k < |done| :: done[k].cell < |st.cells|
    ensures Sound(st, o)
    decreases fuel, 3, |pending|
  {
    if pending == [] then EvalBody(fuel, SetBindings(st, env, done), body, env)
    else
      var placeholder := st.cells[pending[0].cell];
      if !placeholder.Unspecified? then Outcome(Err(Undefined), st)
      else
        var o := Eval(fuel, st, placeholder.expr, env);
        if o.result.Err? then o
        else if o.result.value.Unspecified? then Outcome(Err(UnspecifiedReference), o.store)
        else
          LetrecEval(fuel, NewCell(o.store, o.result.value), pending[1..], env,
                     [Binding(pending[0].name, |o.store.cells|)] + done, body)
  }

  // ----- set!, begin, and, or, cond -----

  /** `set!`: overwrites the value of the nearest binding of the symbol
      with the value of the expression, evaluated in `f`. */
  function SetBang(fuel: nat, st: Store, args: Value, f: nat): (o: Outcome)
    requires Fits(st, f, args)
    ensures Sound(st, o)
    decreases fuel, 5, 0
  {
    if Visible(st, f) == [] then Outcome(Err(NoSuchBinding), st)
    else if !args.Cons? then Outcome(Err(AssertionFailure), st)
    else
      match KeyText(args.car)
      case None => Outcome(Err(Undefined), st)
      case Some(name) =>
        match Resolve(st, f, name)
        case None => Outcome(Err(NoSuchBinding), st)
        case Some(c) =>
          if !args.cdr.Cons? then Outcome(Err(AssertionFailure), st)
          else
            var o := Eval(fuel, st, args.cdr.car, f);
            if o.result.Err? then o
            else Outcome(Ok(Void), SetCell(o.store, c, o.result.value))
  }

  /** `begin`: no expressions yield void, otherwise the body loop. */
  function EvalBegin(fuel: nat, st: Store, args: Value, f: nat): (o: Outcome)
    requires Fits(st, f, args)
    ensures Sound(st, o)
    ensures args.Null? ==> o == Outcome(Ok(Void), st)
    decreases fuel, 5, 0
  {
    if args.Null? then Outcome(Ok(Void), st)
    else BodyLoop(fuel, st, args, f)
  }

  /** `and`: false as soon as an argument evaluates to the boolean false,
      otherwise true; stops at the end or at an empty-list argument. */
  function EvalAnd(fuel: nat, st: Store, args: Value, f: nat): (o: Outcome)
    requires Fits(st, f, args)
    ensures Sound(st, o)
    ensures o.result.Ok? ==> o.result.value.Bool?
    decreases fuel, 1, args
  {
    if args.Null? then Outcome(Ok(Bool(true)), st)
    else if !args.Cons? then Outcome(Err(AssertionFailure), st)
    else if args.car.Null? then Outcome(Ok(Bool(true)), st)
    else
      var o := Eval(fuel, st, args.car, f);
      if o.result.Err? then o
      else if o.result.value == Bool(false) then Outcome(Ok(Bool(false)), o.store)
      else EvalAnd(fuel, o.store, args.cdr, f)
  }

  /** `or`: true as soon as an argument evaluates to the boolean true,
      otherwise false. */
  function EvalOr(fuel: nat, st: Store, args: Value, f: nat): (o: Outcome)
    requires Fits(st, f, args)
    ensures Sound(st, o)
    ensures o.result.Ok? ==> o.result.value.Bool?
    decreases fuel, 1, args
  {
    if args.Null? then Outcome(Ok(Bool(false)), st)
    else if !args.Cons? then Outcome(Err(AssertionFailure), st)
    else if args.car.Null? then Outcome(Ok(Bool(false)), st)
    else
      var o := Eval(fuel, st, args.car, f);
      if o.result.Err? then o
      else if o.result.value == Bool(true) then Outcome(Ok(Bool(true)), o.store)
      else EvalOr(fuel, o.store, args.cdr, f)
  }

  /** `cond`: the first clause whose condition is the symbol `else` or
      evaluates to the boolean true selects its expression; no such clause
      yields void. */
  function EvalCond(fuel: nat, st: Store, args: Value, f: nat): (o: Outcome)
    requires Fits(st, f, args)
    ensures Sound(st, o)
    decreases fuel, 1, args
  {
    if args.Null? then Outcome(Ok(Void), st)
    else if !args.Cons? || !args.car.Cons? || !args.car.cdr.Cons? then Outcome(Err(AssertionFailure), st)
    else
      var condition := args.car.car;
      var expression := args.car.cdr.car;
      if condition == Symbol("else") then Eval(fuel, st, expression, f)
      else
        var o := Eval(fuel, st, condition, f);
        if o.result.Err? then o
        else if o.result.value == Bool(true) then Eval(fuel, o.store, expression, f)
        else EvalCond(fuel, o.store, args.cdr, f)
  }

  // ----- interpret -----

  /** The primitives `interpret` binds in the global frame, in the order it
      binds them. */
  const Builtins: seq<(string, Prim)> :=
    [("+", Add), ("cons", ConsPrim), ("car", CarPrim), ("cdr", CdrPrim),
     ("null?", NullPrim), ("-", Minus), ("<", Less), (">", Greater),
     ("=", NumEqual), ("modulo", Modulo), ("/", Divide), ("*", Multiply)]

  /** The global frame after the first `k` calls of `bind`: each call
      prepends one binding and allocates one cell. */
  function Installed(k: nat): (st: Store)
    requires k <= |Builtins|
    ensures Valid(st) && |st.frames| == 1 && st.frames[0].parent == None
    ensures |st.frames[0].bindings| == k && |st.cells| == k
    ensures forall j | 0 <= j < k :: st.frames[0].bindings[k - 1 - j] == Binding(Builtins[j].0, j)
    ensures forall j | 0 <= j < k :: st.cells[j] == Primitive(Builtins[j].1)
  {
    if k == 0 then Store([Frame([], None)], [])
    else
      var prev := Installed(k - 1);
      AddBinding(prev, 0, Builtins[k - 1].0, Primitive(Builtins[k - 1].1))
  }

  /** The store `interpret` starts from. */
  function GlobalStore(): (st: Store)
    ensures Valid(st) && |st.frames| == 1
  {
    Installed(|Builtins|)
  }

  /** What `interpret` produces: the value of each top-level expression, in
      order, and the error that stopped it, if one did. */
  datatype Transcript = Transcript(printed: seq<Value>, error: Option<Error>)

  /** The loop of `interpret`: each top-level expression is evaluated in the
      global frame (frame 0) against the store the previous one left. */
  function RunFrom(fuel: nat, st: Store, program: Value, printed: seq<Value>): (t: Transcript)
    requires Fits(st, 0, program)
    ensures |printed| <= |t.printed| && t.printed[..|printed|] == printed
    ensures t.error.None? ==> IsList(program) && |t.printed| == |printed| + |ToSeq(program)|
    decreases program
  {
    if program.Null? then Transcript(printed, None)
    else if !program.Cons? then Transcript(printed, Some(AssertionFailure))
    else
      var o := Eval(fuel, st, program.car, 0);
      if o.result.Err? then Transcript(printed, Some(o.result.error))
      else
        var t := RunFrom(fuel, o.store, program.cdr, printed + [o.result.value]);
        assert t.printed[..|printed|] == (printed + [o.result.value])[..|printed|];
        t
  }

  /** `interpret`: runs a parsed program from the global store. */
  function Interpret(fuel: nat, program: Value): (t: Transcript)
    requires Refs(program) <= 1
    ensures t.error.None? ==> IsList(program) && |t.printed| == |ToSeq(program)|
  {
    RunFrom(fuel, GlobalStore(), program, [])
  }
}
