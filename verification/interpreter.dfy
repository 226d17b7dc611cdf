/** The evaluator of interpreter.c as it runs: one object owns every frame
    and every value cell, and each C function is a method that updates them
    in place.  Every method is proved to produce exactly the outcome and
    the store of its reference function in module Semantics. */
module Evaluator {
  import opened Values
  import opened LinkedList
  import opened Environment
  import opened Primitives
  import opened Semantics

  /** The names collected by the outer parameter loop of `lambda`, in front
      of what the rest of the loop yields. */
  function PrependNames(names: seq<string>, r: Result<seq<string>>): Result<seq<string>>
  {
    match r
    case Ok(rest) => Ok(names + rest)
    case Err(e) => Err(e)
  }

  lemma PrependNamesAssoc(a: seq<string>, b: seq<string>, r: Result<seq<string>>)
    ensures PrependNames(a, PrependNames(b, r)) == PrependNames(a + b, r)
    ensures PrependNames([], r) == r
  {
    if r.Ok? {
      assert a + (b + r.value) == (a + b) + r.value;
      assert [] + r.value == r.value;
    }
  }

  /** The bindings a scan of the frame chain has still to visit when it
      stands at position `k` of frame `cur` (none once `cur` is None). */
  ghost function Rest(st: Store, cur: Option<nat>, k: nat): seq<Binding>
    requires Valid(st) && (cur.Some? ==> cur.value < |st.frames| && k <= |st.frames[cur.value].bindings|)
  {
    if cur.None? then []
    else
      var fr := st.frames[cur.value];
      fr.bindings[k..] + if fr.parent.Some? then Visible(st, fr.parent.value) else []
  }

  lemma RestStart(st: Store, f: nat)
    requires Valid(st) && f < |st.frames|
    ensures Visible(st, f) == Rest(st, Some(f), 0)
  {
    assert st.frames[f].bindings[0..] == st.frames[f].bindings;
  }

  lemma RestStep(st: Store, cur: nat, k: nat)
    requires Valid(st) && cur < |st.frames| && k < |st.frames[cur].bindings|
    ensures Rest(st, Some(cur), k) == [st.frames[cur].bindings[k]] + Rest(st, Some(cur), k + 1)
  {
    var bs := st.frames[cur].bindings;
    assert bs[k..] == [bs[k]] + bs[k + 1..];
  }

  lemma RestNext(st: Store, cur: nat)
    requires Valid(st) && cur < |st.frames|
    ensures Rest(st, Some(cur), |st.frames[cur].bindings|) == Rest(st, st.frames[cur].parent, 0)
  {
    var fr := st.frames[cur];
    assert fr.bindings[|fr.bindings|..] == [];
    if fr.parent.Some? {
      RestStart(st, fr.parent.value);
    }
  }

  /** One binding of the scan moves from the unvisited part to the visited
      part; it sits at position |visited| of the whole. */
  lemma Advance(vs: seq<Binding>, visited: seq<Binding>, b: Binding, rest: seq<Binding>)
    requires vs == visited + ([b] + rest)
    ensures vs == (visited + [b]) + rest && |visited| < |vs| && vs[|visited|] == b
  {
  }

  /** Every binding's cell is among the first `n`. */
  predicate CellsBelow(bs: seq<Binding>, n: nat)
  {
    forall k | 0 <= k < |bs| :: bs[k].cell < n
  }

  /** The cases of `set!` that stop before evaluating anything. */
  lemma SetBangEarly(fuel: nat, st: Store, args: Value, f: nat)
    requires Fits(st, f, args)
    ensures Visible(st, f) != [] && !args.Cons? ==>
      Semantics.SetBang(fuel, st, args, f) == Outcome(Err(AssertionFailure), st)
    ensures Visible(st, f) != [] && args.Cons? && KeyText(args.car).None? ==>
      Semantics.SetBang(fuel, st, args, f) == Outcome(Err(Undefined), st)
    ensures (Visible(st, f) == [] || (args.Cons? && KeyText(args.car).Some? && Resolve(st, f, KeyText(args.car).value).None?)) ==>
      Semantics.SetBang(fuel, st, args, f) == Outcome(Err(NoSuchBinding), st)
  {
  }

  /** Reaching position `found` of the visible bindings, the first whose
      name is `name`, is what `Resolve` answers; reaching the end without
      one means `Resolve` finds nothing. */
  lemma ScanResolves(st: Store, f: nat, name: string, found: nat)
    requires Valid(st) && f < |st.frames|
    requires found <= |Visible(st, f)|
    requires found < |Visible(st, f)| ==> Visible(st, f)[found].name == name
    requires forall m | 0 <= m < found :: Visible(st, f)[m].name != name
    ensures Resolve(st, f, name) == if found < |Visible(st, f)| then Some(Visible(st, f)[found].cell) else None
  {
    ResolveFirstVisible(st, f, name);
    FindFromAt(Visible(st, f), name, 0, found);
  }

  class Interpreter {
    var frames: seq<Frame>
    var cells: seq<Value>

    /** Everything the interpreter has allocated, as a value. */
    function State(): Store
      reads this
    {
      Store(frames, cells)
    }

    /** The set-up of `interpret`: the global frame and the twelve `bind`
        calls, in order. */
    constructor ()
      ensures State() == GlobalStore()
    {
      frames := [Frame([], None)];
      cells := [];
      new;
      for i := 0 to |Builtins|
        invariant State() == Installed(i)
      {
        Bind(Builtins[i].0, Builtins[i].1);
      }
    }

    // ----- frames and cells -----

    /** A new empty frame (talloc of a Frame, bindings set to the empty list). */
    method PushFrame(parent: Option<nat>) returns (fr: nat)
      requires Valid(State()) && (parent.Some? ==> parent.value < |frames|)
      modifies this
      ensures fr == |old(frames)| && State() == Environment.NewFrame(old(State()), parent)
    {
      fr := |frames|;
      frames := frames + [Frame([], parent)];
    }

    /** `frame->bindings = cons(binding, frame->bindings)` with a fresh cell. */
    method Prepend(f: nat, name: string, v: Value)
      requires Valid(State()) && f < |frames| && Refs(v) <= |frames|
      modifies this
      ensures State() == AddBinding(old(State()), f, name, v)
    {
      frames := frames[f := Frame([Binding(name, |cells|)] + frames[f].bindings, frames[f].parent)];
      cells := cells + [v];
    }

    /** `bind`: a primitive bound in the global frame. */
    method Bind(name: string, p: Prim)
      requires Valid(State()) && 0 < |frames|
      modifies this
      ensures State() == AddBinding(old(State()), 0, name, Primitive(p))
    {
      Prepend(0, name, Primitive(p));
    }

    /** `lookUpSymbol`: scans each frame's bindings newest first, then the
        parent's, and so on. */
    method LookUpSymbol(name: string, f: nat) returns (r: Result<Value>)
      requires Valid(State()) && f < |frames|
      ensures r == Lookup(State(), f, name)
    {
      var st := State();
      ghost var visited: seq<Binding> := [];
      var cur: Option<nat> := Some(f);
      RestStart(st, f);
      while cur.Some?
        invariant cur.Some? ==> cur.value < |frames|
        invariant Visible(st, f) == visited + Rest(st, cur, 0)
        invariant forall m | 0 <= m < |visited| :: visited[m].name != name
        decreases if cur.Some? then cur.value + 1 else 0
      {
        var bs := frames[cur.value].bindings;
        var k := 0;
        while k < |bs|
          invariant k <= |bs|
          invariant Visible(st, f) == visited + Rest(st, cur, k)
          invariant forall m | 0 <= m < |visited| :: visited[m].name != name
        {
          RestStep(st, cur.value, k);
          if bs[k].name == name {
            ScanResolves(st, f, name, |visited|);
            return Ok(cells[bs[k].cell]);
          }
          visited := visited + [bs[k]];
          k := k + 1;
        }
        RestNext(st, cur.value);
        cur := frames[cur.value].parent;
      }
      ScanResolves(st, f, name, |visited|);
      return Err(UnboundSymbol(name));
    }

    // ----- eval -----

    /** `eval` */
    method Eval(fuel: nat, e: Value, f: nat) returns (r: Result<Value>)
      requires Fits(State(), f, e)
      modifies this
      ensures Outcome(r, State()) == Semantics.Eval(fuel, old(State()), e, f)
      decreases fuel, 0, 0
    {
      if fuel == 0 {
        return Err(OutOfFuel);
      }
      match e {
        case Int(_) => r := Ok(e);
        case Double(_) => r := Ok(e);
        case Bool(_) => r := Ok(e);
        case Str(_) => r := Ok(e);
        case Symbol(name) => r := LookUpSymbol(name, f);
        case Closure(_, _, _) => r := Err(UnspecifiedReference);
        case Unspecified(_) => r := Err(UnspecifiedReference);
        case Cons(first, args) => r := EvalPair(fuel - 1, first, args, f);
        case _ => r := Err(Undefined);
      }
    }

    /** The pair case of `eval`. */
    method EvalPair(fuel: nat, first: Value, args: Value, f: nat) returns (r: Result<Value>)
      requires Fits(State(), f, Cons(first, args))
      modifies this
      ensures Outcome(r, State()) == EvalForm(fuel, old(State()), first, args, f)
      decreases fuel, 6, 0
    {
      if first.Null? {
        return Err(NullOperator);
      }
      var key := KeyText(first);
      if key.None? {
        return Err(Undefined);
      }
      var k := key.value;
      if k == "if" {
        r := EvalIf(fuel, args, f);
      } else if k == "let" {
        r := EvalLet(fuel, args, f);
      } else if k == "quote" {
        r := Quote(args);
      } else if k == "define" {
        r := EvalDefine(fuel, args, f);
      } else if k == "lambda" {
        r := EvalLambda(args, f);
      } else if k == "let*" {
        r := EvalLetStar(fuel, args, f);
      } else if k == "letrec" {
        r := EvalLetrec(fuel, args, f);
      } else if k == "set!" {
        r := SetBang(fuel, args, f);
      } else if k == "begin" {
        r := EvalBegin(fuel, args, f);
      } else if k == "and" {
        r := EvalAnd(fuel, args, f);
      } else if k == "or" {
        r := EvalOr(fuel, args, f);
      } else if k == "cond" {
        r := EvalCond(fuel, args, f);
      } else {
        var op := Eval(fuel, first, f);
        if op.Err? {
          return op;
        }
        var evaluated := EvalEach(fuel, args, f);
        if evaluated.Err? {
          return evaluated;
        }
        r := Apply(fuel, op.value, evaluated.value);
      }
    }

    // ----- define, lambda -----

    /** The argument-counting loop of `define` and `lambda`. */
    method CountArgs(args: Value, max: nat) returns (r: Result<nat>)
      ensures r == CountUpTo(args, 0, max)
    {
      var curr := args;
      var count := 0;
      while !curr.Null?
        invariant count <= max
        invariant CountUpTo(args, 0, max) == CountUpTo(curr, count, max)
        decreases curr
      {
        count := count + 1;
        if count > max {
          return Err(ArityError);
        }
        if !curr.Cons? {
          return Err(AssertionFailure);
        }
        curr := curr.cdr;
      }
      return Ok(count);
    }

    /** `evalDefine` */
    method EvalDefine(fuel: nat, args: Value, f: nat) returns (r: Result<Value>)
      requires Fits(State(), f, args)
      modifies this
      ensures Outcome(r, State()) == Semantics.EvalDefine(fuel, old(State()), args, f)
      decreases fuel, 5, 0
    {
      var count := CountArgs(args, 2);
      if count.Err? {
        return Err(count.error);
      }
      if count.value < 2 {
        return Err(ArityError);
      }
      var variable := args.car;
      if !variable.Symbol? {
        return Err(TypeError);
      }
      var v := Eval(fuel, args.cdr.car, f);
      if v.Err? {
        return v;
      }
      Prepend(f, variable.name, v.value);
      return Ok(Void);
    }

    /** `evalLambda`: checks the parameters with two nested loops. */
    method EvalLambda(args: Value, f: nat) returns (r: Result<Value>)
      ensures r == Lambda(args, f)
    {
      var count := CountArgs(args, 2);
      if count.Err? {
        return Err(count.error);
      }
      if count.value < 2 {
        return Err(ArityError);
      }
      var params := args.car;
      var curr := params;
      var names: seq<string> := [];
      PrependNamesAssoc([], [], Params(curr));
      while !curr.Null?
        invariant Params(params) == PrependNames(names, Params(curr))
        decreases curr
      {
        if !curr.Cons? {
          return Err(AssertionFailure);
        }
        if !curr.car.Symbol? {
          return Err(TypeError);
        }
        var next := curr.cdr;
        while !next.Null?
          invariant DistinctFrom(curr.car.name, curr.cdr) == DistinctFrom(curr.car.name, next)
          decreases next
        {
          if !next.Cons? {
            return Err(AssertionFailure);
          }
          var t := KeyText(next.car);
          if t.None? {
            return Err(Undefined);
          }
          if t.value == curr.car.name {
            return Err(DuplicateBinding);
          }
          next := next.cdr;
        }
        assert Params(curr) == PrependNames([curr.car.name], Params(curr.cdr));
        PrependNamesAssoc(names, [curr.car.name], Params(curr.cdr));
        names := names + [curr.car.name];
        curr := curr.cdr;
      }
      assert names + [] == names;
      return Ok(Closure(names, args.cdr.car, f));
    }

    // ----- application -----

    /** `evalEach`: conses each value onto an accumulator, then reverses it. */
    method EvalEach(fuel: nat, args: Value, f: nat) returns (r: Result<Value>)
      requires Fits(State(), f, args)
      modifies this
      ensures Outcome(r, State()) == Semantics.EvalEach(fuel, old(State()), args, f, [])
      decreases fuel, 1, 0
    {
      var evaluated := MakeNull();
      var rest := args;
      ghost var done: seq<Value> := [];
      while !rest.Null?
        invariant Fits(State(), f, rest)
        invariant forall i | 0 <= i < |done| :: Refs(done[i]) <= |frames|
        invariant IsList(evaluated) && ToSeq(evaluated) == Rev(done)
        invariant Semantics.EvalEach(fuel, old(State()), args, f, []) == Semantics.EvalEach(fuel, State(), rest, f, done)
        decreases rest
      {
        if !rest.Cons? {
          return Err(AssertionFailure);
        }
        var v := Eval(fuel, rest.car, f);
        if v.Err? {
          return v;
        }
        evaluated := ConsCell(v.value, evaluated);
        RevAppend(done, [v.value]);
        assert Rev([v.value]) == [v.value];
        done := done + [v.value];
        rest := rest.cdr;
      }
      var inOrder := Reverse(evaluated);
      RevRev(done);
      FromToSeq(inOrder);
      return Ok(inOrder);
    }

    /** `apply` */
    method Apply(fuel: nat, func: Value, args: Value) returns (r: Result<Value>)
      requires Valid(State()) && Refs(func) <= |frames| && Refs(args) <= |frames|
      modifies this
      ensures Outcome(r, State()) == Semantics.Apply(fuel, old(State()), func, args)
      decreases fuel, 3, 0
    {
      if func.Primitive? {
        r := Call(func.prim, args);
        return;
      }
      if !func.Closure? {
        return Err(NotCallable);
      }
      var fr := PushFrame(Some(func.frame));
      ghost var bound := State();
      var ps := func.params;
      var rest := args;
      while ps != [] && !rest.Null?
        invariant Valid(State()) && fr < |frames| && Refs(rest) <= |frames| && Refs(func) <= |frames|
        invariant BindArgs(bound, fr, func.params, args) == BindArgs(State(), fr, ps, rest)
        decreases rest
      {
        if !rest.Cons? {
          return Err(AssertionFailure);
        }
        Prepend(fr, ps[0], rest.car);
        ps := ps[1..];
        rest := rest.cdr;
      }
      if ps != [] || !rest.Null? {
        return Err(ArityError);
      }
      r := Eval(fuel, func.body, fr);
    }

    // ----- if -----

    /** `evalIf` */
    method EvalIf(fuel: nat, args: Value, f: nat) returns (r: Result<Value>)
      requires Fits(State(), f, args)
      modifies this
      ensures Outcome(r, State()) == Semantics.EvalIf(fuel, old(State()), args, f)
      decreases fuel, 5, 0
    {
      var checkif := args;
      for i := 0 to 3
        invariant HasItems(args, 3) == HasItems(checkif, 3 - i)
      {
        if checkif.Null? {
          return Err(ArityError);
        }
        if !checkif.Cons? {
          return Err(AssertionFailure);
        }
        checkif := checkif.cdr;
      }
      var test := Eval(fuel, args.car, f);
      if test.Err? {
        return test;
      }
      var key := KeyText(test.value);
      if key.None? {
        return Err(Undefined);
      }
      if key.value == "#t" {
        r := Eval(fuel, args.cdr.car, f);
      } else {
        r := Eval(fuel, args.cdr.cdr.car, f);
      }
    }

    // ----- bodies and let forms -----

    /** The loop that ends `evalLet`, `evalLetstar`, `evalLetrec` and
        `evalBegin`: evaluates up to the last expression (or up to one
        followed by the empty list) and returns the value of that one. */
    method EvalSequence(fuel: nat, body: Value, fr: nat) returns (r: Result<Value>)
      requires Fits(State(), fr, body)
      modifies this
      ensures Outcome(r, State()) == BodyLoop(fuel, old(State()), body, fr)
      decreases fuel, 1, 0
    {
      var last := body;
      while true
        invariant Fits(State(), fr, last)
        invariant BodyLoop(fuel, old(State()), body, fr) == BodyLoop(fuel, State(), last, fr)
        decreases last
      {
        if !last.Cons? {
          return Err(AssertionFailure);
        }
        if last.cdr.Null? {
          break;
        }
        if !last.cdr.Cons? {
          return Err(AssertionFailure);
        }
        if last.cdr.car.Null? {
          break;
        }
        var v := Eval(fuel, last.car, fr);
        if v.Err? {
          return v;
        }
        last := last.cdr;
      }
      r := Eval(fuel, last.car, fr);
    }

    /** The duplicate check of `evalLet` and `evalLetrec`: is `name` bound
        in frame `fr` itself? */
    method BoundHere(fr: nat, name: string) returns (b: bool)
      requires fr < |frames|
      ensures b <==> FindFrom(frames[fr].bindings, name, 0).Some?
    {
      var bs := frames[fr].bindings;
      var k := 0;
      while k < |bs|
        invariant k <= |bs|
        invariant FindFrom(bs, name, 0) == FindFrom(bs, name, k)
      {
        if bs[k].name == name {
          return true;
        }
        k := k + 1;
      }
      return false;
    }

    /** `evalLet` */
    method EvalLet(fuel: nat, args: Value, f: nat) returns (r: Result<Value>)
      requires Fits(State(), f, args)
      modifies this
      ensures Outcome(r, State()) == Semantics.EvalLet(fuel, old(State()), args, f)
      decreases fuel, 5, 0
    {
      var fr := PushFrame(Some(f));
      if !args.Cons? {
        return Err(AssertionFailure);
      }
      var pairs := args.car;
      while !pairs.Null?
        invariant Fits(State(), f, pairs) && fr < |frames| && Refs(args) <= |frames|
        invariant Semantics.EvalLet(fuel, old(State()), args, f) == LetLoop(fuel, State(), pairs, f, fr, args.cdr)
        decreases pairs
      {
        var pair := BindingPair(pairs);
        if pair.Err? {
          return Err(pair.error);
        }
        var (symbol, expression) := pair.value;
        var twice := BoundHere(fr, symbol);
        if twice {
          return Err(DuplicateBinding);
        }
        var v := Eval(fuel, expression, f);
        if v.Err? {
          return v;
        }
        Prepend(fr, symbol, v.value);
        pairs := pairs.cdr;
      }
      if args.cdr.Null? {
        return Err(MalformedExpression);
      }
      r := EvalSequence(fuel, args.cdr, fr);
    }

    /** `evalLetstar` */
    method EvalLetStar(fuel: nat, args: Value, f: nat) returns (r: Result<Value>)
      requires Fits(State(), f, args)
      modifies this
      ensures Outcome(r, State()) == Semantics.EvalLetStar(fuel, old(State()), args, f)
      decreases fuel, 5, 0
    {
      if !args.Cons? {
        return Err(AssertionFailure);
      }
      var pairs := args.car;
      var parent := f;
      while !pairs.Null?
        invariant Fits(State(), parent, pairs) && Refs(args) <= |frames|
        invariant Semantics.EvalLetStar(fuel, old(State()), args, f) == LetStarLoop(fuel, State(), pairs, parent, args.cdr)
        decreases pairs
      {
        var pair := BindingPair(pairs);
        if pair.Err? {
          return Err(pair.error);
        }
        var (symbol, expression) := pair.value;
        var current := PushFrame(Some(parent));
        var v := Eval(fuel, expression, parent);
        if v.Err? {
          return v;
        }
        Prepend(current, symbol, v.value);
        parent := current;
        pairs := pairs.cdr;
      }
      if args.cdr.Null? {
        return Err(MalformedExpression);
      }
      r := EvalSequence(fuel, args.cdr, parent);
    }

    /** A fresh cell for `cons(symbol, evaluated)` in `letrec`'s second phase. */
    method Allocate(v: Value) returns (c: nat)
      requires Valid(State()) && Refs(v) <= |frames|
      modifies this
      ensures c == |old(cells)| && State() == NewCell(old(State()), v)
    {
      c := |cells|;
      cells := cells + [v];
    }

    /** `binding->c.cdr = v` */
    method Assign(c: nat, v: Value)
      requires Valid(State()) && c < |cells| && Refs(v) <= |frames|
      modifies this
      ensures State() == SetCell(old(State()), c, v)
    {
      cells := cells[c := v];
    }

    /** `env->bindings = newbindings` */
    method ReplaceBindings(f: nat, bs: seq<Binding>)
      requires Valid(State()) && f < |frames|
      requires forall k | 0 <= k < |bs| :: bs[k].cell < |cells|
      modifies this
      ensures State() == SetBindings(old(State()), f, bs)
    {
      frames := frames[f := Frame(bs, frames[f].parent)];
    }

    /** `evalLetrec`: placeholders, then evaluation in the new frame, then
        the fresh bindings replace the placeholders, then the body. */
    method EvalLetrec(fuel: nat, args: Value, f: nat) returns (r: Result<Value>)
      requires Fits(State(), f, args)
      modifies this
      ensures Outcome(r, State()) == Semantics.EvalLetrec(fuel, old(State()), args, f)
      decreases fuel, 5, 0
    {
      var env := PushFrame(Some(f));
      if !args.Cons? {
        return Err(AssertionFailure);
      }
      r := LetrecPlaceholders(fuel, args.car, env, args.cdr);
    }

    /** The first loop of `evalLetrec`: every symbol is bound in `env` to a
        placeholder remembering its initializer; then the remaining phases. */
    method LetrecPlaceholders(fuel: nat, bindingList: Value, env: nat, body: Value) returns (r: Result<Value>)
      requires Fits(State(), env, bindingList) && Refs(body) <= |frames|
      modifies this
      ensures Outcome(r, State()) == LetrecInit(fuel, old(State()), bindingList, env, body)
      decreases fuel, 4, 0
    {
      var pairs := bindingList;
      while !pairs.Null?
        invariant Fits(State(), env, pairs) && Refs(body) <= |frames|
        invariant LetrecInit(fuel, old(State()), bindingList, env, body) == LetrecInit(fuel, State(), pairs, env, body)
        decreases pairs
      {
        var pair := BindingPair(pairs);
        if pair.Err? {
          return Err(pair.error);
        }
        var (symbol, expression) := pair.value;
        var twice := BoundHere(env, symbol);
        if twice {
          return Err(DuplicateBinding);
        }
        Prepend(env, symbol, Unspecified(expression));
        pairs := pairs.cdr;
      }
      r := LetrecValues(fuel, env, body);
    }

    /** The second and third phases of `evalLetrec` and its body. */
    method LetrecValues(fuel: nat, env: nat, body: Value) returns (r: Result<Value>)
      requires Valid(State()) && env < |frames| && Refs(body) <= |frames|
      modifies this
      ensures Outcome(r, State()) == LetrecEval(fuel, old(State()), old(frames[env].bindings), env, [], body)
      decreases fuel, 3, 0
    {
      var bindings := frames[env].bindings;
      var newbindings: seq<Binding> := [];
      while bindings != []
        invariant Valid(State()) && env < |frames| && Refs(body) <= |frames|
        invariant CellsBelow(bindings, |cells|) && CellsBelow(newbindings, |cells|)
        invariant LetrecEval(fuel, old(State()), old(frames[env].bindings), env, [], body) == LetrecEval(fuel, State(), bindings, env, newbindings, body)
        decreases |bindings|
      {
        var stop;
        stop, r, newbindings := LetrecStep(fuel, env, bindings, newbindings, body);
        if stop {
          return;
        }
        bindings := bindings[1..];
      }
      ReplaceBindings(env, newbindings);
      if body.Null? {
        return Err(MalformedExpression);
      }
      r := EvalSequence(fuel, body, env);
    }

    /** One pass of `letrec`'s second loop: the placeholder of the first
        pending binding is evaluated and its value gets a fresh binding in
        front of `done`; `stop` reports an error. */
    method LetrecStep(fuel: nat, env: nat, pending: seq<Binding>, done: seq<Binding>, body: Value)
      returns (stop: bool, r: Result<Value>, done': seq<Binding>)
      requires Valid(State()) && env < |frames| && Refs(body) <= |frames| && pending != []
      requires CellsBelow(pending, |cells|) && CellsBelow(done, |cells|)
      modifies this
      ensures Valid(State()) && env < |frames| && Refs(body) <= |frames|
      ensures stop ==> r.Err? && Outcome(r, State()) == LetrecEval(fuel, old(State()), pending, env, done, body)
      ensures !stop ==>
        old(cells[pending[0].cell]).Unspecified? &&
        var o := Semantics.Eval(fuel, old(State()), old(cells[pending[0].cell]).expr, env);
        o.result.Ok? && !o.result.value.Unspecified? &&
        State() == NewCell(o.store, o.result.value) &&
        done' == [Binding(pending[0].name, |o.store.cells|)] + done
      ensures !stop ==> CellsBelow(pending[1..], |cells|) && CellsBelow(done', |cells|)
      ensures !stop ==> LetrecEval(fuel, old(State()), pending, env, done, body) == LetrecEval(fuel, State(), pending[1..], env, done', body)
      decreases fuel, 2, 0
    {
      done' := done;
      var placeholder := cells[pending[0].cell];
      if !placeholder.Unspecified? {
        return true, Err(Undefined), done';
      }
      var evaluated := Eval(fuel, placeholder.expr, env);
      if evaluated.Err? {
        return true, evaluated, done';
      }
      if evaluated.value.Unspecified? {
        return true, Err(UnspecifiedReference), done';
      }
      var c := Allocate(evaluated.value);
      done' := [Binding(pending[0].name, c)] + done;
      return false, Ok(Void), done';
    }

    // ----- set!, begin, and, or, cond -----

    /** `setBang`: the scan of `lookUpSymbol`, reading the target symbol at
        each comparison, then an in-place update of the binding found. */
    method SetBang(fuel: nat, args: Value, f: nat) returns (r: Result<Value>)
      requires Fits(State(), f, args)
      modifies this
      ensures Outcome(r, State()) == Semantics.SetBang(fuel, old(State()), args, f)
      decreases fuel, 5, 0
    {
      var st := State();
      ghost var visited: seq<Binding> := [];
      var cur: Option<nat> := Some(f);
      RestStart(st, f);
      while cur.Some?
        invariant State() == st
        invariant cur.Some? ==> cur.value < |frames|
        invariant Visible(st, f) == visited + Rest(st, cur, 0)
        invariant visited != [] ==> args.Cons? && KeyText(args.car).Some?
        invariant forall m | 0 <= m < |visited| :: Some(visited[m].name) != KeyText(args.car)
        decreases if cur.Some? then cur.value + 1 else 0
      {
        var bs := frames[cur.value].bindings;
        var k := 0;
        while k < |bs|
          invariant State() == st && k <= |bs|
          invariant Visible(st, f) == visited + Rest(st, cur, k)
          invariant visited != [] ==> args.Cons? && KeyText(args.car).Some?
          invariant forall m | 0 <= m < |visited| :: Some(visited[m].name) != KeyText(args.car)
        {
          RestStep(st, cur.value, k);
          Advance(Visible(st, f), visited, bs[k], Rest(st, cur, k + 1));
          SetBangEarly(fuel, st, args, f);
          if !args.Cons? {
            return Err(AssertionFailure);
          }
          var target := KeyText(args.car);
          if target.None? {
            return Err(Undefined);
          }
          if bs[k].name == target.value {
            r := SetFound(fuel, args, f, bs[k].cell, |visited|);
            return;
          }
          visited := visited + [bs[k]];
          k := k + 1;
        }
        RestNext(st, cur.value);
        cur := frames[cur.value].parent;
      }
      if visited != [] {
        ScanResolves(st, f, KeyText(args.car).value, |visited|);
      }
      SetBangEarly(fuel, st, args, f);
      return Err(NoSuchBinding);
    }

    /** The found branch of `setBang`: `binding->c.cdr = eval(...)`. */
    method SetFound(fuel: nat, args: Value, f: nat, c: nat, ghost found: nat) returns (r: Result<Value>)
      requires Fits(State(), f, args) && args.Cons? && KeyText(args.car).Some?
      requires found < |Visible(State(), f)| && Visible(State(), f)[found].cell == c
      requires Visible(State(), f)[found].name == KeyText(args.car).value
      requires forall m | 0 <= m < found :: Visible(State(), f)[m].name != KeyText(args.car).value
      modifies this
      ensures Outcome(r, State()) == Semantics.SetBang(fuel, old(State()), args, f)
      decreases fuel, 4, 0
    {
      ScanResolves(State(), f, KeyText(args.car).value, found);
      if !args.cdr.Cons? {
        return Err(AssertionFailure);
      }
      var v := Eval(fuel, args.cdr.car, f);
      if v.Err? {
        return v;
      }
      Assign(c, v.value);
      return Ok(Void);
    }

    /** `evalBegin` */
    method EvalBegin(fuel: nat, args: Value, f: nat) returns (r: Result<Value>)
      requires Fits(State(), f, args)
      modifies this
      ensures Outcome(r, State()) == Semantics.EvalBegin(fuel, old(State()), args, f)
      decreases fuel, 5, 0
    {
      if args.Null? {
        return Ok(Void);
      }
      r := EvalSequence(fuel, args, f);
    }

    /** `evalAnd` */
    method EvalAnd(fuel: nat, args: Value, f: nat) returns (r: Result<Value>)
      requires Fits(State(), f, args)
      modifies this
      ensures Outcome(r, State()) == Semantics.EvalAnd(fuel, old(State()), args, f)
      decreases fuel, 5, 0
    {
      var rest := args;
      while !rest.Null?
        invariant Fits(State(), f, rest)
        invariant Semantics.EvalAnd(fuel, old(State()), args, f) == Semantics.EvalAnd(fuel, State(), rest, f)
        decreases rest
      {
        if !rest.Cons? {
          return Err(AssertionFailure);
        }
        if rest.car.Null? {
          break;
        }
        var v := Eval(fuel, rest.car, f);
        if v.Err? {
          return v;
        }
        if v.value.Bool? && KeyText(v.value) != Some("#t") {
          return Ok(Bool(false));
        }
        rest := rest.cdr;
      }
      return Ok(Bool(true));
    }

    /** `evalOr` */
    method EvalOr(fuel: nat, args: Value, f: nat) returns (r: Result<Value>)
      requires Fits(State(), f, args)
      modifies this
      ensures Outcome(r, State()) == Semantics.EvalOr(fuel, old(State()), args, f)
      decreases fuel, 5, 0
    {
      var rest := args;
      while !rest.Null?
        invariant Fits(State(), f, rest)
        invariant Semantics.EvalOr(fuel, old(State()), args, f) == Semantics.EvalOr(fuel, State(), rest, f)
        decreases rest
      {
        if !rest.Cons? {
          return Err(AssertionFailure);
        }
        if rest.car.Null? {
          break;
        }
        var v := Eval(fuel, rest.car, f);
        if v.Err? {
          return v;
        }
        if v.value.Bool? && KeyText(v.value) == Some("#t") {
          return Ok(Bool(true));
        }
        rest := rest.cdr;
      }
      return Ok(Bool(false));
    }

    /** `evalCond` */
    method EvalCond(fuel: nat, args: Value, f: nat) returns (r: Result<Value>)
      requires Fits(State(), f, args)
      modifies this
      ensures Outcome(r, State()) == Semantics.EvalCond(fuel, old(State()), args, f)
      decreases fuel, 5, 0
    {
      var rest := args;
      while !rest.Null?
        invariant Fits(State(), f, rest)
        invariant Semantics.EvalCond(fuel, old(State()), args, f) == Semantics.EvalCond(fuel, State(), rest, f)
        decreases rest
      {
        if !rest.Cons? || !rest.car.Cons? || !rest.car.cdr.Cons? {
          return Err(AssertionFailure);
        }
        var condition := rest.car.car;
        var expression := rest.car.cdr.car;
        if condition.Symbol? && condition.name == "else" {
          r := Eval(fuel, expression, f);
          return;
        }
        var c := Eval(fuel, condition, f);
        if c.Err? {
          return c;
        }
        if c.value.Bool? && KeyText(c.value) == Some("#t") {
          r := Eval(fuel, expression, f);
          return;
        }
        rest := rest.cdr;
      }
      return Ok(Void);
    }
  }

  /** `interpret`: sets up the global frame, then evaluates each top-level
      expression in it and collects what would be printed. */
  method Interpret(fuel: nat, tree: Value) returns (t: Transcript)
    requires Refs(tree) <= 1
    ensures t == Semantics.Interpret(fuel, tree)
  {
    var machine := new Interpreter();
    var program := tree;
    var printed: seq<Value> := [];
    while !program.Null?
      invariant Fits(machine.State(), 0, program)
      invariant Semantics.Interpret(fuel, tree) == RunFrom(fuel, machine.State(), program, printed)
      decreases program
    {
      if !program.Cons? {
        return Transcript(printed, Some(AssertionFailure));
      }
      var evaluated := machine.Eval(fuel, program.car, 0);
      if evaluated.Err? {
        return Transcript(printed, Some(evaluated.error));
      }
      printed := printed + [evaluated.value];
      program := program.cdr;
    }
    return Transcript(printed, None);
  }
}
