/** The parse-tree builder of parser.c.  The tree under construction is a
    stack (a list, top first) of finished items and pending `Open` markers;
    `Push` is one step on the stack's contents and `Parse` folds it over
    the token list. */
module Parser {
  import opened Values
  import opened LinkedList

  function ShiftOpt(n: nat, r: Option<nat>): Option<nat>
  {
    if r.Some? then Some(n + r.value) else None
  }

  /** Position of the topmost pending `Open` marker. */
  function FindOpen(stack: seq<Value>): (r: Option<nat>)
    ensures r.Some? ==> r.value < |stack| && stack[r.value].Open?
    ensures forall m | 0 <= m < (if r.Some? then r.value else |stack|) :: !stack[m].Open?
  {
    if stack == [] then None
    else if stack[0].Open? then Some(0)
    else ShiftOpt(1, FindOpen(stack[1..]))
  }

  /** addToParseTree on the stack's contents, with the depth passed in and
      returned. */
  function Push(stack: seq<Value>, depth: int, token: Value): Result<(seq<Value>, int)>
  {
    if token.Open? then Ok(([token] + stack, depth + 1))
    else if token.Close? then
      match FindOpen(stack)
      case None => Err(SyntaxError)
      case Some(k) => Ok(([FromSeq(Rev(stack[..k]))] + stack[k + 1..], depth - 1))
    else Ok(([token] + stack, depth))
  }

  predicate NoOpen(s: seq<Value>)
  {
    forall m | 0 <= m < |s| :: !s[m].Open?
  }

  /** Moving one non-marker item from the stack onto `subtree` keeps the
      stack's contents accounted for. */
  lemma PopOne(stack: seq<Value>, subtree: Value, cur: Value)
    requires IsList(subtree) && IsList(cur) && cur.Cons? && !cur.car.Open?
    requires stack == Rev(ToSeq(subtree)) + ToSeq(cur) && NoOpen(Rev(ToSeq(subtree)))
    ensures stack == Rev(ToSeq(Cons(cur.car, subtree))) + ToSeq(cur.cdr)
    ensures NoOpen(Rev(ToSeq(Cons(cur.car, subtree))))
  {
    var x, S, T := cur.car, ToSeq(subtree), ToSeq(cur.cdr);
    assert ToSeq(cur) == [x] + T;
    assert ToSeq(Cons(x, subtree)) == [x] + S;
    PushedItems(x, S, T);
    NoOpenSnoc(Rev(S), x);
  }

  lemma NoOpenSnoc(s: seq<Value>, x: Value)
    requires NoOpen(s) && !x.Open?
    ensures NoOpen(s + [x])
  {
  }

  /** When the items above the topmost `Open` have been popped into
      `subtree` (reversing them back into their original order), the close
      step replaces them and the marker by `subtree`. */
  lemma ClosePops(stack: seq<Value>, subtree: Value, cur: Value, depth: int)
    requires IsList(subtree) && IsList(cur) && cur.Cons? && cur.car.Open?
    requires stack == Rev(ToSeq(subtree)) + ToSeq(cur) && NoOpen(Rev(ToSeq(subtree)))
    ensures Push(stack, depth, Close) == Ok(([subtree] + ToSeq(cur.cdr), depth - 1))
  {
    var items := Rev(ToSeq(subtree));
    var k := |items|;
    assert stack[k] == cur.car;
    TopOpen(stack, items, ToSeq(cur));
    assert stack[..k] == items;
    assert stack[k + 1..] == ToSeq(cur.cdr);
    RevRev(ToSeq(subtree));
    FromToSeq(subtree);
  }

  /** The topmost marker of `items + rest`, when `items` has none and
      `rest` starts with one. */
  lemma TopOpen(stack: seq<Value>, items: seq<Value>, rest: seq<Value>)
    requires stack == items + rest && NoOpen(items) && |rest| > 0 && rest[0].Open?
    ensures FindOpen(stack) == Some(|items|)
  {
    if items != [] {
      assert stack[1..] == items[1..] + rest;
      TopOpen(stack[1..], items[1..], rest);
    }
  }

  function AsTree(r: Result<(seq<Value>, int)>): Result<(Value, int)>
  {
    match r
    case Ok((s, d)) => Ok((FromSeq(s), d))
    case Err(e) => Err(e)
  }

  /** addToParseTree: adds one token to the tree and returns the new tree
      and the new depth. */
  method AddToParseTree(tree: Value, depth: int, token: Value) returns (r: Result<(Value, int)>)
    requires IsList(tree)
    ensures r == AsTree(Push(ToSeq(tree), depth, token))
  {
    FromToSeq(tree);
    if token.Open? {
      return Ok((ConsCell(token, tree), depth + 1));
    } else if token.Close? {
      var subtree := MakeNull();
      var cur := tree;
      while !IsNull(cur) && !Car(cur).Open?
        invariant IsList(cur) && IsList(subtree)
        invariant ToSeq(tree) == Rev(ToSeq(subtree)) + ToSeq(cur)
        invariant NoOpen(Rev(ToSeq(subtree)))
        decreases cur
      {
        PopOne(ToSeq(tree), subtree, cur);
        subtree := ConsCell(Car(cur), subtree);
        cur := Cdr(cur);
      }
      if IsNull(cur) {
        assert ToSeq(tree) == Rev(ToSeq(subtree));
        return Err(SyntaxError);
      }
      ClosePops(ToSeq(tree), subtree, cur, depth);
      var newTree := ConsCell(subtree, Cdr(cur));
      FromToSeq(newTree);
      return Ok((newTree, depth - 1));
    } else {
      return Ok((ConsCell(token, tree), depth));
    }
  }

  /** The stack and depth after adding every token in order. */
  function Steps(stack: seq<Value>, depth: int, tokens: seq<Value>): Result<(seq<Value>, int)>
    decreases |tokens|
  {
    if tokens == [] then Ok((stack, depth))
    else
      match Push(stack, depth, tokens[0])
      case Err(e) => Err(e)
      case Ok((s, d)) => Steps(s, d, tokens[1..])
  }

  /** parse on the token sequence: the top-level items in input order, or a
      syntax error for unmatched parentheses. */
  function ParseTokens(tokens: seq<Value>): Result<seq<Value>>
  {
    match Steps([], 0, tokens)
    case Err(e) => Err(e)
    case Ok((stack, depth)) => if depth != 0 then Err(SyntaxError) else Ok(Rev(stack))
  }

  /** parse: adds the tokens one by one, then checks that every open
      parenthesis was closed and returns the reversed stack. */
  method Parse(tokens: Value) returns (r: Result<Value>)
    requires IsList(tokens)
    ensures r == AsList(ParseTokens(ToSeq(tokens)))
  {
    var tree := MakeNull();
    var depth := 0;
    var current := tokens;
    while !IsNull(current)
      invariant IsList(current) && IsList(tree)
      invariant Steps([], 0, ToSeq(tokens)) == Steps(ToSeq(tree), depth, ToSeq(current))
      decreases current
    {
      var token := Car(current);
      var added := AddToParseTree(tree, depth, token);
      FromToSeq(tree);
      if added.Err? {
        return Err(added.error);
      }
      tree := added.value.0;
      depth := added.value.1;
      current := Cdr(current);
    }
    if depth != 0 {
      return Err(SyntaxError);
    }
    var reversed := Reverse(tree);
    FromToSeq(reversed);
    return Ok(reversed);
  }

  // ----- properties -----

  /** An open token, and any token that is not a parenthesis, goes on top
      of the stack unchanged; only the open token raises the depth. */
  lemma PushNonClose(stack: seq<Value>, depth: int, token: Value)
    requires !token.Close?
    ensures Push(stack, depth, token).Ok?
    ensures Push(stack, depth, token).value.0 == [token] + stack
    ensures Push(stack, depth, token).value.1 == if token.Open? then depth + 1 else depth
  {
  }

  /** A close token turns the items above the topmost open marker into one
      sublist holding them in their original (input) order, and removes the
      marker; depth goes down by one. */
  lemma CloseWraps(items: seq<Value>, rest: seq<Value>, depth: int)
    requires NoOpen(items)
    ensures Push(Rev(items) + [Open] + rest, depth, Close) == Ok(([FromSeq(items)] + rest, depth - 1))
  {
    var ri := Rev(items);
    RevLength(items);
    forall m | 0 <= m < |ri|
      ensures !ri[m].Open?
    {
      RevAt(items, m);
    }
    var stack := ri + [Open] + rest;
    assert stack == ri + ([Open] + rest);
    TopOpen(stack, ri, [Open] + rest);
    assert stack[..|ri|] == ri;
    assert stack[|ri| + 1..] == rest;
    RevRev(items);
  }

  /** A close token with no pending open is a syntax error. */
  lemma CloseUnmatched(stack: seq<Value>, depth: int)
    requires NoOpen(stack)
    ensures Push(stack, depth, Close) == Err(SyntaxError)
  {
  }

  function CountOpen(s: seq<Value>): nat
  {
    if s == [] then 0 else (if s[0].Open? then 1 else 0) + CountOpen(s[1..])
  }

  lemma {:induction false} CountOpenAppend(a: seq<Value>, b: seq<Value>)
    ensures CountOpen(a + b) == CountOpen(a) + CountOpen(b)
  {
    if a == [] {
      assert a + b == b;
    } else {
      assert (a + b)[1..] == a[1..] + b;
      CountOpenAppend(a[1..], b);
    }
  }

  lemma {:induction false} NoOpenCount(s: seq<Value>)
    requires NoOpen(s)
    ensures CountOpen(s) == 0
  {
    if s != [] {
      NoOpenCount(s[1..]);
    }
  }

  /** One step keeps the depth equal to the number of open markers on the
      stack. */
  lemma PushCountsOpen(stack: seq<Value>, depth: int, token: Value)
    requires depth == CountOpen(stack) && Push(stack, depth, token).Ok?
    ensures Push(stack, depth, token).value.1 == CountOpen(Push(stack, depth, token).value.0)
  {
    if token.Close? {
      var k := FindOpen(stack).value;
      assert stack == stack[..k] + [stack[k]] + stack[k + 1..];
      CountOpenAppend(stack[..k] + [stack[k]], stack[k + 1..]);
      CountOpenAppend(stack[..k], [stack[k]]);
      NoOpenCount(stack[..k]);
      var sub := FromSeq(Rev(stack[..k]));
      assert ([sub] + stack[k + 1..])[1..] == stack[k + 1..];
    } else {
      assert ([token] + stack)[1..] == stack;
    }
  }

  lemma {:induction false} StepsCountOpen(stack: seq<Value>, depth: int, tokens: seq<Value>)
    requires depth == CountOpen(stack) && Steps(stack, depth, tokens).Ok?
    ensures Steps(stack, depth, tokens).value.1 == CountOpen(Steps(stack, depth, tokens).value.0)
    decreases |tokens|
  {
    if tokens != [] {
      PushCountsOpen(stack, depth, tokens[0]);
      var (s, d) := Push(stack, depth, tokens[0]).value;
      StepsCountOpen(s, d, tokens[1..]);
    }
  }

  /** The depth is the number of unclosed open parentheses, so parse fails
      exactly when one is left unclosed (or a close was unmatched). */
  lemma ParseDepth(tokens: seq<Value>)
    ensures Steps([], 0, tokens).Ok? ==> Steps([], 0, tokens).value.1 == CountOpen(Steps([], 0, tokens).value.0)
    ensures ParseTokens(tokens).Ok? <==> Steps([], 0, tokens).Ok? && CountOpen(Steps([], 0, tokens).value.0) == 0
  {
    if Steps([], 0, tokens).Ok? {
      StepsCountOpen([], 0, tokens);
    }
  }

  predicate NoParens(tokens: seq<Value>)
  {
    forall m | 0 <= m < |tokens| :: !tokens[m].Open? && !tokens[m].Close?
  }

  lemma {:induction false} StepsNoParens(stack: seq<Value>, depth: int, tokens: seq<Value>)
    requires NoParens(tokens)
    ensures Steps(stack, depth, tokens) == Ok((Rev(tokens) + stack, depth))
    decreases |tokens|
  {
    if tokens == [] {
      assert Rev(tokens) + stack == stack;
    } else {
      StepsNoParens([tokens[0]] + stack, depth, tokens[1..]);
      assert Rev(tokens) == Rev(tokens[1..]) + [tokens[0]];
      assert Rev(tokens[1..]) + ([tokens[0]] + stack) == Rev(tokens) + stack;
    }
  }

  /** Without parentheses every token is pushed unchanged, and parsing
      gives the same tokens in the same order. */
  lemma ParseNoParens(tokens: seq<Value>)
    requires NoParens(tokens)
    ensures ParseTokens(tokens) == Ok(tokens)
  {
    StepsNoParens([], 0, tokens);
    assert Rev(tokens) + [] == Rev(tokens);
    RevRev(tokens);
  }

  // ----- round trip -----

  /** A datum: an atom (any value other than a pair, the empty list or a
      parenthesis token), or a proper list of data (the empty list being
      `()`). */
  predicate IsDatum(v: Value)
    decreases v, 1
  {
    if v.Cons? || v.Null? then IsDatumList(v) else !v.Open? && !v.Close?
  }

  predicate IsDatumList(v: Value)
    decreases v, 0
  {
    v.Null? || (v.Cons? && IsDatum(v.car) && IsDatumList(v.cdr))
  }

  /** The tokens that spell a datum: an atom is its own token, a list is
      wrapped in `Open` and `Close`. */
  function TokensOf(v: Value): seq<Value>
    decreases v, 1
  {
    if v.Cons? || v.Null? then [Open] + TokensOfList(v) + [Close] else [v]
  }

  /** The tokens of the elements of a list, one after another. */
  function TokensOfList(v: Value): seq<Value>
    decreases v, 0
  {
    if v.Cons? then TokensOf(v.car) + TokensOfList(v.cdr) else []
  }

  lemma {:induction false} DatumListIsList(v: Value)
    requires IsDatumList(v)
    ensures IsList(v) && NoOpen(ToSeq(v))
  {
    if v.Cons? {
      DatumListIsList(v.cdr);
      assert ToSeq(v) == [v.car] + ToSeq(v.cdr);
    }
  }

  lemma StepsOne(stack: seq<Value>, depth: int, t: Value, rest: seq<Value>)
    ensures Push(stack, depth, t).Err? ==> Steps(stack, depth, [t] + rest) == Err(Push(stack, depth, t).error)
    ensures Push(stack, depth, t).Ok? ==>
      Steps(stack, depth, [t] + rest) == Steps(Push(stack, depth, t).value.0, Push(stack, depth, t).value.1, rest)
  {
    assert ([t] + rest)[1..] == rest;
  }

  /** Adding the tokens of a datum leaves exactly that datum on top of the
      stack. */
  lemma {:induction false} StepsDatum(v: Value, stack: seq<Value>, depth: int, rest: seq<Value>)
    requires IsDatum(v)
    ensures Steps(stack, depth, TokensOf(v) + rest) == Steps([v] + stack, depth, rest)
    decreases v, 1
  {
    if v.Cons? || v.Null? {
      DatumListIsList(v);
      var items := ToSeq(v);
      assert TokensOf(v) + rest == [Open] + (TokensOfList(v) + ([Close] + rest));
      StepsOne(stack, depth, Open, TokensOfList(v) + ([Close] + rest));
      StepsDatumList(v, [Open] + stack, depth + 1, [Close] + rest);
      StepsOne(Rev(items) + ([Open] + stack), depth + 1, Close, rest);
      assert Rev(items) + ([Open] + stack) == Rev(items) + [Open] + stack;
      CloseWraps(items, stack, depth + 1);
      FromToSeq(v);
    } else {
      StepsOne(stack, depth, v, rest);
    }
  }

  /** Adding the tokens of a list's elements pushes the elements, so that
      the stack holds them newest first. */
  lemma {:induction false} StepsDatumList(v: Value, stack: seq<Value>, depth: int, rest: seq<Value>)
    requires IsDatumList(v)
    ensures IsList(v)
    ensures Steps(stack, depth, TokensOfList(v) + rest) == Steps(Rev(ToSeq(v)) + stack, depth, rest)
    decreases v, 0
  {
    DatumListIsList(v);
    if v.Null? {
      assert TokensOfList(v) + rest == rest;
      assert Rev(ToSeq(v)) + stack == stack;
    } else {
      var x, tail := v.car, ToSeq(v.cdr);
      assert TokensOfList(v) + rest == TokensOf(x) + (TokensOfList(v.cdr) + rest);
      StepsDatum(x, stack, depth, TokensOfList(v.cdr) + rest);
      StepsDatumList(v.cdr, [x] + stack, depth, rest);
      PushedItems(x, tail, stack);
    }
  }

  lemma PushedItems(x: Value, tail: seq<Value>, stack: seq<Value>)
    ensures Rev(tail) + ([x] + stack) == Rev([x] + tail) + stack
  {
    RevAppend([x], tail);
    assert Rev([x]) == [x];
  }

  /** Parsing the tokens that spell a program (a list of data) gives back
      its top-level items in order. */
  lemma ParseTokensOf(program: Value)
    requires IsDatumList(program)
    ensures IsList(program) && ParseTokens(TokensOfList(program)) == Ok(ToSeq(program))
  {
    StepsDatumList(program, [], 0, []);
    assert TokensOfList(program) + [] == TokensOfList(program);
    assert Rev(ToSeq(program)) + [] == Rev(ToSeq(program));
    RevRev(ToSeq(program));
  }
}
