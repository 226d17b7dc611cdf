/** The twelve native procedures of interpreter.c, on their integer paths.
    Each receives its evaluated arguments as one list.  A path that would
    compute with `double` or `float` values stops with `FloatingPoint`. */
module Primitives {
  import opened Values
  import opened LinkedList

  function Abs(n: int): nat { if n < 0 then -n else n }

  /** C's integer `/`: the quotient truncated toward zero. */
  function CQuot(a: int, b: int): int
    requires b != 0
  {
    var q := Abs(a) / Abs(b);
    if (a < 0) == (b < 0) then q else -q
  }

  /** C's integer `%`: the remainder takes the sign of the dividend. */
  function CRem(a: int, b: int): (r: int)
    requires b != 0
    ensures a == b * CQuot(a, b) + r
    ensures Abs(r) < Abs(b)
    ensures r != 0 ==> (r < 0 <==> a < 0)
  {
    var q := Abs(a) / Abs(b);
    var m := Abs(a) % Abs(b);
    assert Abs(a) == Abs(b) * q + m;
    if a < 0 then -m else m
  }

  predicate IsNumber(v: Value) { v.Int? || v.Double? }

  /** The argument checks shared by the two-argument primitives: no
      arguments, a first argument that is the empty list, or a single
      argument is too few; a third argument is too many. */
  function TwoArgs(args: Value): (r: Result<(Value, Value)>)
    ensures r.Ok? <==> args.Cons? && !args.car.Null? && args.cdr.Cons? && args.cdr.cdr.Null?
    ensures r.Ok? ==> r.value == (args.car, args.cdr.car)
    ensures (args.Null? || (args.Cons? && args.car.Null?)) ==> r == Err(ArityError)
  {
    if args.Null? then Err(ArityError)
    else if !args.Cons? then Err(AssertionFailure)
    else if args.car.Null? || args.cdr.Null? then Err(ArityError)
    else if !args.cdr.Cons? then Err(AssertionFailure)
    else if !args.cdr.cdr.Null? then Err(ArityError)
    else Ok((args.car, args.cdr.car))
  }

  /** null?: exactly one argument; true exactly when it is the empty list. */
  function PrimNull(args: Value): (r: Result<Value>)
    ensures r.Ok? <==> args.Cons? && args.cdr.Null?
    ensures r.Ok? ==> r.value == Bool(args.car.Null?)
  {
    if args.Null? then Err(ArityError)
    else if !args.Cons? then Err(AssertionFailure)
    else if !args.cdr.Null? then Err(ArityError)
    else Ok(Bool(args.car.Null?))
  }

  /** cons: a pair of exactly the two arguments; an empty-list first
      argument is rejected like a missing one. */
  function PrimCons(args: Value): (r: Result<Value>)
    ensures r.Ok? <==> TwoArgs(args).Ok?
    ensures r.Ok? ==> r.value == Cons(args.car, args.cdr.car)
  {
    match TwoArgs(args)
    case Ok((a, b)) => Ok(ConsCell(a, b))
    case Err(e) => Err(e)
  }

  /** car: one pair argument; gives its first part. */
  function PrimCar(args: Value): (r: Result<Value>)
    ensures r.Ok? <==> args.Cons? && args.car.Cons? && args.cdr.Null?
    ensures r.Ok? ==> r.value == args.car.car
    ensures args.Cons? && !args.car.Null? && !args.car.Cons? ==> r == Err(TypeError)
  {
    if args.Null? then Err(ArityError)
    else if !args.Cons? then Err(AssertionFailure)
    else if args.car.Null? then Err(ArityError)
    else if !args.car.Cons? then Err(TypeError)
    else if !args.cdr.Null? then Err(ArityError)
    else Ok(Car(args.car))
  }

  /** cdr: gives the second part of its first argument, which must be a
      pair (the list library's assertion); further arguments are not
      checked. */
  function PrimCdr(args: Value): (r: Result<Value>)
    ensures r.Ok? <==> args.Cons? && args.car.Cons?
    ensures r.Ok? ==> r.value == args.car.cdr
  {
    if args.Null? then Err(ArityError)
    else if !args.Cons? then Err(AssertionFailure)
    else if args.car.Null? then Err(ArityError)
    else if !args.car.Cons? then Err(AssertionFailure)
    else Ok(Cdr(args.car))
  }

  /** The type dispatch of `-`, `<`, `>`, `=` and `/`: two integers take the
      integer path, any other pair of numbers a floating-point path, and
      anything else is an invalid argument. */
  function NumericPair(a: Value, b: Value): (r: Result<(int, int)>)
    ensures r.Ok? <==> a.Int? && b.Int?
    ensures r.Ok? ==> r.value == (a.i, b.i)
    ensures r.Err? ==> (r.error == FloatingPoint <==> IsNumber(a) && IsNumber(b))
    ensures r.Err? ==> r.error == FloatingPoint || r.error == TypeError
  {
    if a.Int? && b.Int? then Ok((a.i, b.i))
    else if IsNumber(a) && IsNumber(b) then Err(FloatingPoint)
    else Err(TypeError)
  }

  /** `-`: the difference of two integers. */
  function PrimMinus(args: Value): (r: Result<Value>)
    ensures r.Ok? <==> TwoArgs(args).Ok? && args.car.Int? && args.cdr.car.Int?
    ensures r.Ok? ==> r.value == Int(args.car.i - args.cdr.car.i)
  {
    match TwoArgs(args)
    case Err(e) => Err(e)
    case Ok((a, b)) =>
      match NumericPair(a, b)
      case Err(e) => Err(e)
      case Ok((x, y)) => Ok(Int(x - y))
  }

  /** `<`, `>` and `=` on two integers. */
  function PrimCompare(p: Prim, args: Value): (r: Result<Value>)
    requires p == Less || p == Greater || p == NumEqual
    ensures r.Ok? <==> TwoArgs(args).Ok? && args.car.Int? && args.cdr.car.Int?
    ensures r.Ok? ==> r.value.Bool?
    ensures r.Ok? ==> var x, y := args.car.i, args.cdr.car.i;
      r.value.b == (if p == Less then x < y else if p == Greater then x > y else x == y)
  {
    match TwoArgs(args)
    case Err(e) => Err(e)
    case Ok((a, b)) =>
      match NumericPair(a, b)
      case Err(e) => Err(e)
      case Ok((x, y)) => Ok(Bool(if p == Less then x < y else if p == Greater then x > y else x == y))
  }

  lemma RealQuotient(x: int, y: int)
    requires y != 0
    ensures (x as real / y as real) * y as real == x as real
  {
  }

  /** `/` on two integers: an integer when the division is exact, otherwise
      the (non-integral) quotient as a double; dividing by zero is
      undefined. */
  function PrimDivide(args: Value): (r: Result<Value>)
    ensures r.Ok? <==> TwoArgs(args).Ok? && args.car.Int? && args.cdr.car.Int? && args.cdr.car.i != 0
    ensures r.Ok? ==> var x, y := args.car.i, args.cdr.car.i;
      (r.value.Int? && r.value.i * y == x) || (r.value.Double? && r.value.d * y as real == x as real)
    ensures r.Ok? ==> (r.value.Int? <==> CRem(args.car.i, args.cdr.car.i) == 0)
  {
    match TwoArgs(args)
    case Err(e) => Err(e)
    case Ok((a, b)) =>
      match NumericPair(a, b)
      case Err(e) => Err(e)
      case Ok((x, y)) =>
        if y == 0 then Err(Undefined)
        else if CRem(x, y) == 0 then Ok(Int(CQuot(x, y)))
        else
          RealQuotient(x, y);
          Ok(Double(x as real / y as real))
  }

  /** modulo: integers only, with C's remainder (the sign of the dividend);
      a zero divisor is undefined. */
  function PrimModulo(args: Value): (r: Result<Value>)
    ensures r.Ok? <==> TwoArgs(args).Ok? && args.car.Int? && args.cdr.car.Int? && args.cdr.car.i != 0
    ensures r.Ok? ==> r.value == Int(CRem(args.car.i, args.cdr.car.i))
    ensures TwoArgs(args).Ok? && !(args.car.Int? && args.cdr.car.Int?) ==> r == Err(TypeError)
  {
    match TwoArgs(args)
    case Err(e) => Err(e)
    case Ok((a, b)) =>
      if a.Int? && b.Int? then
        if b.i == 0 then Err(Undefined) else Ok(Int(CRem(a.i, b.i)))
      else Err(TypeError)
  }

  // ----- + and * -----

  /** The loop of `+` (`*` when `product`) from the current cursor, with
      the integer accumulator and whether a double was seen. */
  function FoldFrom(product: bool, args: Value, acc: int, sawDouble: bool): (r: Result<Value>)
    ensures r.Ok? ==> r.value.Int?
  {
    if args.Null? then (if sawDouble then Err(FloatingPoint) else Ok(Int(acc)))
    else if !args.Cons? then Err(AssertionFailure)
    else if args.car.Int? then FoldFrom(product, args.cdr, if product then acc * args.car.i else acc + args.car.i, sawDouble)
    else if args.car.Double? then FoldFrom(product, args.cdr, acc, true)
    else Err(TypeError)
  }

  function PrimAdd(args: Value): Result<Value>
  {
    FoldFrom(false, args, 0, false)
  }

  function PrimMultiply(args: Value): Result<Value>
  {
    FoldFrom(true, args, 1, false)
  }

  predicate AllNumbers(s: seq<Value>)
  {
    s == [] || (IsNumber(s[0]) && AllNumbers(s[1..]))
  }

  predicate HasDouble(s: seq<Value>)
  {
    s != [] && (s[0].Double? || HasDouble(s[1..]))
  }

  /** The sum and the product of the integers of a sequence. */
  function Sum(s: seq<Value>): int
  {
    if s == [] then 0 else (if s[0].Int? then s[0].i else 0) + Sum(s[1..])
  }

  function Product(s: seq<Value>): int
  {
    if s == [] then 1 else (if s[0].Int? then s[0].i else 1) * Product(s[1..])
  }

  lemma {:induction false} FoldFromList(product: bool, args: Value, acc: int, sawDouble: bool)
    requires IsList(args)
    ensures var s := ToSeq(args);
      FoldFrom(product, args, acc, sawDouble) ==
        if !AllNumbers(s) then Err(TypeError)
        else if sawDouble || HasDouble(s) then Err(FloatingPoint)
        else Ok(Int(if product then acc * Product(s) else acc + Sum(s)))
  {
    if args.Cons? {
      var s := ToSeq(args);
      assert s[1..] == ToSeq(args.cdr);
      if args.car.Int? {
        var acc' := if product then acc * args.car.i else acc + args.car.i;
        FoldFromList(product, args.cdr, acc', sawDouble);
        if product {
          assert acc' * Product(s[1..]) == acc * Product(s);
        }
      } else if args.car.Double? {
        FoldFromList(product, args.cdr, acc, true);
      }
    }
  }

  /** `+` on a list of numbers is the sum of its integers and `*` their
      product; any argument that is not a number is an error, and a double
      argument takes the floating-point path. */
  lemma AddMultiply(args: Value)
    requires IsList(args)
    ensures var s := ToSeq(args);
      PrimAdd(args) == if !AllNumbers(s) then Err(TypeError) else if HasDouble(s) then Err(FloatingPoint) else Ok(Int(Sum(s)))
    ensures var s := ToSeq(args);
      PrimMultiply(args) == if !AllNumbers(s) then Err(TypeError) else if HasDouble(s) then Err(FloatingPoint) else Ok(Int(Product(s)))
  {
    FoldFromList(false, args, 0, false);
    FoldFromList(true, args, 1, false);
  }

  /** primitiveAdd and primitiveMultiply: one loop over the arguments with
      an accumulator. */
  method Fold(product: bool, args: Value) returns (r: Result<Value>)
    ensures r == FoldFrom(product, args, if product then 1 else 0, false)
  {
    var isDouble := false;
    var acc := if product then 1 else 0;
    var cur := args;
    while !IsNull(cur)
      invariant FoldFrom(product, args, if product then 1 else 0, false) == FoldFrom(product, cur, acc, isDouble)
      decreases cur
    {
      if !cur.Cons? {
        return Err(AssertionFailure);
      }
      var item := Car(cur);
      if item.Double? {
        isDouble := true;
      } else if item.Int? {
        acc := if product then acc * item.i else acc + item.i;
      } else {
        return Err(TypeError);
      }
      cur := Cdr(cur);
    }
    if isDouble {
      return Err(FloatingPoint);
    }
    return Ok(Int(acc));
  }

  /** The procedure a primitive value stands for. */
  function CallPrimitive(p: Prim, args: Value): (r: Result<Value>)
    ensures r.Ok? ==> Refs(r.value) <= Refs(args)
  {
    match p
    case Add => PrimAdd(args)
    case ConsPrim => PrimCons(args)
    case CarPrim => PrimCar(args)
    case CdrPrim => PrimCdr(args)
    case NullPrim => PrimNull(args)
    case Minus => PrimMinus(args)
    case Less => PrimCompare(p, args)
    case Greater => PrimCompare(p, args)
    case NumEqual => PrimCompare(p, args)
    case Modulo => PrimModulo(args)
    case Divide => PrimDivide(args)
    case Multiply => PrimMultiply(args)
  }

  /** `function->pf(args)`: runs the primitive's own code. */
  method Call(p: Prim, args: Value) returns (r: Result<Value>)
    ensures r == CallPrimitive(p, args)
  {
    if p == Add {
      r := Fold(false, args);
    } else if p == Multiply {
      r := Fold(true, args);
    } else {
      r := CallPrimitive(p, args);
    }
  }
}
