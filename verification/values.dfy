/** The tagged value shared by the tokenizer, the parser and the evaluator,
    and the error kinds with which every stage can stop. */
module Values {

  datatype Option<+T> = None | Some(value: T)

  /** Every `texit(1)` of the source becomes an `Err`: evaluation stops at
      the first error, there is no recovery. */
  datatype Result<+T> = Ok(value: T) | Err(error: Error)

  datatype Error =
    | SyntaxError              // tokenizer or parser rejected the input
    | Unterminated             // a comment or string runs into the end of the input
    | BufferOverrun            // a token longer than the tokenizer's 300-character buffers
    | AssertionFailure         // `car`/`cdr` applied to something that is not a pair
    | UnboundSymbol(name: string)
    | NoSuchBinding            // `set!` of a symbol no frame binds
    | ArityError               // wrong number of arguments to a form or procedure
    | TypeError                // an argument of the wrong tag
    | MalformedExpression      // a binding list or body of the wrong shape
    | DuplicateBinding         // a symbol bound twice in one `lambda`/`let`/`letrec`
    | UnspecifiedReference     // a `letrec` placeholder (or a closure) reached evaluation
    | NullOperator             // the empty list in operator position
    | NotCallable              // applying something that is neither closure nor primitive
    | FloatingPoint            // a double-precision path of a primitive (not modelled)
    | Undefined                // a spot where the source's behaviour is undefined
    | OutOfFuel                // evaluation exceeded the fuel bound

  /** The twelve native procedures installed in the global frame. */
  datatype Prim =
    | Add | ConsPrim | CarPrim | CdrPrim | NullPrim | Minus
    | Less | Greater | NumEqual | Modulo | Divide | Multiply

  datatype Value =
    | Int(i: int)
    | Double(d: real)
    | Bool(b: bool)
    | Str(s: string)                 // the text keeps its surrounding double quotes
    | Symbol(name: string)
    | Cons(car: Value, cdr: Value)
    | Null                           // the empty list
    | Closure(params: seq<string>, body: Value, frame: nat)
    | Primitive(prim: Prim)
    | Unspecified(expr: Value)       // a `letrec` placeholder remembering its initializer
    | Void
    | Open                           // "(" token
    | Close                          // ")" token

  /** The text the source reads through the `s` field of a value: defined
      for symbols, strings and booleans only; for every other tag the field
      is some other member of the union, and comparing it is undefined. */
  function KeyText(v: Value): (r: Option<string>)
    ensures r.Some? <==> (v.Symbol? || v.Str? || v.Bool?)
  {
    match v
    case Symbol(n) => Some(n)
    case Str(s) => Some(s)
    case Bool(b) => Some(if b then "#t" else "#f")
    case _ => None
  }

  function Max(a: nat, b: nat): nat { if a < b then b else a }

  /** One more than the largest frame index a value refers to (through the
      closures inside it), so that `Refs(v) <= n` says every frame the value
      mentions is among the first `n`. */
  function Refs(v: Value): (n: nat)
    ensures v.Cons? ==> Refs(v.car) <= n && Refs(v.cdr) <= n
  {
    match v
    case Cons(a, d) => Max(Refs(a), Refs(d))
    case Closure(_, body, fr) => Max(fr + 1, Refs(body))
    case Unspecified(e) => Refs(e)
    case _ => 0
  }
}
