/** The cons-list algebra of linkedlist.c, over immutable `Value`s.  A
    proper list is a chain of `Cons` cells ending in `Null`; `ToSeq` is its
    abstract contents. */
module LinkedList {
  import opened Values

  predicate IsList(v: Value)
  {
    v.Null? || (v.Cons? && IsList(v.cdr))
  }

  function ToSeq(v: Value): seq<Value>
    requires IsList(v)
  {
    if v.Null? then [] else [v.car] + ToSeq(v.cdr)
  }

  function FromSeq(s: seq<Value>): (v: Value)
    ensures IsList(v) && ToSeq(v) == s
  {
    if s == [] then Null else Cons(s[0], FromSeq(s[1..]))
  }

  lemma {:induction false} FromToSeq(v: Value)
    requires IsList(v)
    ensures FromSeq(ToSeq(v)) == v
  {
    if v.Cons? {
      FromToSeq(v.cdr);
      assert ToSeq(v)[1..] == ToSeq(v.cdr);
    }
  }

  /** A successful sequence result as a list value. */
  function AsList(r: Result<seq<Value>>): (l: Result<Value>)
    ensures l.Ok? <==> r.Ok?
    ensures l.Ok? ==> IsList(l.value) && ToSeq(l.value) == r.value
    ensures l.Err? ==> l.error == r.error
  {
    match r
    case Ok(s) => Ok(FromSeq(s))
    case Err(e) => Err(e)
  }

  /** The sequence in reverse order: the reference `reverse` is checked against. */
  function Rev(s: seq<Value>): seq<Value>
  {
    if s == [] then [] else Rev(s[1..]) + [s[0]]
  }

  lemma {:induction false} RevAt(s: seq<Value>, k: nat)
    requires k < |s|
    ensures |Rev(s)| == |s| && Rev(s)[k] == s[|s| - 1 - k]
  {
    if |s| > 1 {
      RevAt(s[1..], if k < |s| - 1 then k else 0);
    }
  }

  /** Reversal keeps the length (linkedlist.c:53-60). */
  lemma {:induction false} RevLength(s: seq<Value>)
    ensures |Rev(s)| == |s|
  {
    if s != [] {
      RevAt(s, 0);
    }
  }

  lemma {:induction false} RevAppend(a: seq<Value>, b: seq<Value>)
    ensures Rev(a + b) == Rev(b) + Rev(a)
  {
    if a == [] {
      assert a + b == b;
    } else {
      assert (a + b)[1..] == a[1..] + b;
      RevAppend(a[1..], b);
    }
  }

  /** Reversing twice gives back the original elements in the original order. */
  lemma {:induction false} RevRev(s: seq<Value>)
    ensures Rev(Rev(s)) == s
  {
    if s != [] {
      RevAppend(Rev(s[1..]), [s[0]]);
      RevRev(s[1..]);
      assert Rev([s[0]]) == [s[0]];
    }
  }

  /** makeNull: the empty list. */
  function MakeNull(): (r: Value)
    ensures IsList(r) && ToSeq(r) == []
  {
    Null
  }

  /** cons: a pair whose car and cdr are exactly the two arguments. */
  function ConsCell(newCar: Value, newCdr: Value): (r: Value)
    ensures r.Cons? && Car(r) == newCar && Cdr(r) == newCdr
    ensures IsList(newCdr) ==> IsList(r) && ToSeq(r) == [newCar] + ToSeq(newCdr)
  {
    Cons(newCar, newCdr)
  }

  /** car: defined on pairs only (the source asserts it); on a list it is
      the first element. */
  function Car(list: Value): (r: Value)
    requires list.Cons?
    ensures IsList(list) ==> ToSeq(list) != [] && r == ToSeq(list)[0]
  {
    list.car
  }

  /** cdr: defined on pairs only; on a list it is the list without its
      first element. */
  function Cdr(list: Value): (r: Value)
    requires list.Cons?
    ensures IsList(list) ==> IsList(r) && ToSeq(r) == ToSeq(list)[1..]
  {
    list.cdr
  }

  /** isNull: true exactly for the empty-list tag, which among lists is the
      one with no elements. */
  function IsNull(value: Value): (r: bool)
    ensures r <==> (IsList(value) && ToSeq(value) == [])
  {
    value.Null?
  }

  /** reverse: walks the list once, consing each element onto an
      accumulator; the result has the elements in reverse order. */
  method Reverse(list: Value) returns (reversed: Value)
    requires IsList(list)
    ensures IsList(reversed) && ToSeq(reversed) == Rev(ToSeq(list))
  {
    reversed := MakeNull();
    var cur := list;
    while !IsNull(cur)
      invariant IsList(cur) && IsList(reversed)
      invariant Rev(ToSeq(list)) == Rev(ToSeq(cur)) + ToSeq(reversed)
      decreases cur
    {
      reversed := ConsCell(Car(cur), reversed);
      cur := Cdr(cur);
    }
  }

  /** length: 0 for anything that is not a pair, otherwise the number of
      cells up to the empty list. */
  method Length(value: Value) returns (c: nat)
    requires value.Cons? ==> IsList(value)
    ensures c == (if value.Cons? then |ToSeq(value)| else 0)
  {
    if !value.Cons? {
      return 0;
    }
    c := 0;
    var cur := value;
    while !cur.Null?
      invariant IsList(cur)
      invariant c + |ToSeq(cur)| == |ToSeq(value)|
      decreases cur
    {
      c := c + 1;
      cur := cur.cdr;
    }
  }
}
