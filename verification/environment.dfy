/** Frames of interpreter.c as an arena.  A frame has a list of bindings,
    newest first, and an optional parent.  A binding pairs a symbol name
    with a value cell; cells have identity, so that `set!` can overwrite
    the value of one binding in place and every frame that shares the
    binding sees the change. */
module Environment {
  import opened Values

  datatype Binding = Binding(name: string, cell: nat)

  datatype Frame = Frame(bindings: seq<Binding>, parent: Option<nat>)

  /** All frames and all value cells allocated so far. */
  datatype Store = Store(frames: seq<Frame>, cells: seq<Value>)

  /** Parents were allocated before their children, every binding's cell
      exists, and every stored value only mentions existing frames. */
  predicate Valid(st: Store)
  {
    (forall i | 0 <= i < |st.frames| :: st.frames[i].parent.Some? ==> st.frames[i].parent.value < i) &&
    (forall i, k | 0 <= i < |st.frames| && 0 <= k < |st.frames[i].bindings| ::
       st.frames[i].bindings[k].cell < |st.cells|) &&
    (forall c | 0 <= c < |st.cells| :: Refs(st.cells[c]) <= |st.frames|)
  }

  /** Frames and cells are never freed, and a frame's parent never changes. */
  predicate Grows(st: Store, st': Store)
  {
    |st.frames| <= |st'.frames| && |st.cells| <= |st'.cells| &&
    forall i | 0 <= i < |st.frames| :: st'.frames[i].parent == st.frames[i].parent
  }

  lemma GrowsTrans(a: Store, b: Store, c: Store)
    requires Grows(a, b) && Grows(b, c)
    ensures Grows(a, c)
  {
  }

  /** A new frame with no bindings and the given parent (talloc of a Frame
      followed by `bindings = makeNull()`). */
  function NewFrame(st: Store, parent: Option<nat>): (r: Store)
    requires Valid(st) && (parent.Some? ==> parent.value < |st.frames|)
    ensures Valid(r) && Grows(st, r)
    ensures r.frames == st.frames + [Frame([], parent)] && r.cells == st.cells
  {
    Store(st.frames + [Frame([], parent)], st.cells)
  }

  /** Prepends a binding of `name` to a fresh cell holding `v` to frame
      `f`, as `frame->bindings = cons(cons(symbol, v), frame->bindings)`. */
  function AddBinding(st: Store, f: nat, name: string, v: Value): (r: Store)
    requires Valid(st) && f < |st.frames| && Refs(v) <= |st.frames|
    ensures Valid(r) && Grows(st, r) && |r.frames| == |st.frames|
    ensures r.frames[f].bindings == [Binding(name, |st.cells|)] + st.frames[f].bindings
    ensures forall i | 0 <= i < |st.frames| && i != f :: r.frames[i] == st.frames[i]
    ensures r.cells == st.cells + [v]
  {
    var fr := st.frames[f];
    Store(st.frames[f := Frame([Binding(name, |st.cells|)] + fr.bindings, fr.parent)], st.cells + [v])
  }

  /** A fresh value cell not yet bound in any frame. */
  function NewCell(st: Store, v: Value): (r: Store)
    requires Valid(st) && Refs(v) <= |st.frames|
    ensures Valid(r) && Grows(st, r)
    ensures r.frames == st.frames && r.cells == st.cells + [v]
  {
    Store(st.frames, st.cells + [v])
  }

  /** Overwrites one value cell (`binding->c.cdr = v`). */
  function SetCell(st: Store, c: nat, v: Value): (r: Store)
    requires Valid(st) && c < |st.cells| && Refs(v) <= |st.frames|
    ensures Valid(r) && Grows(st, r)
    ensures r.frames == st.frames && |r.cells| == |st.cells|
    ensures r.cells[c] == v && forall d | 0 <= d < |st.cells| && d != c :: r.cells[d] == st.cells[d]
  {
    Store(st.frames, st.cells[c := v])
  }

  /** Replaces the whole bindings list of frame `f`. */
  function SetBindings(st: Store, f: nat, bs: seq<Binding>): (r: Store)
    requires Valid(st) && f < |st.frames|
    requires forall k | 0 <= k < |bs| :: bs[k].cell < |st.cells|
    ensures Valid(r) && Grows(st, r)
    ensures |r.frames| == |st.frames| && r.cells == st.cells
    ensures r.frames[f] == Frame(bs, st.frames[f].parent)
    ensures forall i | 0 <= i < |st.frames| && i != f :: r.frames[i] == st.frames[i]
  {
    Store(st.frames[f := Frame(bs, st.frames[f].parent)], st.cells)
  }

  // ----- lookup -----

  /** Position of the first binding of `name` at or after position `k`. */
  function FindFrom(bs: seq<Binding>, name: string, k: nat): (r: Option<nat>)
    requires k <= |bs|
    ensures r.Some? ==> k <= r.value < |bs| && bs[r.value].name == name
    ensures forall m | k <= m < (if r.Some? then r.value else |bs|) :: bs[m].name != name
    decreases |bs| - k
  {
    if k == |bs| then None
    else if bs[k].name == name then Some(k)
    else FindFrom(bs, name, k + 1)
  }

  /** The cell of the binding a symbol refers to from frame `f`: the first
      match in `f`'s bindings, otherwise the answer from the parent. */
  function Resolve(st: Store, f: nat, name: string): (r: Option<nat>)
    requires Valid(st) && f < |st.frames|
    ensures r.Some? ==> r.value < |st.cells|
    decreases f
  {
    var fr := st.frames[f];
    match FindFrom(fr.bindings, name, 0)
    case Some(k) => Some(fr.bindings[k].cell)
    case None => if fr.parent.Some? then Resolve(st, fr.parent.value, name) else None
  }

  /** The value a symbol has from frame `f`, or the unbound error. */
  function Lookup(st: Store, f: nat, name: string): (r: Result<Value>)
    requires Valid(st) && f < |st.frames|
    ensures r.Ok? <==> Resolve(st, f, name).Some?
    ensures r.Ok? ==> Refs(r.value) <= |st.frames|
    ensures r.Err? ==> r.error == UnboundSymbol(name)
  {
    match Resolve(st, f, name)
    case Some(c) => Ok(st.cells[c])
    case None => Err(UnboundSymbol(name))
  }

  /** Every binding visible from frame `f`, in the order the source scans
      them: the frame's own bindings newest first, then its parent's, and
      so on outward. */
  function Visible(st: Store, f: nat): (bs: seq<Binding>)
    requires Valid(st) && f < |st.frames|
    ensures forall k | 0 <= k < |bs| :: bs[k].cell < |st.cells|
    decreases f
  {
    var fr := st.frames[f];
    fr.bindings + if fr.parent.Some? then Visible(st, fr.parent.value) else []
  }

  lemma {:induction false} FindFromAppend(a: seq<Binding>, b: seq<Binding>, name: string)
    ensures FindFrom(a + b, name, 0) ==
      if FindFrom(a, name, 0).Some? then FindFrom(a, name, 0)
      else if FindFrom(b, name, 0).Some? then Some(|a| + FindFrom(b, name, 0).value)
      else None
  {
    var ra, rb := FindFrom(a, name, 0), FindFrom(b, name, 0);
    var k := if ra.Some? then ra.value else if rb.Some? then |a| + rb.value else |a + b|;
    FindFromAt(a + b, name, 0, k);
  }

  /** A search result is determined by its characterization. */
  lemma {:induction false} FindFromAt(bs: seq<Binding>, name: string, j: nat, k: nat)
    requires j <= k <= |bs|
    requires k < |bs| ==> bs[k].name == name
    requires forall m | j <= m < k :: bs[m].name != name
    ensures FindFrom(bs, name, j) == if k < |bs| then Some(k) else None
    decreases k - j
  {
    if j < k {
      FindFromAt(bs, name, j + 1, k);
    }
  }

  /** Lookup finds the first binding of the symbol in the visible bindings
      scanned newest first and outward, and fails exactly when no frame of
      the chain binds it. */
  lemma {:induction false} ResolveFirstVisible(st: Store, f: nat, name: string)
    requires Valid(st) && f < |st.frames|
    ensures var vs := Visible(st, f);
      Resolve(st, f, name) == if FindFrom(vs, name, 0).Some? then Some(vs[FindFrom(vs, name, 0).value].cell) else None
    decreases f
  {
    var fr := st.frames[f];
    var rest := if fr.parent.Some? then Visible(st, fr.parent.value) else [];
    FindFromAppend(fr.bindings, rest, name);
    if fr.parent.Some? {
      ResolveFirstVisible(st, fr.parent.value, name);
    }
  }

  /** `lookUpSymbol` in terms of the visible bindings: it fails exactly when
      none of them has the name, and otherwise yields the value of the first
      one that has it (so a frame's own binding shadows its parents', and a
      newer binding in a frame shadows an older one). */
  lemma LookupVisible(st: Store, f: nat, name: string)
    requires Valid(st) && f < |st.frames|
    ensures var vs := Visible(st, f);
      Lookup(st, f, name).Err? <==> forall k | 0 <= k < |vs| :: vs[k].name != name
    ensures var vs := Visible(st, f);
      forall k | 0 <= k < |vs| && vs[k].name == name && (forall m | 0 <= m < k :: vs[m].name != name) ::
        Lookup(st, f, name) == Ok(st.cells[vs[k].cell])
  {
    var vs := Visible(st, f);
    ResolveFirstVisible(st, f, name);
    forall k | 0 <= k < |vs| && vs[k].name == name && (forall m | 0 <= m < k :: vs[m].name != name)
      ensures Lookup(st, f, name) == Ok(st.cells[vs[k].cell])
    {
      FindFromAt(vs, name, 0, k);
    }
  }
}
