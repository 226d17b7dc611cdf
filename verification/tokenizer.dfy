/** The lexer of tokenizer.c, reading a character sequence instead of
    standard input.  `Lex` is the token-by-token reference definition;
    `Tokenize` is the source's character loop (buffers, index counters, a
    prepended accumulator reversed at the end, and the pushed-back
    character as an index that is not advanced), proved equal to it. */
module Tokenizer {
  import opened Values
  import opened LinkedList

  /** Size of the source's `char buffer[301]` and `currString[301]`. */
  const BufferSize: nat := 301

  predicate IsAlpha(c: char) { 'a' <= c <= 'z' || 'A' <= c <= 'Z' }

  predicate IsDigit(c: char) { '0' <= c <= '9' }

  predicate IsInitial(c: char)
  {
    IsAlpha(c) || c == '!' || c == '$' || c == '%' || c == '&' || c == '*' || c == '/' || c == ':' ||
    c == '<' || c == '=' || c == '>' || c == '?' || c == '~' || c == '_' || c == '^'
  }

  predicate IsSubsequent(c: char)
  {
    IsInitial(c) || IsDigit(c) || c == '.' || c == '+' || c == '-'
  }

  predicate IsValid(c: char)
  {
    IsSubsequent(c) || c == ' ' || c == '\n'
  }

  /** The characters a numeric token is made of. */
  predicate IsNumberChar(c: char)
  {
    IsDigit(c) || c == '.' || c == '-' || c == '+'
  }

  /** Every initial character may continue a symbol, and every such
      character is accepted by the lexer. */
  lemma CharClassesNested(c: char)
    ensures IsInitial(c) ==> IsSubsequent(c)
    ensures IsSubsequent(c) ==> IsValid(c)
  {
  }

  // ----- maximal runs -----

  /** End of the maximal run of number characters starting at `j`. */
  function NumberEnd(s: seq<char>, j: nat): (k: nat)
    requires j <= |s|
    ensures j <= k <= |s|
    ensures forall m | j <= m < k :: IsNumberChar(s[m])
    ensures k < |s| ==> !IsNumberChar(s[k])
    decreases |s| - j
  {
    if j < |s| && IsNumberChar(s[j]) then NumberEnd(s, j + 1) else j
  }

  /** End of the maximal run of symbol characters starting at `j`. */
  function SymbolEnd(s: seq<char>, j: nat): (k: nat)
    requires j <= |s|
    ensures j <= k <= |s|
    ensures forall m | j <= m < k :: IsSubsequent(s[m])
    ensures k < |s| ==> !IsSubsequent(s[k])
    decreases |s| - j
  {
    if j < |s| && IsSubsequent(s[j]) then SymbolEnd(s, j + 1) else j
  }

  /** End of the maximal run of decimal digits starting at `j`. */
  function DigitEnd(s: seq<char>, j: nat): (k: nat)
    requires j <= |s|
    ensures j <= k <= |s|
    ensures forall m | j <= m < k :: IsDigit(s[m])
    ensures k < |s| ==> !IsDigit(s[k])
    decreases |s| - j
  {
    if j < |s| && IsDigit(s[j]) then DigitEnd(s, j + 1) else j
  }

  /** Position of the first `c` at or after `j`, if any. */
  function FindChar(s: seq<char>, j: nat, c: char): (r: Option<nat>)
    requires j <= |s|
    ensures r.Some? ==> j <= r.value < |s| && s[r.value] == c
    ensures forall m | j <= m < (if r.Some? then r.value else |s|) :: s[m] != c
    decreases |s| - j
  {
    if j == |s| then None
    else if s[j] == c then Some(j)
    else FindChar(s, j + 1, c)
  }

  // ----- numeric conversions -----

  function DigitsValue(ds: seq<char>): nat
  {
    if ds == [] then 0
    else DigitsValue(ds[..|ds| - 1]) * 10 + (if IsDigit(ds[|ds| - 1]) then ds[|ds| - 1] as int - '0' as int else 0)
  }

  function Pow10(n: nat): (r: nat)
    ensures r > 0
  {
    if n == 0 then 1 else 10 * Pow10(n - 1)
  }

  /** Index just after an optional leading sign, and whether it was `-`. */
  function SignEnd(run: seq<char>): (r: (bool, nat))
    ensures r.1 <= |run|
  {
    if |run| > 0 && (run[0] == '+' || run[0] == '-') then (run[0] == '-', 1) else (false, 0)
  }

  /** `strtol(buffer, &ptr, 10)` on a run of number characters: an optional
      sign and the longest digit prefix after it; no digits give 0. */
  function StrToL(run: seq<char>): int
  {
    var (neg, j) := SignEnd(run);
    var v: int := DigitsValue(run[j..DigitEnd(run, j)]);
    if neg then -v else v
  }

  /** `strtod` on a run of number characters (no exponent can occur):
      sign, whole digits, optionally `.` and fraction digits, taken as an
      exact decimal; without any digit nothing is converted and the value
      is 0. */
  function StrToD(run: seq<char>): real
  {
    var (neg, j) := SignEnd(run);
    var k := DigitEnd(run, j);
    var whole := DigitsValue(run[j..k]) as real;
    var v :=
      if k < |run| && run[k] == '.' then
        var m := DigitEnd(run, k + 1);
        if k == j && m == k + 1 then 0.0
        else whole + DigitsValue(run[k + 1..m]) as real / Pow10(m - k - 1) as real
      else whole;
    if neg then -v else v
  }

  /** The token a maximal run of number characters becomes. */
  function NumberToken(run: seq<char>): (t: Value)
    ensures t.Symbol? <==> (run == "+" || run == "-")
    ensures t.Symbol? ==> t.name == run
    ensures t.Double? <==> (run != "+" && run != "-" && '.' in run)
    ensures t.Int? <==> (run != "+" && run != "-" && '.' !in run)
  {
    if run == "+" || run == "-" then Symbol(run)
    else if '.' in run then Double(StrToD(run))
    else Int(StrToL(run))
  }

  // ----- the reference lexer -----

  function PrependTokens(ts: seq<Value>, r: Result<seq<Value>>): Result<seq<Value>>
  {
    match r
    case Ok(rest) => Ok(ts + rest)
    case Err(e) => Err(e)
  }

  /** What the lexer does at one position: the input has ended, a
      character is skipped to a later position, a token is produced and
      lexing resumes at a later position, or lexing fails. */
  datatype Scan = End | Skip(next: nat) | Emit(token: Value, next: nat) | Fail(error: Error)

  /** `;`: skip to just after the end of the line. */
  function ScanComment(s: seq<char>, i: nat): (r: Scan)
    requires i < |s|
    ensures r.Skip? ==> i < r.next <= |s|
  {
    match FindChar(s, i + 1, '\n')
    case None => Fail(Unterminated)
    case Some(j) => Skip(j + 1)
  }

  /** A number character: the maximal run of them is one token. */
  function ScanNumber(s: seq<char>, i: nat): (r: Scan)
    requires i < |s| && IsNumberChar(s[i])
    ensures r.Emit? ==> i < r.next <= |s|
  {
    var k := NumberEnd(s, i);
    if k - i > BufferSize - 1 then Fail(BufferOverrun)
    else Emit(NumberToken(s[i..k]), k)
  }

  /** `"`: everything up to and including the closing quote. */
  function ScanString(s: seq<char>, i: nat): (r: Scan)
    requires i < |s|
    ensures r.Emit? ==> i < r.next <= |s|
  {
    var q := FindChar(s, i + 1, '"');
    var e := if q.Some? then q.value else |s|;
    if e - (i + 1) > BufferSize - 3 then Fail(BufferOverrun)
    else if q.None? then Fail(Unterminated)
    else Emit(Str(s[i..e + 1]), e + 1)
  }

  /** `#`: the next character must be `t` or `f`. */
  function ScanHash(s: seq<char>, i: nat): (r: Scan)
    requires i < |s|
    ensures r.Emit? ==> i < r.next <= |s|
  {
    if i + 1 < |s| && s[i + 1] == 't' then Emit(Bool(true), i + 2)
    else if i + 1 < |s| && s[i + 1] == 'f' then Emit(Bool(false), i + 2)
    else Fail(SyntaxError)
  }

  /** An initial character: the maximal run of subsequent characters. */
  function ScanSymbol(s: seq<char>, i: nat): (r: Scan)
    requires i < |s| && IsInitial(s[i])
    ensures r.Emit? ==> i < r.next <= |s|
  {
    var k := SymbolEnd(s, i);
    if k - i > BufferSize - 1 then Fail(BufferOverrun)
    else Emit(Symbol(s[i..k]), k)
  }

  /** One step of the lexer at position `i`, the branches in the source's
      order. */
  function ScanAt(s: seq<char>, i: nat): (r: Scan)
    requires i <= |s|
    ensures r.End? <==> i == |s|
    ensures (r.Skip? || r.Emit?) ==> i < r.next <= |s|
  {
    if i == |s| then End
    else
      var c := s[i];
      if c == ';' then ScanComment(s, i)
      else if c == '(' then Emit(Open, i + 1)
      else if c == ')' then Emit(Close, i + 1)
      else if IsNumberChar(c) then ScanNumber(s, i)
      else if c == '"' then ScanString(s, i)
      else if c == '#' then ScanHash(s, i)
      else if IsInitial(c) then ScanSymbol(s, i)
      else if !IsValid(c) then Fail(SyntaxError)
      else Skip(i + 1)
  }

  /** The tokens of `s` from position `i` on, in input order. */
  function Lex(s: seq<char>, i: nat): Result<seq<Value>>
    requires i <= |s|
    decreases |s| - i
  {
    match ScanAt(s, i)
    case End => Ok([])
    case Skip(k) => Lex(s, k)
    case Emit(t, k) => PrependTokens([t], Lex(s, k))
    case Fail(e) => Err(e)
  }

  lemma PrependTokensAssoc(a: seq<Value>, b: seq<Value>, r: Result<seq<Value>>)
    ensures PrependTokens(a, PrependTokens(b, r)) == PrependTokens(a + b, r)
  {
    if r.Ok? {
      assert a + (b + r.value) == (a + b) + r.value;
    }
  }

  lemma PrependNothing(r: Result<seq<Value>>)
    ensures PrependTokens([], r) == r
  {
    if r.Ok? {
      assert [] + r.value == r.value;
    }
  }

  // ----- the character loop -----

  /** The number branch: copies the maximal run of number characters into a
      301-character buffer and classifies it; the character that ends the
      run is pushed back, so the next read starts at the run's end. */
  method ReadNumber(input: seq<char>, i: nat) returns (r: Scan)
    requires i < |input| && IsNumberChar(input[i])
    ensures r == ScanNumber(input, i)
  {
    var buffer := new char[BufferSize];
    var isDouble := false;
    var index := 0;
    var j := i;
    while j < |input| && IsNumberChar(input[j])
      invariant i <= j <= |input| && index == j - i && index < BufferSize
      invariant buffer[..index] == input[i..j]
      invariant isDouble <==> '.' in input[i..j]
      invariant NumberEnd(input, i) == NumberEnd(input, j)
    {
      if index == BufferSize - 1 {
        return Fail(BufferOverrun);
      }
      if input[j] == '.' {
        isDouble := true;
      }
      assert input[i..j + 1] == input[i..j] + [input[j]];
      buffer[index] := input[j];
      index := index + 1;
      j := j + 1;
    }
    var text := buffer[..index];
    var token;
    if text == "+" || text == "-" {
      token := Symbol(text);
    } else if !isDouble {
      token := Int(StrToL(text));
    } else {
      token := Double(StrToD(text));
    }
    return Emit(token, j);
  }

  /** The string branch: copies the opening quote, the characters up to the
      closing quote and the closing quote itself; the next read starts after
      the closing quote. */
  method ReadString(input: seq<char>, i: nat) returns (r: Scan)
    requires i < |input| && input[i] == '"'
    ensures r == ScanString(input, i)
  {
    var currString := new char[BufferSize];
    var index := 0;
    currString[index] := input[i];
    index := index + 1;
    var j := i + 1;
    while j < |input| && input[j] != '"'
      invariant i + 1 <= j <= |input| && index == j - i && index < BufferSize - 1
      invariant currString[..index] == input[i..j]
      invariant FindChar(input, i + 1, '"') == FindChar(input, j, '"')
    {
      if index == BufferSize - 2 {
        return Fail(BufferOverrun);
      }
      assert input[i..j + 1] == input[i..j] + [input[j]];
      currString[index] := input[j];
      index := index + 1;
      j := j + 1;
    }
    if j == |input| {
      return Fail(Unterminated);
    }
    currString[index] := '"';
    assert currString[..index + 1] == currString[..index] + ['"'];
    assert input[i..j + 1] == input[i..j] + ['"'];
    return Emit(Str(currString[..index + 1]), j + 1);
  }

  /** The symbol branch: the maximal run of subsequent characters after an
      initial one, pushed-back terminator as for numbers. */
  method ReadSymbol(input: seq<char>, i: nat) returns (r: Scan)
    requires i < |input| && IsInitial(input[i])
    ensures r == ScanSymbol(input, i)
  {
    var buffer := new char[BufferSize];
    var index := 0;
    var j := i;
    while j < |input| && IsSubsequent(input[j])
      invariant i <= j <= |input| && index == j - i && index < BufferSize
      invariant buffer[..index] == input[i..j]
      invariant SymbolEnd(input, i) == SymbolEnd(input, j)
    {
      if index == BufferSize - 1 {
        return Fail(BufferOverrun);
      }
      assert input[i..j + 1] == input[i..j] + [input[j]];
      buffer[index] := input[j];
      index := index + 1;
      j := j + 1;
    }
    return Emit(Symbol(buffer[..index]), j);
  }

  /** The comment branch: the position just after the end of the line. */
  method SkipComment(input: seq<char>, i: nat) returns (r: Scan)
    requires i < |input| && input[i] == ';'
    ensures r == ScanComment(input, i)
  {
    var j := i + 1;
    while j < |input| && input[j] != '\n'
      invariant i + 1 <= j <= |input|
      invariant FindChar(input, i + 1, '\n') == FindChar(input, j, '\n')
    {
      j := j + 1;
    }
    if j == |input| {
      return Fail(Unterminated);
    }
    return Skip(j + 1);
  }

  /** tokenize: reads the whole input and returns its tokens as a list in
      input order, or the first lexical error. */
  method Tokenize(input: seq<char>) returns (r: Result<Value>)
    ensures r == AsList(Lex(input, 0))
  {
    var list := MakeNull();
    var i := 0;
    PrependNothing(Lex(input, 0));
    while i < |input|
      invariant 0 <= i <= |input|
      invariant IsList(list)
      invariant Lex(input, 0) == PrependTokens(Rev(ToSeq(list)), Lex(input, i))
      decreases |input| - i
    {
      var charRead := input[i];
      ghost var before := Rev(ToSeq(list));
      var step: Scan;
      if charRead == ';' {
        step := SkipComment(input, i);
      } else if charRead == '(' {
        step := Emit(Open, i + 1);
      } else if charRead == ')' {
        step := Emit(Close, i + 1);
      } else if IsNumberChar(charRead) {
        step := ReadNumber(input, i);
      } else if charRead == '"' {
        step := ReadString(input, i);
      } else if charRead == '#' {
        if i + 1 < |input| && input[i + 1] == 't' {
          step := Emit(Bool(true), i + 2);
        } else if i + 1 < |input| && input[i + 1] == 'f' {
          step := Emit(Bool(false), i + 2);
        } else {
          step := Fail(SyntaxError);
        }
      } else if IsInitial(charRead) {
        step := ReadSymbol(input, i);
      } else if !IsValid(charRead) {
        step := Fail(SyntaxError);
      } else {
        step := Skip(i + 1);
      }
      assert step == ScanAt(input, i);
      match step
      case Fail(e) =>
        return Err(e);
      case Skip(k) =>
        i := k;
      case Emit(token, k) =>
        list := ConsCell(token, list);
        i := k;
        PrependTokensAssoc(before, [token], Lex(input, i));
    }
    var revList := Reverse(list);
    FromToSeq(revList);
    assert Rev(ToSeq(list)) + [] == Rev(ToSeq(list));
    return Ok(revList);
  }

  // ----- properties of the reference lexer -----

  /** A run end is determined by its characterization. */
  lemma {:induction false} NumberEndAt(s: seq<char>, j: nat, k: nat)
    requires j <= k <= |s|
    requires forall m | j <= m < k :: IsNumberChar(s[m])
    requires k < |s| ==> !IsNumberChar(s[k])
    ensures NumberEnd(s, j) == k
    decreases k - j
  {
    if j < k {
      NumberEndAt(s, j + 1, k);
    }
  }

  lemma {:induction false} SymbolEndAt(s: seq<char>, j: nat, k: nat)
    requires j <= k <= |s|
    requires forall m | j <= m < k :: IsSubsequent(s[m])
    requires k < |s| ==> !IsSubsequent(s[k])
    ensures SymbolEnd(s, j) == k
    decreases k - j
  {
    if j < k {
      SymbolEndAt(s, j + 1, k);
    }
  }

  /** `k` is the first `c` at or after `j` (or `|s|` when there is none). */
  lemma {:induction false} FindCharAt(s: seq<char>, j: nat, c: char, k: nat)
    requires j <= k <= |s|
    requires k < |s| ==> s[k] == c
    requires forall m | j <= m < k :: s[m] != c
    ensures FindChar(s, j, c) == if k < |s| then Some(k) else None
    decreases k - j
  {
    if j < k {
      FindCharAt(s, j + 1, c, k);
    }
  }

  function ShiftBy(n: nat, r: Option<nat>): Option<nat>
  {
    if r.Some? then Some(n + r.value) else None
  }

  function ShiftScan(n: nat, r: Scan): Scan
  {
    match r
    case Skip(k) => Skip(n + k)
    case Emit(t, k) => Emit(t, n + k)
    case _ => r
  }

  lemma FindCharShift(a: seq<char>, b: seq<char>, j: nat, c: char)
    requires j <= |b|
    ensures FindChar(a + b, |a| + j, c) == ShiftBy(|a|, FindChar(b, j, c))
  {
    var q := FindChar(b, j, c);
    FindCharAt(a + b, |a| + j, c, |a| + if q.Some? then q.value else |b|);
  }

  lemma RunEndsShift(a: seq<char>, b: seq<char>, j: nat)
    requires j <= |b|
    ensures NumberEnd(a + b, |a| + j) == |a| + NumberEnd(b, j)
    ensures SymbolEnd(a + b, |a| + j) == |a| + SymbolEnd(b, j)
  {
    NumberEndAt(a + b, |a| + j, |a| + NumberEnd(b, j));
    SymbolEndAt(a + b, |a| + j, |a| + SymbolEnd(b, j));
  }

  lemma ScanCommentShift(a: seq<char>, b: seq<char>, j: nat)
    requires j < |b|
    ensures ScanComment(a + b, |a| + j) == ShiftScan(|a|, ScanComment(b, j))
  {
    FindCharShift(a, b, j + 1, '\n');
  }

  lemma ScanNumberShift(a: seq<char>, b: seq<char>, j: nat)
    requires j < |b| && IsNumberChar(b[j])
    ensures (a + b)[|a| + j] == b[j]
    ensures ScanNumber(a + b, |a| + j) == ShiftScan(|a|, ScanNumber(b, j))
  {
    RunEndsShift(a, b, j);
    assert (a + b)[|a| + j..|a| + NumberEnd(b, j)] == b[j..NumberEnd(b, j)];
  }

  lemma ScanStringShift(a: seq<char>, b: seq<char>, j: nat)
    requires j < |b|
    ensures ScanString(a + b, |a| + j) == ShiftScan(|a|, ScanString(b, j))
  {
    FindCharShift(a, b, j + 1, '"');
    var q := FindChar(b, j + 1, '"');
    if q.Some? {
      assert (a + b)[|a| + j..|a| + q.value + 1] == b[j..q.value + 1];
    }
  }

  lemma ScanHashShift(a: seq<char>, b: seq<char>, j: nat)
    requires j < |b|
    ensures ScanHash(a + b, |a| + j) == ShiftScan(|a|, ScanHash(b, j))
  {
    if j + 1 < |b| {
      assert (a + b)[|a| + j + 1] == b[j + 1];
    }
  }

  lemma ScanSymbolShift(a: seq<char>, b: seq<char>, j: nat)
    requires j < |b| && IsInitial(b[j])
    ensures (a + b)[|a| + j] == b[j]
    ensures ScanSymbol(a + b, |a| + j) == ShiftScan(|a|, ScanSymbol(b, j))
  {
    RunEndsShift(a, b, j);
    assert (a + b)[|a| + j..|a| + SymbolEnd(b, j)] == b[j..SymbolEnd(b, j)];
  }

  /** One step does not look at the text in front of its position. */
  lemma ScanShift(a: seq<char>, b: seq<char>, j: nat)
    requires j <= |b|
    ensures ScanAt(a + b, |a| + j) == ShiftScan(|a|, ScanAt(b, j))
  {
    if j < |b| {
      var c := b[j];
      assert (a + b)[|a| + j] == c;
      if c == ';' {
        ScanCommentShift(a, b, j);
      } else if c == '(' || c == ')' {
      } else if IsNumberChar(c) {
        ScanNumberShift(a, b, j);
      } else if c == '"' {
        ScanStringShift(a, b, j);
      } else if c == '#' {
        ScanHashShift(a, b, j);
      } else if IsInitial(c) {
        ScanSymbolShift(a, b, j);
      }
    }
  }

  /** Lexing from a position depends only on the characters from there on:
      text in front of it does not change the tokens. */
  lemma {:induction false} LexShift(a: seq<char>, b: seq<char>, j: nat)
    requires j <= |b|
    ensures Lex(a + b, |a| + j) == Lex(b, j)
    decreases |b| - j
  {
    ScanShift(a, b, j);
    match ScanAt(b, j)
    case End =>
    case Skip(k) =>
      LexShift(a, b, k);
    case Emit(t, k) =>
      LexShift(a, b, k);
    case Fail(e) =>
  }

  predicate IsBlank(c: char) { c == ' ' || c == '\n' }

  lemma NumberEndPrefix(a: seq<char>, b: seq<char>, i: nat)
    requires i <= |a| && NumberEnd(a, i) < |a|
    ensures NumberEnd(a + b, i) == NumberEnd(a, i)
  {
    var k := NumberEnd(a, i);
    assert forall m | i <= m <= k :: (a + b)[m] == a[m];
    NumberEndAt(a + b, i, k);
  }

  lemma SymbolEndPrefix(a: seq<char>, b: seq<char>, i: nat)
    requires i <= |a| && SymbolEnd(a, i) < |a|
    ensures SymbolEnd(a + b, i) == SymbolEnd(a, i)
  {
    var k := SymbolEnd(a, i);
    assert forall m | i <= m <= k :: (a + b)[m] == a[m];
    SymbolEndAt(a + b, i, k);
  }

  lemma FindCharPrefix(a: seq<char>, b: seq<char>, j: nat, c: char)
    requires j <= |a| && FindChar(a, j, c).Some?
    ensures FindChar(a + b, j, c) == FindChar(a, j, c)
  {
    var e := FindChar(a, j, c).value;
    assert forall m | j <= m <= e :: (a + b)[m] == a[m];
    FindCharAt(a + b, j, c, e);
  }

  lemma ScanCommentPrefix(a: seq<char>, b: seq<char>, i: nat)
    requires i < |a| && !ScanComment(a, i).Fail?
    ensures ScanComment(a + b, i) == ScanComment(a, i)
  {
    FindCharPrefix(a, b, i + 1, '\n');
  }

  lemma ScanStringPrefix(a: seq<char>, b: seq<char>, i: nat)
    requires i < |a| && !ScanString(a, i).Fail?
    ensures ScanString(a + b, i) == ScanString(a, i)
  {
    FindCharPrefix(a, b, i + 1, '"');
    var e := FindChar(a, i + 1, '"').value;
    assert (a + b)[i..e + 1] == a[i..e + 1];
  }

  lemma ScanNumberPrefix(a: seq<char>, b: seq<char>, i: nat)
    requires i < |a| && IsNumberChar(a[i]) && !IsNumberChar(a[|a| - 1])
    ensures ScanNumber(a + b, i) == ScanNumber(a, i)
  {
    NumberEndPrefix(a, b, i);
    var k := NumberEnd(a, i);
    assert (a + b)[i..k] == a[i..k];
  }

  lemma ScanSymbolPrefix(a: seq<char>, b: seq<char>, i: nat)
    requires i < |a| && IsInitial(a[i]) && !IsSubsequent(a[|a| - 1])
    ensures ScanSymbol(a + b, i) == ScanSymbol(a, i)
  {
    SymbolEndPrefix(a, b, i);
    var k := SymbolEnd(a, i);
    assert (a + b)[i..k] == a[i..k];
  }

  /** A step that succeeds inside `a`, which ends in a blank, is not
      affected by text after `a`. */
  lemma ScanPrefix(a: seq<char>, b: seq<char>, i: nat)
    requires i < |a| && !ScanAt(a, i).Fail? && IsBlank(a[|a| - 1])
    ensures ScanAt(a + b, i) == ScanAt(a, i)
  {
    var c := a[i];
    assert (a + b)[i] == c;
    if c == ';' {
      ScanCommentPrefix(a, b, i);
    } else if c == '(' || c == ')' {
    } else if IsNumberChar(c) {
      ScanNumberPrefix(a, b, i);
    } else if c == '"' {
      ScanStringPrefix(a, b, i);
    } else if c == '#' {
      assert (a + b)[i + 1] == a[i + 1];
    } else if IsInitial(c) {
      ScanSymbolPrefix(a, b, i);
    }
  }

  lemma {:induction false} LexConcatFrom(a: seq<char>, b: seq<char>, i: nat)
    requires i <= |a| && Lex(a, i).Ok?
    requires |a| > 0 && IsBlank(a[|a| - 1])
    ensures Lex(a + b, i) == PrependTokens(Lex(a, i).value, Lex(b, 0))
    decreases |a| - i
  {
    if i == |a| {
      LexShift(a, b, 0);
      PrependNothing(Lex(b, 0));
    } else {
      ScanPrefix(a, b, i);
      match ScanAt(a, i)
      case Skip(k) =>
        LexConcatFrom(a, b, k);
      case Emit(t, k) =>
        LexConcatFrom(a, b, k);
        PrependTokensAssoc([t], Lex(a, k).value, Lex(b, 0));
    }
  }

  /** Tokens come out in input order: the tokens of two pieces of text, the
      first ending in a space or newline, are the tokens of the first
      followed by those of the second. */
  lemma LexConcat(a: seq<char>, b: seq<char>)
    requires Lex(a, 0).Ok? && |a| > 0 && IsBlank(a[|a| - 1])
    ensures Lex(a + b, 0) == PrependTokens(Lex(a, 0).value, Lex(b, 0))
  {
    LexConcatFrom(a, b, 0);
  }

  /** `(` and `)` are single-character tokens. */
  lemma LexParen(c: char, b: seq<char>)
    requires c == '(' || c == ')'
    ensures Lex([c] + b, 0) == PrependTokens([if c == '(' then Open else Close], Lex(b, 0))
  {
    LexShift([c], b, 0);
  }

  /** A space or newline produces no token. */
  lemma LexBlank(c: char, b: seq<char>)
    requires IsBlank(c)
    ensures Lex([c] + b, 0) == Lex(b, 0)
  {
    LexShift([c], b, 0);
  }

  /** `;` discards everything up to and including the end of the line; a
      comment that reaches the end of the input never ends. */
  lemma LexComment(text: seq<char>, b: seq<char>)
    requires '\n' !in text
    ensures Lex([';'] + text + ['\n'] + b, 0) == Lex(b, 0)
    ensures Lex([';'] + text, 0) == Err(Unterminated)
  {
    var a := [';'] + text + ['\n'];
    var s := a + b;
    FindCharAt(s, 1, '\n', |a| - 1);
    LexShift(a, b, 0);
    FindCharAt([';'] + text, 1, '\n', |text| + 1);
  }

  /** A maximal run of number characters is one token: a symbol when it is
      exactly `+` or `-`, a double when it contains `.`, an integer
      otherwise (the classification is `NumberToken`'s contract); a run too
      long for the buffer overruns it. */
  lemma LexNumber(run: seq<char>, b: seq<char>)
    requires |run| > 0 && forall m | 0 <= m < |run| :: IsNumberChar(run[m])
    requires |b| > 0 ==> !IsNumberChar(b[0])
    ensures |run| <= BufferSize - 1 ==> Lex(run + b, 0) == PrependTokens([NumberToken(run)], Lex(b, 0))
    ensures |run| > BufferSize - 1 ==> Lex(run + b, 0) == Err(BufferOverrun)
  {
    var s := run + b;
    NumberEndAt(s, 0, |run|);
    assert s[0..|run|] == run;
    LexShift(run, b, 0);
  }

  /** A symbol token is an initial character and the maximal run of
      subsequent characters after it. */
  lemma LexSymbol(run: seq<char>, b: seq<char>)
    requires |run| > 0 && IsInitial(run[0]) && !IsNumberChar(run[0])
    requires forall m | 0 <= m < |run| :: IsSubsequent(run[m])
    requires |b| > 0 ==> !IsSubsequent(b[0])
    ensures |run| <= BufferSize - 1 ==> Lex(run + b, 0) == PrependTokens([Symbol(run)], Lex(b, 0))
    ensures |run| > BufferSize - 1 ==> Lex(run + b, 0) == Err(BufferOverrun)
  {
    var s := run + b;
    SymbolEndAt(s, 0, |run|);
    assert s[0..|run|] == run;
    LexShift(run, b, 0);
  }

  /** A string token keeps both of its double quotes; a string that reaches
      the end of the input never ends. */
  lemma LexString(text: seq<char>, b: seq<char>)
    requires '"' !in text && |text| <= BufferSize - 3
    ensures Lex(['"'] + text + ['"'] + b, 0) == PrependTokens([Str(['"'] + text + ['"'])], Lex(b, 0))
    ensures Lex(['"'] + text, 0) == Err(Unterminated)
  {
    var a := ['"'] + text + ['"'];
    var s := a + b;
    FindCharAt(s, 1, '"', |a| - 1);
    assert s[0..|a|] == a;
    LexShift(a, b, 0);
    FindCharAt(['"'] + text, 1, '"', |text| + 1);
  }

  /** `#` must be followed by `t` or `f`. */
  lemma LexBoolean(c: char, b: seq<char>)
    ensures c == 't' ==> Lex(['#', c] + b, 0) == PrependTokens([Bool(true)], Lex(b, 0))
    ensures c == 'f' ==> Lex(['#', c] + b, 0) == PrependTokens([Bool(false)], Lex(b, 0))
    ensures c != 't' && c != 'f' ==> Lex(['#', c] + b, 0) == Err(SyntaxError)
    ensures Lex(['#'], 0) == Err(SyntaxError)
  {
    LexShift(['#', c], b, 0);
  }

  /** A character that starts no token and is neither a space nor a newline
      is a syntax error. */
  lemma LexInvalid(c: char, b: seq<char>)
    requires c !in ";()\"#" && !IsValid(c)
    ensures Lex([c] + b, 0) == Err(SyntaxError)
  {
  }
}
