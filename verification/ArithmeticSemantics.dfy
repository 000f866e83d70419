/** Arithmetic expansion as a recursive evaluator over the tree, threading the variables.
    `n` bounds how deep a variable's text is parsed again as an expression; None means that the
    bound was too small, as for a variable that names itself. */
module ArithmeticSemantics {
  import opened Text
  import opened VariableStore
  import opened ArithmeticSyntax

  /** A comma list that the walker can read. */
  type Group = items: seq<Arith> | items != [] && WfGroup(items) witness [Number("0")]

  /** Parsing of a text as an arithmetic expression: any function that yields readable trees. */
  type ArithParser = string -> Option<Group>

  // ---- Operators on mathematical integers ----

  /** Undefined: division by zero or a negative shift, which C++ leaves undefined.
      Endless: a negative exponent, whose loop never ends. */
  datatype Calc = Value(v: int) | Undefined | Endless

  function Truth(b: bool): int { if b then 1 else 0 }

  function Power(b: int, e: nat): int { if e == 0 then 1 else b * Power(b, e - 1) }

  function Abs(x: int): nat { if x < 0 then -x else x }

  /** C++ division truncates toward zero. */
  function TruncDiv(x: int, y: int): int
    requires y != 0
  {
    if (x < 0) == (y < 0) then Abs(x) / Abs(y) else -(Abs(x) / Abs(y))
  }

  function BitOf(op: BinOp, x: bool, y: bool): bool {
    match op case BitAnd => x && y case BitOr => x || y case _ => x != y
  }

  /** Two's complement without a width: 0 and -1 are all-zero and all-one. */
  function Bitwise(op: BinOp, x: int, y: int): int
    decreases Abs(x) + Abs(y)
  {
    if -1 <= x <= 0 && -1 <= y <= 0 then (if BitOf(op, x == -1, y == -1) then -1 else 0)
    else 2 * Bitwise(op, x / 2, y / 2) + Truth(BitOf(op, x % 2 == 1, y % 2 == 1))
  }

  function Compute(op: BinOp, x: int, y: int): Calc {
    match op
    case BitOr => Value(Bitwise(op, x, y))
    case BitXor => Value(Bitwise(op, x, y))
    case BitAnd => Value(Bitwise(op, x, y))
    case Le => Value(Truth(x <= y))
    case Ge => Value(Truth(x >= y))
    case Lt => Value(Truth(x < y))
    case Gt => Value(Truth(x > y))
    case Ne => Value(Truth(x != y))
    case Eq => Value(Truth(x == y))
    case Shl => if y < 0 then Undefined else Value(x * Power(2, y))
    case Shr => if y < 0 then Undefined else Power2Positive(y); Value(x / Power(2, y))
    case Add => Value(x + y)
    case Sub => Value(x - y)
    case Mul => Value(x * y)
    case Div => if y == 0 then Undefined else Value(TruncDiv(x, y))
    case Mod => if y == 0 then Undefined else Value(x - y * TruncDiv(x, y))
    case Pow => if y < 0 then Endless else Value(Power(x, y))
  }

  lemma Power2Positive(e: nat)
    ensures Power(2, e) > 0
  {
  }

  function ComputeUnary(op: UnOp, x: int): int {
    match op case Pos => x case Neg => -x case Compl => -x - 1 case Not => Truth(x == 0)
  }

  // ---- What the operators are ----

  function Bit(x: int, k: nat): bool
    decreases k
  {
    if k == 0 then x % 2 == 1 else Bit(x / 2, k - 1)
  }

  /** Bit by bit, at every position of the two's complement. */
  lemma {:induction false} BitwiseBits(op: BinOp, x: int, y: int, k: nat)
    requires op == BitAnd || op == BitOr || op == BitXor
    ensures Bit(Bitwise(op, x, y), k) == BitOf(op, Bit(x, k), Bit(y, k))
    decreases k
  {
    var b := Truth(BitOf(op, x % 2 == 1, y % 2 == 1));
    assert Bitwise(op, x, y) == 2 * Bitwise(op, x / 2, y / 2) + b;
    if k > 0 { BitwiseBits(op, x / 2, y / 2, k - 1); }
  }

  /** Quotient and remainder make up the dividend; the remainder is smaller than the divisor and has the
      sign of the dividend. */
  lemma DivisionTruncates(x: int, y: int)
    requires y != 0
    ensures var r := x - y * TruncDiv(x, y);
            Compute(Div, x, y) == Value(TruncDiv(x, y)) && Compute(Mod, x, y) == Value(r)
            && Abs(r) < Abs(y) && (r == 0 || (r < 0 <==> x < 0))
  {
    hide Power, Bitwise;
    var d: int := Abs(y);
    var q: int := Abs(x) / Abs(y);
    var m: int := Abs(x) % Abs(y);
    assert Abs(x) == d * q + m && 0 <= m < d;
    Signs(d, q);
    var t := TruncDiv(x, y);
    if y < 0 {
      assert y == -d;
      if x < 0 { assert t == q; } else { assert t == -q; }
    } else {
      assert y == d;
      if x < 0 { assert t == -q; } else { assert t == q; }
    }
    assert y * t == if x < 0 then -(d * q) else d * q;
  }

  lemma Signs(y: int, q: int)
    ensures (-y) * q == -(y * q) && y * (-q) == -(y * q) && (-y) * (-q) == y * q
  {
  }

  // ---- Evaluation ----

  /** A value, or an exception; either way with the variables as they are then. */
  datatype Res = Val(v: int, st: Store) | Exc(st: Store)

  function Eval(p: ArithParser, a: Arith, st: Store, n: nat): Option<Res>
    decreases n, 2, a, 1
  {
    match a
    case Number(d) => Some(Val(if AllDigits(d) then DigitsValue(d) else 0, st))
    case Ref(v) => EvalRef(p, v, st, n)
    case Paren(items) => EvalGroup(p, items, st, n)
    case Expand(items) => EvalGroup(p, items, st, n)
    case Unary(op, e) =>
      var x :- Eval(p, e, st, n);
      Some(if x.Exc? then x else Val(ComputeUnary(op, x.v), x.st))
    case Binary(op, l, r) => EvalBinary(p, a, st, n)
    case LogOr(l, r) => EvalLogical(p, a, st, n)
    case LogAnd(l, r) => EvalLogical(p, a, st, n)
    case Choose(c, t, f) => EvalChoose(p, a, st, n)
    case Step(post, up, e) => EvalStep(p, a, st, n)
    case Assign(op, v, e) => EvalAssign(p, a, st, n)
  }

  /** Every item of a comma list is evaluated; the last one is the value. */
  function EvalGroup(p: ArithParser, items: seq<Arith>, st: Store, n: nat): Option<Res>
    decreases n, 2, items, 0
  {
    if items == [] then Some(Val(0, st))
    else
      var x :- Eval(p, items[0], st, n);
      if x.Exc? || |items| == 1 then Some(x) else EvalGroup(p, items[1..], x.st, n)
  }

  /** A subscript; a negative one is an error, none at all is 0. */
  function EvalIndex(p: ArithParser, v: Name, st: Store, n: nat): (r: Option<Res>)
    ensures r.Some? && r.value.Val? ==> r.value.v >= 0
    decreases n, 2, v, 1
  {
    var x :- EvalGroup(p, v.index, st, n);
    Some(if x.Val? && x.v < 0 then Exc(x.st) else x)
  }

  /** The text of a variable is evaluated as an expression of its own; no text counts as 0. */
  function EvalText(p: ArithParser, text: string, st: Store, n: nat): Option<Res>
    decreases n, 0
  {
    if n == 0 then None
    else match p(text)
      case None => Some(Exc(st))
      case Some(items) => EvalGroup(p, items, st, n - 1)
  }

  function EvalRef(p: ArithParser, v: Name, st: Store, n: nat): Option<Res>
    decreases n, 2, v, 2
  {
    var i :- EvalIndex(p, v, st, n);
    if i.Exc? then Some(i)
    else
      var text := ResolveString(i.st, v.base, i.v);
      if text == "" then Some(Val(0, i.st)) else EvalText(p, text, i.st, n)
  }

  function Finish(c: Calc, st: Store): Option<Res> {
    match c case Value(v) => Some(Val(v, st)) case Undefined => Some(Exc(st)) case Endless => None
  }

  function EvalBinary(p: ArithParser, a: Arith, st: Store, n: nat): Option<Res>
    requires a.Binary?
    decreases n, 2, a, 0
  {
    var x :- Eval(p, a.l, st, n);
    if x.Exc? then Some(x)
    else
      var y :- Eval(p, a.r, x.st, n);
      if y.Exc? then Some(y) else Finish(Compute(a.op, x.v, y.v), y.st)
  }

  /** `||` and `&&`: the right operand is not evaluated when the left decides. */
  function EvalLogical(p: ArithParser, a: Arith, st: Store, n: nat): Option<Res>
    requires a.LogOr? || a.LogAnd?
    decreases n, 2, a, 0
  {
    var x :- Eval(p, a.l, st, n);
    if x.Exc? then Some(x)
    else if (x.v != 0) == a.LogOr? then Some(Val(Truth(a.LogOr?), x.st))
    else
      var y :- Eval(p, a.r, x.st, n);
      Some(if y.Exc? then y else Val(Truth(y.v != 0), y.st))
  }

  /** `?:` evaluates all three operands. */
  function EvalChoose(p: ArithParser, a: Arith, st: Store, n: nat): Option<Res>
    requires a.Choose?
    decreases n, 2, a, 0
  {
    var c :- Eval(p, a.c, st, n);
    if c.Exc? then Some(c)
    else
      var t :- Eval(p, a.t, c.st, n);
      if t.Exc? then Some(t)
      else
        var f :- Eval(p, a.f, t.st, n);
        Some(if f.Exc? then f else Val(if c.v != 0 then t.v else f.v, f.st))
  }

  /** set_value with a number: its value, or the readonly exception. */
  function Assigned(st: Store, base: string, index: nat, v: int, result: int): Res {
    match SetValue(st, base, Num(v), index) case Some(st') => Val(result, st') case None => Exc(st)
  }

  function StepSign(up: bool): string { if up then "++" else "--" }

  /** `++` and `--` on a variable whose text starts with a digit; any other text is put back together
      with the operator and evaluated. */
  function EvalStep(p: ArithParser, a: Arith, st: Store, n: nat): Option<Res>
    requires a.Step?
    decreases n, 2, a, 0
  {
    if !a.e.Ref? then Some(Exc(st))
    else
      var i :- EvalIndex(p, a.e.v, st, n);
      if i.Exc? then Some(i) else StepVariable(p, a.post, a.up, a.e.v.base, i.v, i.st, n)
  }

  function StepVariable(p: ArithParser, post: bool, up: bool, base: string, index: nat, st: Store, n: nat): Option<Res>
    decreases n, 1
  {
    var text := ResolveString(st, base, index);
    var now := ResolveLong(st, base, index);
    var next := if up then now + 1 else now - 1;
    if IsNumber(text) then Some(Assigned(st, base, index, next, if post then now else next))
    else if text == "" then Some(Val(0, st))
    else EvalText(p, if post then text + StepSign(up) else StepSign(up) + text, st, n)
  }

  /** The subscript first, then the right side, and only then the variable's own value. */
  function EvalAssign(p: ArithParser, a: Arith, st: Store, n: nat): Option<Res>
    requires a.Assign?
    decreases n, 2, a, 0
  {
    var i :- EvalIndex(p, a.target, st, n);
    if i.Exc? then Some(i)
    else
      var x :- Eval(p, a.e, i.st, n);
      if x.Exc? then Some(x) else AssignVariable(a.aop, a.target.base, i.v, x.v, x.st)
  }

  function AssignVariable(op: Option<BinOp>, base: string, index: nat, v: int, st: Store): Option<Res> {
    if op.None? then Some(Assigned(st, base, index, v, v))
    else match Compute(op.value, ResolveLong(st, base, index), v)
      case Value(r) => Some(Assigned(st, base, index, r, r))
      case Undefined => Some(Exc(st))
      case Endless => None
  }

  // ---- The bound does not matter once it suffices, and no evaluation opens or closes a scope ----

  lemma {:induction false} EvalMore(p: ArithParser, a: Arith, st: Store, n: nat, m: nat)
    requires n <= m && Eval(p, a, st, n).Some?
    ensures Eval(p, a, st, m) == Eval(p, a, st, n)
    ensures |Eval(p, a, st, n).value.st.frames| == |st.frames|
    decreases n, 2, a, 1
  {
    match a
    case Number(_) =>
    case Ref(v) => RefMore(p, v, st, n, m);
    case Paren(items) => GroupMore(p, items, st, n, m);
    case Expand(items) => GroupMore(p, items, st, n, m);
    case Unary(_, e) => EvalMore(p, e, st, n, m);
    case Binary(_, l, r) => PairMore(p, a, st, n, m);
    case LogOr(l, r) => PairMore(p, a, st, n, m);
    case LogAnd(l, r) => PairMore(p, a, st, n, m);
    case Choose(_, _, _) => ChooseMore(p, a, st, n, m);
    case Step(post, up, e) =>
      if e.Ref? {
        IndexMore(p, e.v, st, n, m);
        var i := EvalIndex(p, e.v, st, n).value;
        if i.Val? { StepMore(p, post, up, e.v.base, i.v, i.st, n, m); }
      }
    case Assign(_, v, e) =>
      IndexMore(p, v, st, n, m);
      var i := EvalIndex(p, v, st, n).value;
      if i.Val? { EvalMore(p, e, i.st, n, m); }
  }

  lemma {:induction false} PairMore(p: ArithParser, a: Arith, st: Store, n: nat, m: nat)
    requires a.Binary? || a.LogOr? || a.LogAnd?
    requires n <= m && Eval(p, a, st, n).Some?
    ensures Eval(p, a, st, m) == Eval(p, a, st, n)
    ensures |Eval(p, a, st, n).value.st.frames| == |st.frames|
    decreases n, 2, a, 0
  {
    EvalMore(p, a.l, st, n, m);
    var x := Eval(p, a.l, st, n).value;
    if x.Val? && Eval(p, a.r, x.st, n).Some? { EvalMore(p, a.r, x.st, n, m); }
  }

  lemma {:induction false} ChooseMore(p: ArithParser, a: Arith, st: Store, n: nat, m: nat)
    requires a.Choose? && n <= m && Eval(p, a, st, n).Some?
    ensures Eval(p, a, st, m) == Eval(p, a, st, n)
    ensures |Eval(p, a, st, n).value.st.frames| == |st.frames|
    decreases n, 2, a, 0
  {
    EvalMore(p, a.c, st, n, m);
    var c := Eval(p, a.c, st, n).value;
    if c.Val? {
      EvalMore(p, a.t, c.st, n, m);
      var t := Eval(p, a.t, c.st, n).value;
      if t.Val? { EvalMore(p, a.f, t.st, n, m); }
    }
  }

  lemma {:induction false} GroupMore(p: ArithParser, items: seq<Arith>, st: Store, n: nat, m: nat)
    requires n <= m && EvalGroup(p, items, st, n).Some?
    ensures EvalGroup(p, items, st, m) == EvalGroup(p, items, st, n)
    ensures |EvalGroup(p, items, st, n).value.st.frames| == |st.frames|
    decreases n, 2, items, 0
  {
    if items != [] {
      EvalMore(p, items[0], st, n, m);
      var x := Eval(p, items[0], st, n).value;
      if x.Val? && |items| > 1 { GroupMore(p, items[1..], x.st, n, m); }
    }
  }

  lemma {:induction false} IndexMore(p: ArithParser, v: Name, st: Store, n: nat, m: nat)
    requires n <= m && EvalIndex(p, v, st, n).Some?
    ensures EvalIndex(p, v, st, m) == EvalIndex(p, v, st, n)
    ensures |EvalIndex(p, v, st, n).value.st.frames| == |st.frames|
    decreases n, 2, v, 1
  {
    GroupMore(p, v.index, st, n, m);
  }

  lemma {:induction false} TextMore(p: ArithParser, text: string, st: Store, n: nat, m: nat)
    requires n <= m && EvalText(p, text, st, n).Some?
    ensures EvalText(p, text, st, m) == EvalText(p, text, st, n)
    ensures |EvalText(p, text, st, n).value.st.frames| == |st.frames|
    decreases n, 0
  {
    match p(text)
    case None =>
    case Some(items) => GroupMore(p, items, st, n - 1, m - 1);
  }

  lemma {:induction false} RefMore(p: ArithParser, v: Name, st: Store, n: nat, m: nat)
    requires n <= m && EvalRef(p, v, st, n).Some?
    ensures EvalRef(p, v, st, m) == EvalRef(p, v, st, n)
    ensures |EvalRef(p, v, st, n).value.st.frames| == |st.frames|
    decreases n, 2, v, 2
  {
    IndexMore(p, v, st, n, m);
    var i := EvalIndex(p, v, st, n).value;
    if i.Val? && ResolveString(i.st, v.base, i.v) != "" {
      TextMore(p, ResolveString(i.st, v.base, i.v), i.st, n, m);
    }
  }

  lemma {:induction false} StepMore(p: ArithParser, post: bool, up: bool, base: string, index: nat, st: Store, n: nat, m: nat)
    requires n <= m && StepVariable(p, post, up, base, index, st, n).Some?
    ensures StepVariable(p, post, up, base, index, st, m) == StepVariable(p, post, up, base, index, st, n)
    ensures |StepVariable(p, post, up, base, index, st, n).value.st.frames| == |st.frames|
    decreases n, 1
  {
    var text := ResolveString(st, base, index);
    if !IsNumber(text) && text != "" {
      TextMore(p, if post then text + StepSign(up) else StepSign(up) + text, st, n, m);
    }
  }
}
