/** What expressions mean, stated by the root tokens of their trees, by the values of their operands, and
    by what variables read afterwards. */
module ArithmeticLaws {
  import opened Text
  import opened TokenStream
  import opened VariableStore
  import opened ArithmeticSyntax
  import opened ArithmeticSemantics

  // ---- Decimal numerals ----

  lemma {:induction false} PowerSum(b: int, e: nat, f: nat)
    ensures Power(b, e + f) == Power(b, e) * Power(b, f)
    ensures Power(b, 0) == 1 && Power(b, 1) == b
  {
    if e > 0 {
      PowerSum(b, e - 1, f);
      var x, y, z := b, Power(b, e - 1), Power(b, f);
      assert x * (y * z) == (x * y) * z;
    }
  }

  function DigitOf(c: char): int { c as int - '0' as int }

  lemma LastDigit(s: string, c: char)
    requires AllDigits(s) && IsDigit(c)
    ensures AllDigits(s + [c]) && DigitsValue(s + [c]) == 10 * DigitsValue(s) + DigitOf(c)
  {
    assert (s + [c])[..|s|] == s;
  }

  /** A numeral is a number to base ten: each digit counts ten times as much as the one behind it. */
  lemma {:induction false} NumeralsAreDecimal(s: string, t: string)
    requires AllDigits(s) && AllDigits(t)
    ensures AllDigits(s + t) && DigitsValue(s + t) == DigitsValue(s) * Power(10, |t|) + DigitsValue(t)
    ensures forall c | IsDigit(c) :: DigitsValue([c]) == DigitOf(c)
    decreases |t|
  {
    hide DigitsValue, Power, DigitOf;
    forall c | IsDigit(c)
      ensures DigitsValue([c]) == DigitOf(c)
    {
      NoDigits();
      assert "" + [c] == [c];
      LastDigit("", c);
    }
    NoDigits();
    PowerSum(10, 0, 0);
    if t == "" {
      assert s + t == s;
    } else {
      var front, c := t[..|t| - 1], t[|t| - 1];
      NumeralsAreDecimal(s, front);
      PowerSum(10, |front|, 1);
      assert t == front + [c] && s + t == (s + front) + [c];
      LastDigit(front, c);
      LastDigit(s + front, c);
      TimesTen(DigitsValue(s), Power(10, |front|), DigitsValue(front));
    }
  }

  /** A text is a number if it is a numeral behind an optional sign. */
  lemma NumbersAsTexts(digits: string, s: string)
    requires digits != "" && AllDigits(digits)
    ensures var v: int := DigitsValue(digits);
            ToInt(digits) == ToInt("+" + digits) == Some(v) && ToInt("-" + digits) == Some(-v)
    ensures ToInt(s).Some? ==> AllDigits(s) || (s[0] in {'+', '-'} && s[1..] != "" && AllDigits(s[1..]))
    ensures Str(s).AsLong() == match ToInt(s) case Some(v) => v case None => 0
  {
    hide DigitsValue;
    assert ("+" + digits)[1..] == digits && ("-" + digits)[1..] == digits;
    assert IsDigit(digits[0]);
  }

  /** A number becomes its shortest numeral, behind a dash if it is negative. */
  lemma {:induction false} ShortestNumerals(n: nat)
    ensures var v: int := n; FromInt(v) == Digits(n) && (n > 0 ==> FromInt(-v) == "-" + Digits(n))
    ensures n > 0 ==> Digits(n)[0] != '0'
    ensures Digits(0) == "0"
  {
    if n >= 10 { ShortestNumerals(n / 10); }
  }

  lemma NoDigits()
    ensures DigitsValue("") == 0
  {
  }

  lemma TimesTen(a: int, b: int, c: int)
    ensures 10 * (a * b + c) == a * (b * 10) + 10 * c
  {
    assert a * (b * 10) == (a * b) * 10;
  }

  // ---- Operators ----

  /** q is x / y rounded toward zero. */
  predicate IsQuotient(x: int, y: int, q: int) {
    var rest := x - q * y;
    Abs(rest) < Abs(y) && (rest == 0 || (rest < 0 <==> x < 0))
  }

  predicate IsBool(r: Option<Res>, b: bool, t: Store) { r == Some(Val(if b then 1 else 0, t)) }

  ghost predicate IsBits(r: Option<Res>, f: (bool, bool) -> bool, x: int, y: int, t: Store) {
    exists v :: r == Some(Val(v, t)) && forall k: nat :: Bit(v, k) == f(Bit(x, k), Bit(y, k))
  }

  /** The result r of the operator at the root k, for operands x and y. */
  ghost predicate Means(k: Kind, x: int, y: int, r: Option<Res>, t: Store) {
    && (k == PLUS ==> r == Some(Val(x + y, t)))
    && (k == MINUS ==> r == Some(Val(x - y, t)))
    && (k == TIMES ==> r == Some(Val(x * y, t)))
    && (k in {SLASH, PCT} && y == 0 ==> r == Some(Exc(t)))
    && (k == SLASH && y != 0 ==> exists q :: IsQuotient(x, y, q) && r == Some(Val(q, t)))
    && (k == PCT && y != 0 ==> exists q :: IsQuotient(x, y, q) && r == Some(Val(x - q * y, t)))
    && (k == EXP && y >= 0 ==> r == Some(Val(Power(x, y), t)))
    && (k in {LSHIFT, RSHIFT} && y < 0 ==> r == Some(Exc(t)))
    && (k == LSHIFT && y >= 0 ==> r == Some(Val(x * Power(2, y), t)))
    && (k == RSHIFT && y >= 0 ==>
          exists q :: q * Power(2, y) <= x < q * Power(2, y) + Power(2, y) && r == Some(Val(q, t)))
    && (k == LEQ ==> IsBool(r, x <= y, t)) && (k == GEQ ==> IsBool(r, x >= y, t))
    && (k == LESS_THAN ==> IsBool(r, x < y, t)) && (k == GREATER_THAN ==> IsBool(r, x > y, t))
    && (k == EQUALS_TO ==> IsBool(r, x == y, t)) && (k == NOT_EQUALS ==> IsBool(r, x != y, t))
    && (k == AMP ==> IsBits(r, (a, b) => a && b, x, y, t))
    && (k == PIPE ==> IsBits(r, (a, b) => a || b, x, y, t))
    && (k == CARET ==> IsBits(r, (a, b) => a != b, x, y, t))
  }

  lemma OperatorMeans(op: BinOp, x: int, y: int, t: Store)
    ensures Means(BinKind(op), x, y, Finish(Compute(op, x, y), t), t)
  {
    hide Bitwise, Power, TruncDiv, IsBits, IsQuotient;
    match op
    case BitAnd => BitsFound(op, x, y, t, (a, b) => a && b);
    case BitOr => BitsFound(op, x, y, t, (a, b) => a || b);
    case BitXor => BitsFound(op, x, y, t, (a, b) => a != b);
    case Div => if y != 0 { QuotientFound(x, y); }
    case Mod => if y != 0 { QuotientFound(x, y); }
    case Shr => if y >= 0 { FloorFound(x, y); }
    case _ =>
  }

  /** Left operand, then right operand, then the operator that the root token names. */
  lemma BinaryByToken(p: ArithParser, a: Arith, st: Store, n: nat, x: int, s: Store, y: int, t: Store)
    requires a.Binary? && Eval(p, a.l, st, n) == Some(Val(x, s)) && Eval(p, a.r, s, n) == Some(Val(y, t))
    ensures Means(ArithTree(a).kind, x, y, Eval(p, a, st, n), t)
  {
    hide Compute, Means, ArithTrees, ArithTree;
    OperatorMeans(a.op, x, y, t);
    assert Eval(p, a, st, n) == EvalBinary(p, a, st, n);
  }

  lemma FloorFound(x: int, y: nat)
    ensures Power(2, y) > 0
    ensures var q := x / Power(2, y); q * Power(2, y) <= x < q * Power(2, y) + Power(2, y)
  {
    Power2Positive(y);
  }

  lemma BitsFound(op: BinOp, x: int, y: int, t: Store, f: (bool, bool) -> bool)
    requires op in {BitAnd, BitOr, BitXor} && forall a, b :: BitOf(op, a, b) == f(a, b)
    ensures IsBits(Some(Val(Bitwise(op, x, y), t)), f, x, y, t)
  {
    forall k: nat
      ensures Bit(Bitwise(op, x, y), k) == f(Bit(x, k), Bit(y, k))
    {
      BitwiseBits(op, x, y, k);
    }
  }

  lemma QuotientFound(x: int, y: int)
    requires y != 0
    ensures IsQuotient(x, y, TruncDiv(x, y))
  {
    DivisionTruncates(x, y);
    assert y * TruncDiv(x, y) == TruncDiv(x, y) * y;
  }

  lemma {:induction false} ComplementBits(x: int, k: nat)
    ensures Bit(-x - 1, k) == !Bit(x, k)
    decreases k
  {
    if k > 0 {
      assert (-x - 1) / 2 == -(x / 2) - 1;
      ComplementBits(x / 2, k - 1);
    }
  }

  /** A sign is applied to the value of its operand. */
  lemma UnaryByToken(p: ArithParser, a: Arith, st: Store, n: nat, x: int, s: Store)
    requires a.Unary? && Eval(p, a.e, st, n) == Some(Val(x, s))
    ensures var k := ArithTree(a).kind; var r := Eval(p, a, st, n);
            && r.Some? && r.value.Val? && r.value.st == s
            && (k == PLUS_SIGN ==> r.value.v == x)
            && (k == MINUS_SIGN ==> r.value.v + x == 0)
            && (k == TILDE ==> forall j: nat :: Bit(r.value.v, j) == !Bit(x, j))
            && (k == BANG ==> IsBool(r, x == 0, s))
  {
    hide ArithTrees, Bit;
    forall j: nat
      ensures Bit(-x - 1, j) == !Bit(x, j)
    {
      ComplementBits(x, j);
    }
  }

  // ---- Operands that are skipped ----

  /** The value of an operand as 1 or 0. */
  function AsBool(r: Option<Res>): Option<Res> {
    match r
    case Some(Val(v, t)) => Some(Val(if v != 0 then 1 else 0, t))
    case _ => r
  }

  /** When the left operand of `||` or `&&` decides, the right one might as well not be there: whatever
      it is, and whether or not it assigns, throws or ends, value and variables are those of the left.
      Otherwise the right one is evaluated behind the left and decides alone. */
  lemma ShortCircuits(p: ArithParser, l: Arith, r: Arith, st: Store, n: nat, v: int, s: Store)
    requires Eval(p, l, st, n) == Some(Val(v, s))
    ensures v != 0 ==> Eval(p, LogOr(l, r), st, n) == Some(Val(1, s))
    ensures v == 0 ==> Eval(p, LogOr(l, r), st, n) == AsBool(Eval(p, r, s, n))
    ensures v == 0 ==> Eval(p, LogAnd(l, r), st, n) == Some(Val(0, s))
    ensures v != 0 ==> Eval(p, LogAnd(l, r), st, n) == AsBool(Eval(p, r, s, n))
    ensures !l.Paren? && !r.Paren? ==> ArithTree(LogOr(l, r)).kind == LOGICOR && ArithTree(LogAnd(l, r)).kind == LOGICAND
  {
    hide ArithTrees;
    assert Eval(p, LogOr(l, r), st, n) == EvalLogical(p, LogOr(l, r), st, n);
    assert Eval(p, LogAnd(l, r), st, n) == EvalLogical(p, LogAnd(l, r), st, n);
  }

  /** `?:` evaluates condition and both branches, in this order, and takes the value of the first branch
      if the condition is not 0, else of the second, with the variables as they are behind all three. */
  lemma ConditionTakesOne(p: ArithParser, a: Arith, st: Store, n: nat, c: int, s: Store, x: int, t: Store, y: int, u: Store)
    requires a.Choose? && Eval(p, a.c, st, n) == Some(Val(c, s))
    requires Eval(p, a.t, s, n) == Some(Val(x, t)) && Eval(p, a.f, t, n) == Some(Val(y, u))
    ensures c != 0 ==> Eval(p, a, st, n) == Some(Val(x, u))
    ensures c == 0 ==> Eval(p, a, st, n) == Some(Val(y, u))
  {
    assert Eval(p, a, st, n) == EvalChoose(p, a, st, n);
  }

  /** What throws in one operand throws in the whole, with the variables as they are then. */
  lemma OperandsThrow(p: ArithParser, a: Arith, st: Store, n: nat, s: Store)
    ensures (a.Unary? && Eval(p, a.e, st, n) == Some(Exc(s)) ==> Eval(p, a, st, n) == Some(Exc(s)))
    ensures ((a.Binary? || a.LogOr? || a.LogAnd?) && Eval(p, a.l, st, n) == Some(Exc(s)) ==> Eval(p, a, st, n) == Some(Exc(s)))
    ensures a.Binary? && Eval(p, a.l, st, n).Some? && Eval(p, a.l, st, n).value.Val? ==>
              (Eval(p, a.r, Eval(p, a.l, st, n).value.st, n) == Some(Exc(s)) ==> Eval(p, a, st, n) == Some(Exc(s)))
    ensures (a.Choose? && Eval(p, a.c, st, n) == Some(Exc(s)) ==> Eval(p, a, st, n) == Some(Exc(s)))
    ensures a.Choose? && Eval(p, a.c, st, n).Some? && Eval(p, a.c, st, n).value.Val? ==>
              var t := Eval(p, a.c, st, n).value.st;
              && (Eval(p, a.t, t, n) == Some(Exc(s)) ==> Eval(p, a, st, n) == Some(Exc(s)))
              && (Eval(p, a.t, t, n).Some? && Eval(p, a.t, t, n).value.Val? ==>
                    (Eval(p, a.f, Eval(p, a.t, t, n).value.st, n) == Some(Exc(s)) ==> Eval(p, a, st, n) == Some(Exc(s))))
  {
    hide EvalStep, EvalAssign, EvalRef, EvalGroup;
  }

  /** So does what throws in a subscript, in the right side of an assignment, or in an item of a list. */
  lemma SubscriptsAndListsThrow(p: ArithParser, v: Name, op: Option<BinOp>, e: Arith, post: bool, up: bool, items: seq<Arith>,
                                st: Store, n: nat, s: Store)
    ensures v.index != [] && EvalGroup(p, v.index, st, n) == Some(Exc(s)) ==>
              && Eval(p, Ref(v), st, n) == Some(Exc(s)) && Eval(p, Assign(op, v, e), st, n) == Some(Exc(s))
              && Eval(p, Step(post, up, Ref(v)), st, n) == Some(Exc(s))
    ensures v.index == [] && Eval(p, e, st, n) == Some(Exc(s)) ==> Eval(p, Assign(op, v, e), st, n) == Some(Exc(s))
    ensures Eval(p, e, st, n) == Some(Exc(s)) ==> EvalGroup(p, [e] + items, st, n) == Some(Exc(s))
  {
    assert ([e] + items)[0] == e;
    if v.index == [] { assert EvalIndex(p, v, st, n) == Some(Val(0, st)); }
  }

  // ---- Lists ----

  /** A comma list runs its items from left to right, and its value is that of the last. */
  lemma {:induction false} ListsRunInOrder(p: ArithParser, a: seq<Arith>, b: seq<Arith>, st: Store, n: nat, v: int, s: Store)
    requires a != [] && b != [] && EvalGroup(p, a, st, n) == Some(Val(v, s))
    ensures EvalGroup(p, a + b, st, n) == EvalGroup(p, b, s, n)
    decreases |a|
  {
    hide Eval;
    assert (a + b)[0] == a[0] && (a + b)[1..] == a[1..] + b;
    if |a| > 1 {
      ListsRunInOrder(p, a[1..], b, Eval(p, a[0], st, n).value.st, n, v, s);
    } else {
      assert a[1..] + b == b;
    }
  }

  lemma OneItem(p: ArithParser, a: Arith, st: Store, n: nat)
    ensures EvalGroup(p, [a], st, n) == Eval(p, a, st, n) == Eval(p, Paren([a]), st, n) == Eval(p, Expand([a]), st, n)
    ensures forall d | d != "" && AllDigits(d) :: Eval(p, Number(d), st, n) == Some(Val(DigitsValue(d), st))
  {
  }

  // ---- Variables ----

  /** Where a variable's element is, behind the evaluation of its subscript: element 0 without one. */
  ghost predicate Selects(p: ArithParser, v: Name, st: Store, n: nat, i: nat, s: Store) {
    if v.index == [] then i == 0 && s == st else EvalGroup(p, v.index, st, n) == Some(Val(i, s))
  }

  /** A variable means what its text means as an expression, and 0 if it has none. */
  lemma VariablesAreTexts(p: ArithParser, v: Name, st: Store, n: nat, i: nat, s: Store)
    requires Selects(p, v, st, n, i, s)
    ensures var text := ResolveString(s, v.base, i); var r := Eval(p, Ref(v), st, n);
            && (text == "" ==> r == Some(Val(0, s)))
            && (text != "" && n > 0 && p(text).Some? ==> r == EvalGroup(p, p(text).value, s, n - 1))
            && (text != "" && n > 0 && p(text).None? ==> r == Some(Exc(s)))
  {
    hide EvalGroup;
    Selected(p, v, st, n, i, s);
    var text := ResolveString(s, v.base, i);
    assert Eval(p, Ref(v), st, n) == EvalRef(p, v, st, n);
    if text != "" { assert EvalRef(p, v, st, n) == EvalText(p, text, s, n); }
  }

  lemma Selected(p: ArithParser, v: Name, st: Store, n: nat, i: nat, s: Store)
    requires Selects(p, v, st, n, i, s)
    ensures EvalIndex(p, v, st, n) == Some(Val(i, s))
  {
  }

  /** A negative subscript is an error, for reading, stepping and assigning. */
  lemma NegativeSubscriptsThrow(p: ArithParser, v: Name, op: Option<BinOp>, e: Arith, post: bool, up: bool, st: Store, n: nat,
                                i: int, s: Store)
    requires v.index != [] && EvalGroup(p, v.index, st, n) == Some(Val(i, s)) && i < 0
    ensures Eval(p, Ref(v), st, n) == Some(Exc(s))
    ensures Eval(p, Assign(op, v, e), st, n) == Some(Exc(s))
    ensures Eval(p, Step(post, up, Ref(v)), st, n) == Some(Exc(s))
  {
    hide EvalGroup;
    assert EvalIndex(p, v, st, n) == Some(Exc(s));
  }

  /** The element i of the variable reads as v, all its other elements and all other names are as before. */
  ghost predicate OnlyElement(s: Store, t: Store, name: string, i: nat, v: int) {
    && ResolveLong(t, name, i) == v && ResolveString(t, name, i) == FromInt(v)
    && (forall j: nat | j != i :: ResolveString(t, name, j) == ResolveString(s, name, j))
    && (forall other | other != name :: Stack(t, other) == Stack(s, other))
  }

  ghost predicate IsReadonly(s: Store, name: string) {
    Resolve(s, name).Some? && Resolve(s, name).value.readonly
  }

  lemma NumberStored(s: Store, name: string, i: nat, v: int)
    requires name != ""
    ensures var r := SetValue(s, name, Num(v), i);
            (r.None? <==> IsReadonly(s, name)) && (r.Some? ==> OnlyElement(s, r.value, name, i, v))
  {
    SetValueOnStacks(s, name, Num(v), i);
    ResolveIsTop(s, name);
    var r := SetValue(s, name, Num(v), i);
    if r.Some? { ResolveIsTop(r.value, name); }
  }

  /** The operator in an assignment operator, by the roots of their trees. */
  function OperatorOf(k: Kind): Kind {
    if k == PLUS_ASSIGN then PLUS else if k == MINUS_ASSIGN then MINUS
    else if k == MUL_ASSIGN then TIMES else if k == DIVIDE_ASSIGN then SLASH else if k == MOD_ASSIGN then PCT
    else if k == LSHIFT_ASSIGN then LSHIFT else if k == RSHIFT_ASSIGN then RSHIFT
    else if k == AND_ASSIGN then AMP else if k == XOR_ASSIGN then CARET else PIPE
  }

  /** The result r of storing the computed value in an element, behind t: an exception is one, and so is
      a readonly variable; else the value is in the element, and is the value of the whole. */
  ghost predicate Stores(computed: Option<Res>, r: Option<Res>, t: Store, name: string, i: nat) {
    match computed
    case None => r == None
    case Some(Exc(_)) => r == Some(Exc(t))
    case Some(Val(v, _)) =>
      if IsReadonly(t, name) then r == Some(Exc(t))
      else r.Some? && r.value.Val? && r.value.v == v && OnlyElement(t, r.value.st, name, i, v)
  }

  /** Subscript, then right side, then the element's own value as it is by then; what the operator makes
      of the two is stored. */
  lemma AssignmentStores(p: ArithParser, a: Arith, st: Store, n: nat, i: nat, s: Store, y: int, t: Store)
    returns (computed: Option<Res>)
    requires a.Assign? && a.target.base != "" && (a.aop.Some? ==> Assignable(a.aop.value))
    requires Selects(p, a.target, st, n, i, s) && Eval(p, a.e, s, n) == Some(Val(y, t))
    ensures var k := ArithTree(a).kind; var name := a.target.base;
            && (k == EQUALS ==> computed == Some(Val(y, t)))
            && (k != EQUALS ==> Means(OperatorOf(k), ResolveLong(t, name, i), y, computed, t))
            && Stores(computed, Eval(p, a, st, n), t, name, i)
  {
    hide EvalGroup, Compute, ResolveLong, OnlyElement, Means, ArithTrees, IsReadonly, SetValue, Assigned, AssignKind, OperatorOf;
    Selected(p, a.target, st, n, i, s);
    AssignRoot(a.aop);
    var name, was := a.target.base, ResolveLong(t, a.target.base, i);
    assert Eval(p, a, st, n) == AssignVariable(a.aop, name, i, y, t);
    if a.aop.None? {
      computed := Some(Val(y, t));
      Stored(t, name, i, y);
    } else {
      computed := Finish(Compute(a.aop.value, was, y), t);
      OperatorMeans(a.aop.value, was, y, t);
      var c := Compute(a.aop.value, was, y);
      if c.Value? { Stored(t, name, i, c.v); }
    }
  }

  lemma AssignRoot(op: Option<BinOp>)
    requires op.Some? ==> Assignable(op.value)
    ensures AssignKind(op) == EQUALS <==> op.None?
    ensures op.Some? ==> OperatorOf(AssignKind(op)) == BinKind(op.value)
  {
  }

  lemma Stored(t: Store, name: string, i: nat, v: int)
    requires name != ""
    ensures var r := Assigned(t, name, i, v, v);
            && (IsReadonly(t, name) ==> r == Exc(t))
            && (!IsReadonly(t, name) ==> r.Val? && r.v == v && OnlyElement(t, r.st, name, i, v))
  {
    hide OnlyElement, IsReadonly, SetValue;
    NumberStored(t, name, i, v);
  }

  /** `++` and `--` on the element i: when its text starts with a digit the element changes by one, and the
      value is the new or, for the forms behind the variable, the old one; an empty text comes to 0 and
      stays; any other text is put together with the operator and means what that means. */
  lemma StepsByText(p: ArithParser, a: Arith, st: Store, n: nat, i: nat, s: Store)
    requires a.Step? && a.e.Ref? && a.e.v.base != "" && Selects(p, a.e.v, st, n, i, s)
    ensures var k := ArithTree(a).kind; var name := a.e.v.base;
            var text := ResolveString(s, name, i); var was := ResolveLong(s, name, i);
            var now := if k in {PRE_INCR, POST_INCR} then was + 1 else was - 1;
            var r := Eval(p, a, st, n);
            && (text == "" ==> r == Some(Val(0, s)))
            && (text != "" && IsDigit(text[0]) && IsReadonly(s, name) ==> r == Some(Exc(s)))
            && (text != "" && IsDigit(text[0]) && !IsReadonly(s, name) ==>
                  && r.Some? && r.value.Val? && OnlyElement(s, r.value.st, name, i, now)
                  && r.value.v == if k in {PRE_INCR, PRE_DECR} then now else was)
            && (text != "" && !IsDigit(text[0]) ==>
                  r == EvalText(p, if k == PRE_INCR then "++" + text else if k == PRE_DECR then "--" + text
                                   else if k == POST_INCR then text + "++" else text + "--", s, n))
  {
    hide EvalGroup, ResolveLong, ResolveString, OnlyElement, ArithTrees, IsReadonly, SetValue, EvalText;
    Selected(p, a.e.v, st, n, i, s);
    var name := a.e.v.base;
    var was := ResolveLong(s, name, i);
    NumberStored(s, name, i, if a.up then was + 1 else was - 1);
    assert Eval(p, a, st, n) == StepVariable(p, a.post, a.up, name, i, s, n);
  }
}
