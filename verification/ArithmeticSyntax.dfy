/** Arithmetic trees as the parser builds them, and their shape in the node stream. */
module ArithmeticSyntax {
  import opened Text
  import opened TokenStream

  datatype UnOp = Pos | Neg | Compl | Not

  datatype BinOp = BitOr | BitXor | BitAnd | Le | Ge | Lt | Gt | Ne | Eq | Shl | Shr
                 | Add | Sub | Mul | Div | Mod | Pow

  /** A variable, with a comma list as subscript; an empty list means no subscript. */
  datatype Name = Name(base: string, index: seq<Arith>)

  /** Paren is a parenthesised comma list; it has no node of its own, only one ARITHMETIC sibling
      per item. Expand is an arithmetic expansion inside an expression. */
  datatype Arith =
    | Number(digits: string)
    | Ref(v: Name)
    | Paren(items: seq<Arith>)
    | Expand(items: seq<Arith>)
    | Unary(uop: UnOp, e: Arith)
    | Binary(op: BinOp, l: Arith, r: Arith)
    | LogOr(l: Arith, r: Arith)
    | LogAnd(l: Arith, r: Arith)
    | Choose(c: Arith, t: Arith, f: Arith)
    | Step(post: bool, up: bool, e: Arith)
    | Assign(aop: Option<BinOp>, target: Name, e: Arith)

  function BinKind(op: BinOp): Kind {
    match op
    case BitOr => PIPE case BitXor => CARET case BitAnd => AMP
    case Le => LEQ case Ge => GEQ case Lt => LESS_THAN case Gt => GREATER_THAN
    case Ne => NOT_EQUALS case Eq => EQUALS_TO
    case Shl => LSHIFT case Shr => RSHIFT
    case Add => PLUS case Sub => MINUS
    case Mul => TIMES case Div => SLASH case Mod => PCT
    case Pow => EXP
  }

  function UnKind(op: UnOp): Kind {
    match op case Pos => PLUS_SIGN case Neg => MINUS_SIGN case Compl => TILDE case Not => BANG
  }

  /** The operators that have an assignment form. */
  predicate Assignable(op: BinOp) {
    op !in {Le, Ge, Lt, Gt, Ne, Eq, Pow}
  }

  function AssignKind(op: Option<BinOp>): Kind {
    match op
    case None => EQUALS
    case Some(Mul) => MUL_ASSIGN case Some(Div) => DIVIDE_ASSIGN case Some(Mod) => MOD_ASSIGN
    case Some(Add) => PLUS_ASSIGN case Some(Sub) => MINUS_ASSIGN
    case Some(Shl) => LSHIFT_ASSIGN case Some(Shr) => RSHIFT_ASSIGN
    case Some(BitAnd) => AND_ASSIGN case Some(BitXor) => XOR_ASSIGN
    case Some(_) => OR_ASSIGN
  }

  function StepKind(post: bool, up: bool): Kind {
    if post then (if up then POST_INCR else POST_DECR) else (if up then PRE_INCR else PRE_DECR)
  }

  /** What the tree grammar's alternatives decide from the root token alone. */
  datatype Form =
    | NumberForm | RefForm | ExpandForm | OrForm | AndForm | ChooseForm
    | UnaryForm(uop: UnOp)
    | BinaryForm(op: BinOp)
    | StepForm(post: bool, up: bool)
    | AssignForm(aop: Option<BinOp>)
    | NoForm

  function FormOf(k: Kind): Form {
    if k == NUMBER then NumberForm
    else if k == VAR_REF then RefForm
    else if k == ARITHMETIC_EXPRESSION then ExpandForm
    else if k == LOGICOR then OrForm
    else if k == LOGICAND then AndForm
    else if k == ARITHMETIC_CONDITION then ChooseForm
    else if k == PLUS_SIGN then UnaryForm(Pos)
    else if k == MINUS_SIGN then UnaryForm(Neg)
    else if k == TILDE then UnaryForm(Compl)
    else if k == BANG then UnaryForm(Not)
    else if k == PIPE then BinaryForm(BitOr)
    else if k == CARET then BinaryForm(BitXor)
    else if k == AMP then BinaryForm(BitAnd)
    else if k == LEQ then BinaryForm(Le)
    else if k == GEQ then BinaryForm(Ge)
    else if k == LESS_THAN then BinaryForm(Lt)
    else if k == GREATER_THAN then BinaryForm(Gt)
    else if k == NOT_EQUALS then BinaryForm(Ne)
    else if k == EQUALS_TO then BinaryForm(Eq)
    else if k == LSHIFT then BinaryForm(Shl)
    else if k == RSHIFT then BinaryForm(Shr)
    else if k == PLUS then BinaryForm(Add)
    else if k == MINUS then BinaryForm(Sub)
    else if k == TIMES then BinaryForm(Mul)
    else if k == SLASH then BinaryForm(Div)
    else if k == PCT then BinaryForm(Mod)
    else if k == EXP then BinaryForm(Pow)
    else if k == PRE_INCR then StepForm(false, true)
    else if k == PRE_DECR then StepForm(false, false)
    else if k == POST_INCR then StepForm(true, true)
    else if k == POST_DECR then StepForm(true, false)
    else if k == EQUALS then AssignForm(None)
    else if k == MUL_ASSIGN then AssignForm(Some(Mul))
    else if k == DIVIDE_ASSIGN then AssignForm(Some(Div))
    else if k == MOD_ASSIGN then AssignForm(Some(Mod))
    else if k == PLUS_ASSIGN then AssignForm(Some(Add))
    else if k == MINUS_ASSIGN then AssignForm(Some(Sub))
    else if k == LSHIFT_ASSIGN then AssignForm(Some(Shl))
    else if k == RSHIFT_ASSIGN then AssignForm(Some(Shr))
    else if k == AND_ASSIGN then AssignForm(Some(BitAnd))
    else if k == XOR_ASSIGN then AssignForm(Some(BitXor))
    else if k == OR_ASSIGN then AssignForm(Some(BitOr))
    else NoForm
  }

  function TheForm(a: Arith): Form
    requires !a.Paren?
  {
    match a
    case Number(_) => NumberForm
    case Ref(_) => RefForm
    case Expand(_) => ExpandForm
    case Unary(op, _) => UnaryForm(op)
    case Binary(op, _, _) => BinaryForm(op)
    case LogOr(_, _) => OrForm
    case LogAnd(_, _) => AndForm
    case Choose(_, _, _) => ChooseForm
    case Step(post, up, _) => StepForm(post, up)
    case Assign(op, _, _) => AssignForm(op)
  }

  lemma FormOfBinary(op: BinOp)
    ensures FormOf(BinKind(op)) == BinaryForm(op)
  {
  }

  lemma FormOfUnary(op: UnOp)
    ensures FormOf(UnKind(op)) == UnaryForm(op)
  {
  }

  lemma FormOfStep(post: bool, up: bool)
    ensures FormOf(StepKind(post, up)) == StepForm(post, up)
  {
  }

  lemma FormOfAssign(op: Option<BinOp>)
    requires op.Some? ==> Assignable(op.value)
    ensures FormOf(AssignKind(op)) == AssignForm(op)
  {
  }

  function RootKind(a: Arith): Kind
    requires !a.Paren?
  {
    match a
    case Number(_) => NUMBER
    case Ref(_) => VAR_REF
    case Expand(_) => ARITHMETIC_EXPRESSION
    case Unary(op, _) => UnKind(op)
    case Binary(op, _, _) => BinKind(op)
    case LogOr(_, _) => LOGICOR
    case LogAnd(_, _) => LOGICAND
    case Choose(_, _, _) => ARITHMETIC_CONDITION
    case Step(post, up, _) => StepKind(post, up)
    case Assign(op, _, _) => AssignKind(op)
  }

  lemma FormOfRoot(a: Arith)
    requires !a.Paren? && (a.Assign? && a.aop.Some? ==> Assignable(a.aop.value))
    ensures FormOf(RootKind(a)) == TheForm(a)
  {
    match a
    case Unary(op, _) => FormOfUnary(op);
    case Binary(op, _, _) => FormOfBinary(op);
    case Step(post, up, _) => FormOfStep(post, up);
    case Assign(op, _, _) => FormOfAssign(op);
    case Number(_) =>
    case Ref(_) =>
    case Expand(_) =>
    case LogOr(_, _) =>
    case LogAnd(_, _) =>
    case Choose(_, _, _) =>
  }

  /** The siblings that an operand contributes to its parent. */
  function ArithTrees(a: Arith): (ts: seq<Tree>)
    decreases a, 1
  {
    if a.Paren? then GroupTrees(a.items) else [ArithTree(a)]
  }

  function GroupTrees(items: seq<Arith>): (ts: seq<Tree>)
    ensures |ts| == |items|
    ensures forall i | 0 <= i < |ts| :: ts[i].kind == ARITHMETIC
    decreases items
  {
    if items == [] then [] else [Node(ARITHMETIC, "", ArithTrees(items[0]))] + GroupTrees(items[1..])
  }

  function NameTree(n: Name): Tree
    decreases n
  {
    Node(NAME, n.base, GroupTrees(n.index))
  }

  function ArithTree(a: Arith): (t: Tree)
    requires !a.Paren?
    ensures t.kind == RootKind(a) != ARITHMETIC
    decreases a, 0
  {
    match a
    case Number(d) => Node(NUMBER, d, [])
    case Ref(v) => Node(VAR_REF, "", [NameTree(v)])
    case Expand(items) => Node(ARITHMETIC_EXPRESSION, "", GroupTrees(items))
    case Unary(op, e) => Node(UnKind(op), "", ArithTrees(e))
    case Binary(op, l, r) => Node(BinKind(op), "", ArithTrees(l) + ArithTrees(r))
    case LogOr(l, r) => Node(LOGICOR, "", ArithTrees(l) + ArithTrees(r))
    case LogAnd(l, r) => Node(LOGICAND, "", ArithTrees(l) + ArithTrees(r))
    case Choose(c, t, f) => Node(ARITHMETIC_CONDITION, "", ArithTrees(c) + (ArithTrees(t) + ArithTrees(f)))
    case Step(post, up, e) => Node(StepKind(post, up), "", ArithTrees(e))
    case Assign(op, v, e) => Node(AssignKind(op), "", [NameTree(v)] + ArithTrees(e))
  }

  /** Two operands that are neighbours in the stream can be told apart: `arithmetics` takes every
      ARITHMETIC sibling it sees. */
  predicate Separable(l: Arith, r: Arith) { !(l.Paren? && r.Paren?) }

  /** The shapes the tree walker can read: neighbouring operands are separable, the operand that a
      short circuit skips is one sibling, and only variables are stepped. */
  predicate Wf(a: Arith)
    decreases a
  {
    match a
    case Number(d) => d != "" && AllDigits(d)
    case Ref(v) => WfName(v)
    case Paren(items) => items != [] && WfGroup(items)
    case Expand(items) => items != [] && WfGroup(items)
    case Unary(_, e) => Wf(e)
    case Binary(_, l, r) => Wf(l) && Wf(r) && Separable(l, r)
    case LogOr(l, r) => Wf(l) && Wf(r) && Separable(l, r) && |ArithTrees(r)| == 1
    case LogAnd(l, r) => Wf(l) && Wf(r) && Separable(l, r) && |ArithTrees(r)| == 1
    case Choose(c, t, f) => Wf(c) && Wf(t) && Wf(f) && Separable(c, t) && Separable(t, f)
    case Step(_, _, e) => e.Ref? && Wf(e)
    case Assign(op, v, e) => (op.Some? ==> Assignable(op.value)) && WfName(v) && Wf(e)
  }

  predicate WfName(n: Name)
    decreases n
  {
    WfGroup(n.index)
  }

  predicate WfGroup(items: seq<Arith>)
    decreases items
  {
    items != [] ==> Wf(items[0]) && WfGroup(items[1..])
  }

  /** How many siblings `arithmetics` takes: a run of ARITHMETIC trees, or one other tree. */
  function GreedyRun(ts: seq<Tree>): nat {
    if ts == [] then 0 else if ts[0].kind == ARITHMETIC then ArithmeticRun(ts) else 1
  }

  function ArithmeticRun(ts: seq<Tree>): nat {
    if ts == [] || ts[0].kind != ARITHMETIC then 0 else 1 + ArithmeticRun(ts[1..])
  }

  lemma {:induction false} ArithmeticRunOver(ts: seq<Tree>, us: seq<Tree>)
    requires forall i | 0 <= i < |ts| :: ts[i].kind == ARITHMETIC
    ensures ArithmeticRun(ts + us) == |ts| + ArithmeticRun(us)
  {
    if ts == [] {
      assert ts + us == us;
    } else {
      assert (ts + us)[1..] == ts[1..] + us;
      ArithmeticRunOver(ts[1..], us);
    }
  }

  lemma WfNonEmpty(a: Arith)
    requires Wf(a)
    ensures ArithTrees(a) != []
    ensures ArithTrees(a)[0].kind == ARITHMETIC <==> a.Paren?
  {
  }

  lemma WfAssign(a: Arith)
    requires Wf(a)
    ensures a.Assign? && a.aop.Some? ==> Assignable(a.aop.value)
  {
  }

  /** The greedy reading of the first of two operands stops where that operand ends if and only if
      the two are separable. */
  lemma GreedyExactIff(l: Arith, r: Arith)
    requires Wf(l) && Wf(r)
    ensures GreedyRun(ArithTrees(l) + ArithTrees(r)) == |ArithTrees(l)| <==> Separable(l, r)
  {
    WfNonEmpty(l);
    WfNonEmpty(r);
    if l.Paren? { ArithmeticRunOver(ArithTrees(l), ArithTrees(r)); }
  }

  /** Not every tree the grammar builds is readable: `(1)?(2,3):4` and `(1,2)?(3):4` are one and the
      same stream. */
  lemma AdjacentGroupsAmbiguous()
    ensures var one, two, three, four := Number("1"), Number("2"), Number("3"), Number("4");
            var a := Choose(Paren([one]), Paren([two, three]), four);
            var b := Choose(Paren([one, two]), Paren([three]), four);
            a != b && ArithTree(a) == ArithTree(b)
  {
    var one, two, three := Number("1"), Number("2"), Number("3");
    GroupAppend([one], [two]);
    GroupAppend([two], [three]);
    assert [one] + [two] == [one, two] && [two] + [three] == [two, three];
  }

  lemma {:induction false} GroupAppend(xs: seq<Arith>, ys: seq<Arith>)
    ensures GroupTrees(xs + ys) == GroupTrees(xs) + GroupTrees(ys)
  {
    if xs == [] {
      assert xs + ys == ys;
    } else {
      assert (xs + ys)[1..] == xs[1..] + ys;
      GroupAppend(xs[1..], ys);
    }
  }

  // ---- Under Wf, trees are decoded in one way only ----

  lemma OperandsSplit(l: Arith, r: seq<Tree>, l': Arith, r': seq<Tree>)
    requires Wf(l) && Wf(l')
    requires ArithTrees(l) + r == ArithTrees(l') + r'
    requires l.Paren? ==> r == [] || r[0].kind != ARITHMETIC
    requires l'.Paren? ==> r' == [] || r'[0].kind != ARITHMETIC
    ensures ArithTrees(l) == ArithTrees(l') && r == r'
  {
    var a, b := ArithTrees(l), ArithTrees(l');
    WfNonEmpty(l);
    WfNonEmpty(l');
    assert (a + r)[0] == a[0] && (b + r')[0] == b[0];
    if l.Paren? {
      ArithmeticRunOver(a, r);
      ArithmeticRunOver(b, r');
    }
    assert |a| == |b|;
    assert a == (a + r)[..|a|] && b == (b + r')[..|b|];
    assert r == (a + r)[|a|..] && r' == (b + r')[|b|..];
  }

  lemma SeparableSplit(l: Arith, r: Arith, l': Arith, r': Arith)
    requires Wf(l) && Wf(r) && Wf(l') && Wf(r') && Separable(l, r) && Separable(l', r')
    requires ArithTrees(l) + ArithTrees(r) == ArithTrees(l') + ArithTrees(r')
    ensures ArithTrees(l) == ArithTrees(l') && ArithTrees(r) == ArithTrees(r')
  {
    WfNonEmpty(r);
    WfNonEmpty(r');
    OperandsSplit(l, ArithTrees(r), l', ArithTrees(r'));
  }

  lemma ChooseSplit(a: Arith, b: Arith)
    requires Wf(a) && Wf(b) && a.Choose? && b.Choose? && ArithTree(a) == ArithTree(b)
    ensures ArithTrees(a.c) == ArithTrees(b.c) && ArithTrees(a.t) == ArithTrees(b.t) && ArithTrees(a.f) == ArithTrees(b.f)
  {
    WfNonEmpty(a.t);
    WfNonEmpty(b.t);
    var r, r' := ArithTrees(a.t) + ArithTrees(a.f), ArithTrees(b.t) + ArithTrees(b.f);
    assert r[0] == ArithTrees(a.t)[0] && r'[0] == ArithTrees(b.t)[0];
    OperandsSplit(a.c, r, b.c, r');
    SeparableSplit(a.t, a.f, b.t, b.f);
  }

  lemma {:induction false} SameGroup(xs: seq<Arith>, ys: seq<Arith>)
    requires WfGroup(xs) && WfGroup(ys) && GroupTrees(xs) == GroupTrees(ys)
    ensures xs == ys
    decreases xs
  {
    assert |xs| == |ys|;
    if xs != [] {
      var a, b := GroupTrees(xs), GroupTrees(ys);
      assert a[0].children == ArithTrees(xs[0]) && b[0].children == ArithTrees(ys[0]);
      SameOperand(xs[0], ys[0]);
      assert a[1..] == GroupTrees(xs[1..]) && b[1..] == GroupTrees(ys[1..]);
      SameGroup(xs[1..], ys[1..]);
    }
  }

  lemma {:induction false} SameName(v: Name, w: Name)
    requires WfName(v) && WfName(w) && NameTree(v) == NameTree(w)
    ensures v == w
    decreases v
  {
    SameGroup(v.index, w.index);
  }

  lemma {:induction false} SameOperand(a: Arith, b: Arith)
    requires Wf(a) && Wf(b) && ArithTrees(a) == ArithTrees(b)
    ensures a == b
    decreases a, 1
  {
    WfNonEmpty(a);
    WfNonEmpty(b);
    if a.Paren? {
      SameGroup(a.items, b.items);
    } else {
      assert ArithTrees(a)[0] == ArithTree(a) && ArithTrees(b)[0] == ArithTree(b);
      SameTree(a, b);
    }
  }

  lemma {:induction false} SameTree(a: Arith, b: Arith)
    requires Wf(a) && Wf(b) && !a.Paren? && !b.Paren?
    requires ArithTree(a) == ArithTree(b)
    ensures a == b
    decreases a, 0
  {
    FormOfRoot(a);
    FormOfRoot(b);
    match a
    case Number(_) =>
    case Ref(v) =>
      assert [NameTree(v)][0] == [NameTree(b.v)][0];
      SameName(v, b.v);
    case Expand(items) => SameGroup(items, b.items);
    case Unary(_, e) => SameOperand(e, b.e);
    case Step(_, _, e) => SameOperand(e, b.e);
    case Choose(c, t, f) =>
      ChooseSplit(a, b);
      SameOperand(c, b.c);
      SameOperand(t, b.t);
      SameOperand(f, b.f);
    case Assign(_, v, e) =>
      var x, y := [NameTree(v)] + ArithTrees(e), [NameTree(b.target)] + ArithTrees(b.e);
      assert x[0] == NameTree(v) && y[0] == NameTree(b.target) && x[1..] == ArithTrees(e) && y[1..] == ArithTrees(b.e);
      SameName(v, b.target);
      SameOperand(e, b.e);
    case Binary(_, l, r) =>
      SeparableSplit(l, r, b.l, b.r);
      SameOperand(l, b.l);
      SameOperand(r, b.r);
    case LogOr(l, r) =>
      SeparableSplit(l, r, b.l, b.r);
      SameOperand(l, b.l);
      SameOperand(r, b.r);
    case LogAnd(l, r) =>
      SeparableSplit(l, r, b.l, b.r);
      SameOperand(l, b.l);
      SameOperand(r, b.r);
  }

  /** Two readable expressions with the same flat stream are the same expression, whatever follows. */
  lemma UniqueDecoding(a: Arith, b: Arith, x: seq<Token>, y: seq<Token>)
    requires Wf(a) && Wf(b) && !a.Paren? && !b.Paren?
    requires (x == [] || x[0] != Down) && (y == [] || y[0] != Down)
    requires Flatten(ArithTree(a)) + x == Flatten(ArithTree(b)) + y
    ensures a == b && x == y
  {
    FlattenUnique(ArithTree(a), ArithTree(b), x, y);
    SameTree(a, b);
  }
}
