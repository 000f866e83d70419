/** The tree grammar's arithmetic rules: they see only the token stream, move its cursor and change
    the variables. Each rule is proved to do what evaluating the tree at the cursor means. */
module ArithmeticWalker {
  import opened Text
  import opened TokenStream
  import opened VariableStore
  import opened ArithmeticSyntax
  import opened ArithmeticSemantics

  /** The interpreter's variables, shared by all walkers. */
  class SymbolTable {
    var st: Store

    constructor (st: Store)
      ensures this.st == st
    {
      this.st := st;
    }
  }

  /** Operand `a` stands at c, and the greedy reading of its siblings stops where it ends. */
  ghost predicate Operand(s: seq<Token>, c: nat, a: Arith) {
    && HoldsAll(s, c, ArithTrees(a))
    && (a.Paren? ==> !KindAt(s, c + SizeAll(ArithTrees(a)), ARITHMETIC))
  }

  function Width(a: Arith): nat { SizeAll(ArithTrees(a)) }

  ghost function Result(ok: bool, v: int, st: Store): Res { if ok then Val(v, st) else Exc(st) }

  lemma FirstToken(s: seq<Token>, c: nat, a: Arith)
    requires Wf(a) && HoldsAll(s, c, ArithTrees(a))
    ensures c < |s| && s[c].Tok?
    ensures s[c].kind == ARITHMETIC <==> a.Paren?
    ensures !a.Paren? ==> Holds(s, c, ArithTree(a)) && Width(a) == Size(ArithTree(a)) && FormOf(s[c].kind) == TheForm(a)
  {
    hide Wf, ArithTree, GroupTrees, RootKind, FormOf, TheForm, SizeAll;
    WfNonEmpty(a);
    WfAssign(a);
    var ts := ArithTrees(a);
    FirstTree(s, c, ts[0], ts[1..]);
    assert ts == [ts[0]] + ts[1..];
    hide HoldsAll;
    NodeTokens(s, c, ts[0]);
    if !a.Paren? {
      OneTree(s, c, ts[0]);
      FormOfRoot(a);
    }
  }

  /** The tokens between Down and Up of a node with one operand. */
  lemma Inside1(s: seq<Token>, c: nat, t: Tree, a: Arith)
    requires Wf(a) && Holds(s, c, t) && t.children == ArithTrees(a)
    ensures c + Size(t) <= |s| && Size(t) == Width(a) + 3
    ensures s[c + 1] == Down && Operand(s, c + 2, a) && s[c + 2 + Width(a)] == Up
  {
    hide Wf, WfName, WfGroup, ArithTree, ArithTrees, GroupTrees, NameTree, Holds, HoldsAll, Size, SizeAll, Scan,
         SkipOperand;
    WfNonEmpty(a);
    NodeTokens(s, c, t);
  }

  /** An operand with other siblings after it. */
  lemma Leading(s: seq<Token>, c: nat, a: Arith, rest: seq<Tree>)
    requires rest != [] && (a.Paren? ==> rest[0].kind != ARITHMETIC)
    requires HoldsAll(s, c, ArithTrees(a) + rest)
    ensures Operand(s, c, a) && HoldsAll(s, c + Width(a), rest)
    ensures SizeAll(ArithTrees(a) + rest) == Width(a) + SizeAll(rest)
  {
    hide Holds, Size, SizeAll, ArithTrees;
    HoldsAllSplit(s, c, ArithTrees(a), rest);
    NodeTokens(s, c + Width(a), rest[0]);
  }

  lemma Neighbours(s: seq<Token>, c: nat, l: Arith, r: Arith)
    requires Wf(l) && Wf(r) && Separable(l, r)
    requires HoldsAll(s, c, ArithTrees(l) + ArithTrees(r))
    requires !KindAt(s, c + SizeAll(ArithTrees(l) + ArithTrees(r)), ARITHMETIC)
    ensures Operand(s, c, l) && Operand(s, c + Width(l), r)
    ensures SizeAll(ArithTrees(l) + ArithTrees(r)) == Width(l) + Width(r)
  {
    hide Wf, Holds, HoldsAll, Size, SizeAll, ArithTrees;
    WfNonEmpty(r);
    Leading(s, c, l, ArithTrees(r));
  }

  /** The tokens of a node whose first operand is followed by other siblings. */
  lemma InsideHead(s: seq<Token>, c: nat, t: Tree, a: Arith, rest: seq<Tree>)
    requires rest != [] && (a.Paren? ==> rest[0].kind != ARITHMETIC)
    requires Holds(s, c, t) && t.children == ArithTrees(a) + rest
    ensures c + Size(t) <= |s| && Size(t) == Width(a) + SizeAll(rest) + 3
    ensures s[c + 1] == Down && Operand(s, c + 2, a) && HoldsAll(s, c + 2 + Width(a), rest)
    ensures s[c + 2 + Width(a) + SizeAll(rest)] == Up
  {
    hide Holds, HoldsAll, Size, SizeAll, ArithTrees, Operand, Width;
    NodeTokens(s, c, t);
    Leading(s, c + 2, a, rest);
  }

  lemma Inside2(s: seq<Token>, c: nat, t: Tree, l: Arith, r: Arith)
    requires Wf(l) && Wf(r) && Separable(l, r)
    requires Holds(s, c, t) && t.children == ArithTrees(l) + ArithTrees(r)
    ensures c + Size(t) <= |s| && Size(t) == Width(l) + Width(r) + 3
    ensures s[c + 1] == Down && Operand(s, c + 2, l) && Operand(s, c + 2 + Width(l), r)
    ensures s[c + 2 + Width(l) + Width(r)] == Up
  {
    hide Wf, Holds, HoldsAll, Size, SizeAll, ArithTrees;
    WfNonEmpty(r);
    InsideHead(s, c, t, l, ArithTrees(r));
  }

  lemma Inside3(s: seq<Token>, c: nat, t: Tree, x: Arith, y: Arith, z: Arith)
    requires Wf(x) && Wf(y) && Wf(z) && Separable(x, y) && Separable(y, z)
    requires Holds(s, c, t) && t.children == ArithTrees(x) + (ArithTrees(y) + ArithTrees(z))
    ensures c + Size(t) <= |s| && Size(t) == Width(x) + Width(y) + Width(z) + 3
    ensures s[c + 1] == Down && Operand(s, c + 2, x) && Operand(s, c + 2 + Width(x), y)
    ensures Operand(s, c + 2 + Width(x) + Width(y), z) && s[c + 2 + Width(x) + Width(y) + Width(z)] == Up
  {
    hide Wf, Holds, HoldsAll, Size, SizeAll, ArithTrees, Operand, Width;
    WfNonEmpty(y);
    var yz := ArithTrees(y) + ArithTrees(z);
    assert yz != [] && yz[0] == ArithTrees(y)[0];
    InsideHead(s, c, t, x, yz);
    Neighbours(s, c + 2 + Width(x), y, z);
  }

  /** One level of what Wf and the tree shape say. */
  lemma PairShape(a: Arith)
    requires Wf(a) && (a.Binary? || a.LogOr? || a.LogAnd?)
    ensures Wf(a.l) && Wf(a.r) && Separable(a.l, a.r) && (!a.Binary? ==> |ArithTrees(a.r)| == 1)
    ensures ArithTree(a).children == ArithTrees(a.l) + ArithTrees(a.r)
  {
  }

  lemma ChooseShape(a: Arith)
    requires Wf(a) && a.Choose?
    ensures Wf(a.c) && Wf(a.t) && Wf(a.f) && Separable(a.c, a.t) && Separable(a.t, a.f)
    ensures ArithTree(a).children == ArithTrees(a.c) + (ArithTrees(a.t) + ArithTrees(a.f))
  {
  }

  lemma AssignShape(a: Arith)
    requires Wf(a) && a.Assign?
    ensures Wf(a.e) && WfName(a.target)
    ensures ArithTree(a).children == [NameTree(a.target)] + ArithTrees(a.e)
  {
  }

  lemma UnaryShape(a: Arith)
    requires Wf(a) && (a.Unary? || a.Step?)
    ensures Wf(a.e) && (a.Step? ==> a.e.Ref? && WfName(a.e.v))
    ensures ArithTree(a).children == ArithTrees(a.e)
  {
  }

  lemma NameShape(v: Name)
    ensures NameTree(v) == Node(NAME, v.base, GroupTrees(v.index)) && (v.index == [] <==> GroupTrees(v.index) == [])
    ensures WfName(v) == WfGroup(v.index)
    ensures ArithTrees(Ref(v)) == [ArithTree(Ref(v))] && ArithTree(Ref(v)).children == [NameTree(v)]
  {
  }

  lemma PairTokens(s: seq<Token>, c: nat, a: Arith)
    requires Wf(a) && (a.Binary? || a.LogOr? || a.LogAnd?) && Holds(s, c, ArithTree(a))
    ensures Wf(a.l) && Wf(a.r)
    ensures c + Size(ArithTree(a)) <= |s| && Size(ArithTree(a)) == Width(a.l) + Width(a.r) + 3
    ensures s[c + 1] == Down && Operand(s, c + 2, a.l) && Operand(s, c + 2 + Width(a.l), a.r)
    ensures s[c + 2 + Width(a.l) + Width(a.r)] == Up
    ensures !a.Binary? ==> SkipOperand(s, c + 2 + Width(a.l)) == Some(c + 2 + Width(a.l) + Width(a.r))
  {
    hide Wf, WfName, WfGroup, ArithTree, ArithTrees, GroupTrees, NameTree, Holds, HoldsAll, Size, SizeAll, Scan,
         SkipOperand;
    PairShape(a);
    Inside2(s, c, ArithTree(a), a.l, a.r);
    WfNonEmpty(a.r);
    if !a.Binary? { SkipOperandExactIff(s, c + 2 + Width(a.l), ArithTrees(a.r)); }
  }

  lemma ChooseTokens(s: seq<Token>, c: nat, a: Arith)
    requires Wf(a) && a.Choose? && Holds(s, c, ArithTree(a))
    ensures Wf(a.c) && Wf(a.t) && Wf(a.f)
    ensures c + Size(ArithTree(a)) <= |s| && Size(ArithTree(a)) == Width(a.c) + Width(a.t) + Width(a.f) + 3
    ensures s[c + 1] == Down && Operand(s, c + 2, a.c) && Operand(s, c + 2 + Width(a.c), a.t)
    ensures Operand(s, c + 2 + Width(a.c) + Width(a.t), a.f) && s[c + 2 + Width(a.c) + Width(a.t) + Width(a.f)] == Up
  {
    hide Wf, WfName, WfGroup, ArithTree, ArithTrees, GroupTrees, NameTree, Holds, HoldsAll, Size, SizeAll, Scan,
         SkipOperand;
    ChooseShape(a);
    Inside3(s, c, ArithTree(a), a.c, a.t, a.f);
  }

  /** arithmetics: a run of ARITHMETIC siblings, whose last value counts, or one other tree. */
  method Arithmetics(ctx: NodeStream, tab: SymbolTable, p: ArithParser, ghost a: Arith, ghost n: nat)
    returns (ok: bool, v: int)
    requires Wf(a) && Operand(ctx.tokens, ctx.cursor, a) && Eval(p, a, tab.st, n).Some?
    modifies ctx, tab
    ensures Eval(p, a, old(tab.st), n) == Some(Result(ok, v, tab.st))
    ensures ok ==> ctx.cursor == old(ctx.cursor) + Width(a)
    decreases n, 2, a, 2
  {
    hide ArithTree, GroupTrees, Holds, HoldsAll, Size, SizeAll, FormOf, TheForm, EvalGroup;
    FirstToken(ctx.tokens, ctx.cursor, a);
    if ctx.Sees(ARITHMETIC) {
      ok, v := ArithmeticParts(ctx, tab, p, a.items, n);
    } else {
      ok, v := Arithmetic(ctx, tab, p, a, n);
    }
  }

  method ArithmeticParts(ctx: NodeStream, tab: SymbolTable, p: ArithParser, ghost items: seq<Arith>, ghost n: nat)
    returns (ok: bool, v: int)
    requires items != [] && WfGroup(items)
    requires HoldsAll(ctx.tokens, ctx.cursor, GroupTrees(items))
    requires !KindAt(ctx.tokens, ctx.cursor + SizeAll(GroupTrees(items)), ARITHMETIC)
    requires EvalGroup(p, items, tab.st, n).Some?
    modifies ctx, tab
    ensures EvalGroup(p, items, old(tab.st), n) == Some(Result(ok, v, tab.st))
    ensures ok ==> ctx.cursor == old(ctx.cursor) + SizeAll(GroupTrees(items))
    decreases n, 2, items, 0
  {
    hide Wf, ArithTree, ArithTrees, GroupTrees, NameTree, Holds, HoldsAll, Size, SizeAll, Width, Operand, Eval;
    v := 0;
    ghost var k := 0;
    ghost var end := ctx.cursor + SizeAll(GroupTrees(items));
    assert items[0..] == items;
    GroupStart(ctx.tokens, ctx.cursor, items);
    while ctx.Sees(ARITHMETIC)
      invariant 0 <= k <= |items| && WfGroup(items[k..])
      invariant HoldsAll(ctx.tokens, ctx.cursor, GroupTrees(items[k..]))
      invariant ctx.cursor + SizeAll(GroupTrees(items[k..])) == end
      invariant ctx.Sees(ARITHMETIC) <==> k < |items|
      invariant EvalGroup(p, items, old(tab.st), n) ==
                if k < |items| then EvalGroup(p, items[k..], tab.st, n) else Some(Val(v, tab.st))
      decreases |items| - k
    {
      ghost var rest := items[k..];
      assert rest[0] == items[k] && rest[1..] == items[k + 1..];
      GroupStep(ctx.tokens, ctx.cursor, rest);
      ctx.Consume();
      ctx.Consume();
      ok, v := Arithmetics(ctx, tab, p, items[k], n);
      if !ok { return; }
      ctx.Consume();
      k := k + 1;
      GroupStart(ctx.tokens, ctx.cursor, items[k..]);
    }
    assert items[k..] == [];
    GroupStart(ctx.tokens, ctx.cursor, items[k..]);
    ok := true;
  }

  lemma GroupStart(s: seq<Token>, c: nat, items: seq<Arith>)
    requires HoldsAll(s, c, GroupTrees(items))
    ensures if items == [] then SizeAll(GroupTrees(items)) == 0 else KindAt(s, c, ARITHMETIC)
  {
    if items != [] { NodeTokens(s, c, GroupTrees(items)[0]); }
  }

  lemma GroupStep(s: seq<Token>, c: nat, items: seq<Arith>)
    requires items != [] && WfGroup(items) && HoldsAll(s, c, GroupTrees(items))
    ensures c + 3 + Width(items[0]) <= |s|
    ensures s[c + 1] == Down && Operand(s, c + 2, items[0]) && s[c + 2 + Width(items[0])] == Up
    ensures HoldsAll(s, c + 3 + Width(items[0]), GroupTrees(items[1..]))
    ensures SizeAll(GroupTrees(items)) == 3 + Width(items[0]) + SizeAll(GroupTrees(items[1..]))
  {
    var t, rest := Node(ARITHMETIC, "", ArithTrees(items[0])), GroupTrees(items[1..]);
    assert GroupTrees(items) == [t] + rest;
    hide GroupTrees, ArithTrees, Wf, Holds, HoldsAll, Size, SizeAll;
    FirstTree(s, c, t, rest);
    Inside1(s, c, t, items[0]);
  }

  /** name: a NAME, or a NAME node over its subscript, which must not be negative. */
  method VariableName(ctx: NodeStream, tab: SymbolTable, p: ArithParser, ghost name: Name, ghost n: nat)
    returns (ok: bool, base: string, index: nat)
    requires WfName(name) && Holds(ctx.tokens, ctx.cursor, NameTree(name))
    requires name.index == [] ==> ctx.LA(2) != Down
    requires EvalIndex(p, name, tab.st, n).Some?
    modifies ctx, tab
    ensures base == name.base && EvalIndex(p, name, old(tab.st), n) == Some(Result(ok, index, tab.st))
    ensures ok ==> ctx.cursor == old(ctx.cursor) + Size(NameTree(name))
    decreases n, 2, name, 1
  {
    base := ctx.LA(1).text;
    index := 0;
    ok := true;
    if ctx.LA(2) != Down {
      ctx.Consume();
    } else {
      ctx.Consume();
      ctx.Consume();
      var v;
      ok, v := ArithmeticParts(ctx, tab, p, name.index, n);
      if !ok { return; }
      if v < 0 { ok := false; return; }
      index := v;
      ctx.Consume();
    }
  }

  /** eval_arithmetic: parse the text and walk the result on a stream of its own. */
  method EvalArithmetic(tab: SymbolTable, p: ArithParser, text: string, ghost n: nat)
    returns (ok: bool, v: int)
    requires EvalText(p, text, tab.st, n).Some?
    modifies tab
    ensures EvalText(p, text, old(tab.st), n) == Some(Result(ok, v, tab.st))
    decreases n, 0
  {
    var parsed := p(text);
    if parsed.None? { return false, 0; }
    var items := parsed.value;
    var ctx := new NodeStream(FlattenAll(GroupTrees(items)));
    WholeStream(GroupTrees(items));
    ok, v := ArithmeticParts(ctx, tab, p, items, n - 1);
  }

  lemma WholeStream(ts: seq<Tree>)
    ensures HoldsAll(FlattenAll(ts), 0, ts) && |FlattenAll(ts)| == SizeAll(ts)
  {
    FlattenAllSize(ts);
    HoldsAllIsSlice(FlattenAll(ts), 0, ts);
    assert FlattenAll(ts)[0..SizeAll(ts)] == FlattenAll(ts);
  }

  /** arithmetic: the root token alone decides the alternative. */
  method Arithmetic(ctx: NodeStream, tab: SymbolTable, p: ArithParser, ghost a: Arith, ghost n: nat)
    returns (ok: bool, v: int)
    requires Wf(a) && !a.Paren? && Operand(ctx.tokens, ctx.cursor, a) && Eval(p, a, tab.st, n).Some?
    modifies ctx, tab
    ensures Eval(p, a, old(tab.st), n) == Some(Result(ok, v, tab.st))
    ensures ok ==> ctx.cursor == old(ctx.cursor) + Width(a)
    decreases n, 2, a, 1
  {
    FirstToken(ctx.tokens, ctx.cursor, a);
    match FormOf(ctx.LA(1).kind)
    case OrForm => ok, v := ShortCircuit(ctx, tab, p, true, a, n);
    case AndForm => ok, v := ShortCircuit(ctx, tab, p, false, a, n);
    case BinaryForm(op) => ok, v := BinaryOperation(ctx, tab, p, op, a, n);
    case UnaryForm(op) => ok, v := UnaryOperation(ctx, tab, p, op, a, n);
    case ChooseForm => ok, v := ArithmeticCondition(ctx, tab, p, a, n);
    case RefForm => ok, v := Reference(ctx, tab, p, a, n);
    case StepForm(post, up) => ok, v := StepOperation(ctx, tab, p, post, up, a, n);
    case AssignForm(op) => ok, v := Assignment(ctx, tab, p, op, a, n);
    case ExpandForm => ok, v := Expansion(ctx, tab, p, a, n);
    case NumberForm =>
      ok, v := true, DigitsValue(ctx.LA(1).text);
      ctx.Consume();
  }

  method Expansion(ctx: NodeStream, tab: SymbolTable, p: ArithParser, ghost a: Arith, ghost n: nat)
    returns (ok: bool, v: int)
    requires Wf(a) && a.Expand? && Holds(ctx.tokens, ctx.cursor, ArithTree(a)) && Eval(p, a, tab.st, n).Some?
    modifies ctx, tab
    ensures Eval(p, a, old(tab.st), n) == Some(Result(ok, v, tab.st))
    ensures ok ==> ctx.cursor == old(ctx.cursor) + Width(a)
    decreases n, 2, a, 0
  {
    FirstToken(ctx.tokens, ctx.cursor, a);
    ctx.Consume();
    ctx.Consume();
    ok, v := ArithmeticParts(ctx, tab, p, a.items, n);
    if ok { ctx.Consume(); }
  }

  /** `||` when `or`, else `&&`: a deciding left operand makes the cursor jump over the right one. */
  method ShortCircuit(ctx: NodeStream, tab: SymbolTable, p: ArithParser, or: bool, ghost a: Arith, ghost n: nat)
    returns (ok: bool, v: int)
    requires Wf(a) && (if or then a.LogOr? else a.LogAnd?)
    requires Holds(ctx.tokens, ctx.cursor, ArithTree(a)) && EvalLogical(p, a, tab.st, n).Some?
    modifies ctx, tab
    ensures EvalLogical(p, a, old(tab.st), n) == Some(Result(ok, v, tab.st))
    ensures ok ==> ctx.cursor == old(ctx.cursor) + Size(ArithTree(a))
    decreases n, 2, a, 0
  {
    hide Wf, WfName, WfGroup, ArithTree, ArithTrees, GroupTrees, NameTree, Holds, HoldsAll, Size, SizeAll, Width,
         Operand, Scan, SkipOperand, Eval, EvalGroup, EvalIndex, Power, FormOf, TheForm;
    PairTokens(ctx.tokens, ctx.cursor, a);
    ctx.Consume();
    ctx.Consume();
    ok, v := Arithmetics(ctx, tab, p, a.l, n);
    if !ok { return; }
    if (v != 0) == or {
      ctx.SkipNextTokenOrTree();
      v := if or then 1 else 0;
    } else {
      ok, v := Arithmetics(ctx, tab, p, a.r, n);
      if !ok { return; }
      v := if v != 0 then 1 else 0;
    }
    ctx.Consume();
  }

  method BinaryOperation(ctx: NodeStream, tab: SymbolTable, p: ArithParser, op: BinOp, ghost a: Arith, ghost n: nat)
    returns (ok: bool, v: int)
    requires Wf(a) && a.Binary? && a.op == op
    requires Holds(ctx.tokens, ctx.cursor, ArithTree(a)) && EvalBinary(p, a, tab.st, n).Some?
    modifies ctx, tab
    ensures EvalBinary(p, a, old(tab.st), n) == Some(Result(ok, v, tab.st))
    ensures ok ==> ctx.cursor == old(ctx.cursor) + Size(ArithTree(a))
    decreases n, 2, a, 0
  {
    hide Wf, WfName, WfGroup, ArithTree, ArithTrees, GroupTrees, NameTree, Holds, HoldsAll, Size, SizeAll, Width,
         Operand, Scan, SkipOperand, Eval, EvalGroup, EvalIndex, Power, FormOf, TheForm;
    PairTokens(ctx.tokens, ctx.cursor, a);
    ctx.Consume();
    ctx.Consume();
    var l, r;
    ok, l := Arithmetics(ctx, tab, p, a.l, n);
    if !ok { return false, 0; }
    ok, r := Arithmetics(ctx, tab, p, a.r, n);
    if !ok { return false, 0; }
    ok, v := Calculate(op, l, r);
    ctx.Consume();
  }

  /** The operators themselves; `**` multiplies in a loop that counts the exponent down. */
  method Calculate(op: BinOp, l: int, r: int) returns (ok: bool, v: int)
    requires !Compute(op, l, r).Endless?
    ensures Compute(op, l, r) == if ok then Calc.Value(v) else Undefined
  {
    if op == Pow {
      v := 1;
      var left := r;
      while left != 0
        invariant left >= 0 && v * Power(l, left) == Power(l, r)
        decreases left
      {
        PowerStep(v, l, left);
        left := left - 1;
        v := v * l;
      }
      ok := true;
    } else {
      match Compute(op, l, r)
      case Value(x) => ok, v := true, x;
      case Undefined => ok, v := false, 0;
    }
  }

  lemma PowerStep(v: int, l: int, e: nat)
    requires e > 0
    ensures v * Power(l, e) == (v * l) * Power(l, e - 1)
  {
    var q := Power(l, e - 1);
    assert v * (l * q) == (v * l) * q;
  }

  method UnaryOperation(ctx: NodeStream, tab: SymbolTable, p: ArithParser, op: UnOp, ghost a: Arith, ghost n: nat)
    returns (ok: bool, v: int)
    requires Wf(a) && a.Unary? && a.uop == op
    requires Holds(ctx.tokens, ctx.cursor, ArithTree(a)) && Eval(p, a, tab.st, n).Some?
    modifies ctx, tab
    ensures Eval(p, a, old(tab.st), n) == Some(Result(ok, v, tab.st))
    ensures ok ==> ctx.cursor == old(ctx.cursor) + Size(ArithTree(a))
    decreases n, 2, a, 0
  {
    hide Wf, WfName, WfGroup, ArithTree, ArithTrees, GroupTrees, NameTree, Holds, HoldsAll, Size, SizeAll, Operand,
         FormOf, TheForm;
    UnaryShape(a);
    Inside1(ctx.tokens, ctx.cursor, ArithTree(a), a.e);
    ctx.Consume();
    ctx.Consume();
    ok, v := Arithmetics(ctx, tab, p, a.e, n);
    if !ok { return; }
    v := ComputeUnary(op, v);
    ctx.Consume();
  }

  method ArithmeticCondition(ctx: NodeStream, tab: SymbolTable, p: ArithParser, ghost a: Arith, ghost n: nat)
    returns (ok: bool, v: int)
    requires Wf(a) && a.Choose?
    requires Holds(ctx.tokens, ctx.cursor, ArithTree(a)) && EvalChoose(p, a, tab.st, n).Some?
    modifies ctx, tab
    ensures EvalChoose(p, a, old(tab.st), n) == Some(Result(ok, v, tab.st))
    ensures ok ==> ctx.cursor == old(ctx.cursor) + Size(ArithTree(a))
    decreases n, 2, a, 0
  {
    hide Wf, WfName, WfGroup, ArithTree, ArithTrees, GroupTrees, NameTree, Holds, HoldsAll, Size, SizeAll, Width,
         Operand, Scan, SkipOperand, Eval, EvalGroup, EvalIndex, Power, FormOf, TheForm;
    ChooseTokens(ctx.tokens, ctx.cursor, a);
    ctx.Consume();
    ctx.Consume();
    var c, t, f;
    ok, c := Arithmetics(ctx, tab, p, a.c, n);
    if !ok { return false, 0; }
    ok, t := Arithmetics(ctx, tab, p, a.t, n);
    if !ok { return false, 0; }
    ok, f := Arithmetics(ctx, tab, p, a.f, n);
    if !ok { return false, 0; }
    v := if c != 0 then t else f;
    ctx.Consume();
  }

  lemma RefTokens(s: seq<Token>, c: nat, v: Name)
    requires Holds(s, c, ArithTree(Ref(v)))
    ensures c + Width(Ref(v)) <= |s| && Width(Ref(v)) == 3 + Size(NameTree(v))
    ensures s[c + 1] == Down && Holds(s, c + 2, NameTree(v)) && s[c + 2 + Size(NameTree(v))] == Up
    ensures v.index == [] ==> s[c + 3] == Up
  {
    hide Wf, WfName, WfGroup, ArithTree, ArithTrees, GroupTrees, NameTree, Holds, HoldsAll, Size, SizeAll, Scan,
         SkipOperand;
    NameShape(v);
    var t := NameTree(v);
    NodeTokens(s, c, ArithTree(Ref(v)));
    OneTree(s, c, ArithTree(Ref(v)));
    OneTree(s, c + 2, t);
    NodeTokens(s, c + 2, t);
  }

  method Reference(ctx: NodeStream, tab: SymbolTable, p: ArithParser, ghost a: Arith, ghost n: nat)
    returns (ok: bool, v: int)
    requires Wf(a) && a.Ref?
    requires Holds(ctx.tokens, ctx.cursor, ArithTree(a)) && EvalRef(p, a.v, tab.st, n).Some?
    modifies ctx, tab
    ensures EvalRef(p, a.v, old(tab.st), n) == Some(Result(ok, v, tab.st))
    ensures ok ==> ctx.cursor == old(ctx.cursor) + Width(a)
    decreases n, 2, a, 0
  {
    hide WfGroup, ArithTree, ArithTrees, GroupTrees, NameTree, Holds, HoldsAll, Size, SizeAll, EvalGroup, EvalIndex;
    RefTokens(ctx.tokens, ctx.cursor, a.v);
    ctx.Consume();
    ctx.Consume();
    var base, index;
    ok, base, index := VariableName(ctx, tab, p, a.v, n);
    if !ok { return false, 0; }
    ctx.Consume();
    var text := ResolveString(tab.st, base, index);
    if text == "" { return true, 0; }
    ok, v := EvalArithmetic(tab, p, text, n);
  }

  /** set_value with a number. */
  method SetNumber(tab: SymbolTable, base: string, index: nat, v: int) returns (ok: bool)
    modifies tab
    ensures forall result :: Assigned(old(tab.st), base, index, v, result) == Result(ok, result, tab.st)
  {
    var r := SetValue(tab.st, base, Num(v), index);
    ok := r.Some?;
    if ok { tab.st := r.value; }
  }

  lemma StepTokens(s: seq<Token>, c: nat, a: Arith)
    requires Wf(a) && a.Step? && Holds(s, c, ArithTree(a))
    ensures a.e.Ref? && WfName(a.e.v)
    ensures c + Size(ArithTree(a)) <= |s| && Size(ArithTree(a)) == 6 + Size(NameTree(a.e.v))
    ensures Holds(s, c + 4, NameTree(a.e.v)) && (a.e.v.index == [] ==> s[c + 5] == Up)
  {
    hide Wf, WfName, WfGroup, ArithTree, ArithTrees, GroupTrees, NameTree, Holds, HoldsAll, Size, SizeAll, Scan,
         SkipOperand;
    UnaryShape(a);
    Inside1(s, c, ArithTree(a), a.e);
    FirstToken(s, c + 2, a.e);
    RefTokens(s, c + 2, a.e.v);
  }

  method StepOperation(ctx: NodeStream, tab: SymbolTable, p: ArithParser, post: bool, up: bool, ghost a: Arith, ghost n: nat)
    returns (ok: bool, v: int)
    requires Wf(a) && a.Step? && a.post == post && a.up == up
    requires Holds(ctx.tokens, ctx.cursor, ArithTree(a)) && EvalStep(p, a, tab.st, n).Some?
    modifies ctx, tab
    ensures EvalStep(p, a, old(tab.st), n) == Some(Result(ok, v, tab.st))
    ensures ok ==> ctx.cursor == old(ctx.cursor) + Size(ArithTree(a))
    decreases n, 2, a, 0
  {
    hide Wf, WfName, WfGroup, ArithTree, ArithTrees, GroupTrees, NameTree, Holds, HoldsAll, Size, SizeAll, Width,
         Operand, Scan, SkipOperand, Eval, EvalGroup, EvalIndex, Power, FormOf, TheForm;
    StepTokens(ctx.tokens, ctx.cursor, a);
    ctx.Seek(ctx.cursor + 4);
    var base, index;
    ok, base, index := VariableName(ctx, tab, p, a.e.v, n);
    if !ok { return false, 0; }
    ctx.Seek(ctx.cursor + 2);
    ok, v := StepValue(tab, p, post, up, base, index, n);
  }

  method StepValue(tab: SymbolTable, p: ArithParser, post: bool, up: bool, base: string, index: nat, ghost n: nat)
    returns (ok: bool, v: int)
    requires StepVariable(p, post, up, base, index, tab.st, n).Some?
    modifies tab
    ensures StepVariable(p, post, up, base, index, old(tab.st), n) == Some(Result(ok, v, tab.st))
    decreases n, 1
  {
    var text := ResolveString(tab.st, base, index);
    if IsNumber(text) {
      var now := ResolveLong(tab.st, base, index);
      var next := if up then now + 1 else now - 1;
      ok := SetNumber(tab, base, index, next);
      v := if post then (if up then next - 1 else next + 1) else next;
    } else if text == "" {
      ok, v := true, 0;
    } else {
      ok, v := EvalArithmetic(tab, p, if post then text + StepSign(up) else StepSign(up) + text, n);
    }
  }

  lemma AssignTokens(s: seq<Token>, c: nat, a: Arith)
    requires Wf(a) && a.Assign? && Holds(s, c, ArithTree(a))
    ensures WfName(a.target) && Wf(a.e)
    ensures c + Size(ArithTree(a)) <= |s| && Size(ArithTree(a)) == 3 + Size(NameTree(a.target)) + Width(a.e)
    ensures s[c + 1] == Down && Holds(s, c + 2, NameTree(a.target))
    ensures Operand(s, c + 2 + Size(NameTree(a.target)), a.e)
    ensures s[c + Size(ArithTree(a)) - 1] == Up
    ensures a.target.index == [] ==> s[c + 3] != Down
  {
    hide Wf, WfName, WfGroup, ArithTree, ArithTrees, GroupTrees, NameTree, Holds, HoldsAll, Size, SizeAll, Scan,
         SkipOperand;
    AssignShape(a);
    NameShape(a.target);
    var t, rest := NameTree(a.target), ArithTrees(a.e);
    NodeTokens(s, c, ArithTree(a));
    FirstTree(s, c + 2, t, rest);
    NodeTokens(s, c + 2, t);
    FirstToken(s, c + 2 + Size(t), a.e);
  }

  method Assignment(ctx: NodeStream, tab: SymbolTable, p: ArithParser, op: Option<BinOp>, ghost a: Arith, ghost n: nat)
    returns (ok: bool, v: int)
    requires Wf(a) && a.Assign? && a.aop == op
    requires Holds(ctx.tokens, ctx.cursor, ArithTree(a)) && EvalAssign(p, a, tab.st, n).Some?
    modifies ctx, tab
    ensures EvalAssign(p, a, old(tab.st), n) == Some(Result(ok, v, tab.st))
    ensures ok ==> ctx.cursor == old(ctx.cursor) + Size(ArithTree(a))
    decreases n, 2, a, 0
  {
    hide Wf, WfName, WfGroup, ArithTree, ArithTrees, GroupTrees, NameTree, Holds, HoldsAll, Size, SizeAll, Width,
         Operand, Scan, SkipOperand, Eval, EvalGroup, EvalIndex, Power, FormOf, TheForm;
    AssignTokens(ctx.tokens, ctx.cursor, a);
    ctx.Consume();
    ctx.Consume();
    var base, index;
    ok, base, index := VariableName(ctx, tab, p, a.target, n);
    if !ok { return false, 0; }
    ok, v := Arithmetics(ctx, tab, p, a.e, n);
    if !ok { return false, 0; }
    if op.Some? {
      ok, v := Calculate(op.value, ResolveLong(tab.st, base, index), v);
      if !ok { return false, 0; }
    }
    ok := SetNumber(tab, base, index, v);
    ctx.Consume();
  }
}
