/** Which operator binds first, stated by the tokens as they are written and without the ladder of the
    parser. */
module Precedence {
  import opened Text
  import opened TokenStream
  import opened ArithmeticSyntax
  import opened ArithmeticGrammar

  /** An operator as it is written: one token or two. */
  datatype Spelling = One(k: Kind) | Two(k: Kind, k2: Kind)

  const COMPARISONS: nat := 5

  /** The binary operators, loosest rung first. */
  predicate OnRung(i: nat, op: Spelling) {
    if i == 0 then op == One(LOGICOR)
    else if i == 1 then op == One(LOGICAND)
    else if i == 2 then op == One(PIPE)
    else if i == 3 then op == One(CARET)
    else if i == 4 then op == One(AMP)
    else if i == COMPARISONS then
      op == One(LESS_THAN) || op == Two(LESS_THAN, EQUALS) || op == One(GREATER_THAN) || op == Two(GREATER_THAN, EQUALS)
      || op == Two(BANG, EQUALS) || op == Two(EQUALS, EQUALS)
    else if i == 6 then op == One(LSHIFT) || op == One(RSHIFT)
    else if i == 7 then op == One(PLUS) || op == One(MINUS)
    else if i == 8 then op == One(TIMES) || op == One(SLASH) || op == One(PCT)
    else i == 9 && op == One(EXP)
  }

  /** An operator and a blank in front of s. */
  function Written(op: Spelling, s: Syms): Syms {
    On(op.k, if op.Two? then On(op.k2, On(BLANK, s)) else On(BLANK, s))
  }

  /** The root of the tree for an operator: its token, or one token for the two. */
  function NodeOf(op: Spelling): Kind {
    if op == Two(LESS_THAN, EQUALS) then LEQ
    else if op == Two(GREATER_THAN, EQUALS) then GEQ
    else if op == Two(BANG, EQUALS) then NOT_EQUALS
    else if op == Two(EQUALS, EQUALS) then EQUALS_TO
    else op.k
  }

  /** The tree with this root over these two operands. */
  predicate Joined(a: Arith, op: Spelling, l: Arith, r: Arith) {
    (a.Binary? || a.LogOr? || a.LogAnd?) && a.l == l && a.r == r && ArithTree(a).kind == NodeOf(op)
  }

  /** Readable where the grammar wants a signed or plain primary. */
  ghost predicate IsOperand(x: Arith) {
    exists s :: ParseUnary(s) == Some((x, Done))
  }

  lemma OperandLevel(x: Arith)
    ensures IsOperand(x) <==> Built(x) && Level(x) >= 10
  {
    if IsOperand(x) {
      var s :| ParseUnary(s) == Some((x, Done));
      UnaryBuilt(s);
    }
    if Built(x) && Level(x) >= 10 { UnaryRead(x, Done); }
  }

  /** The parser's name for an operator. */
  function Named(op: Spelling): Infix
  {
    var k := NodeOf(op);
    if k == LOGICOR then OrInfix
    else if k == LOGICAND then AndInfix
    else OpInfix(
      if k == PIPE then BitOr else if k == CARET then BitXor else if k == AMP then BitAnd
      else if k == LEQ then Le else if k == GEQ then Ge else if k == LESS_THAN then Lt else if k == GREATER_THAN then Gt
      else if k == NOT_EQUALS then Ne else if k == EQUALS_TO then Eq
      else if k == LSHIFT then Shl else if k == RSHIFT then Shr
      else if k == PLUS then Add else if k == MINUS then Sub
      else if k == TIMES then Mul else if k == SLASH then Div else if k == PCT then Mod
      else Pow)
  }

  lemma NamedLevel(i: nat, op: Spelling)
    requires OnRung(i, op)
    ensures LevelOf(Named(op)) == i < 10
  {
  }

  lemma NamedNode(i: nat, op: Spelling)
    requires OnRung(i, op)
    ensures NodeOf(op) == match Named(op) case OrInfix => LOGICOR case AndInfix => LOGICAND case OpInfix(o) => BinKind(o)
  {
  }

  lemma NamedJoins(i: nat, op: Spelling, l: Arith, r: Arith)
    requires OnRung(i, op)
    ensures Joined(Combine(Named(op), l, r), op, l, r)
  {
    hide ArithTree, ArithTrees, OnRung, Named, NodeOf, BinKind;
    NamedNode(i, op);
  }

  lemma NamedWrites(i: nat, op: Spelling, s: Syms)
    requires OnRung(i, op)
    ensures Written(op, s) == InfixOn(Named(op), On(BLANK, s))
  {
  }

  // ---- Two operators in a row ----

  /** `x p y q z`. */
  function Row(x: Arith, p: Spelling, y: Arith, q: Spelling, z: Arith): Syms {
    Put(x, Written(p, Put(y, Written(q, Put(z, Done)))))
  }

  ghost predicate ReadsLeft(s: Syms, x: Arith, p: Spelling, y: Arith, q: Spelling, z: Arith) {
    exists a, b :: Joined(a, p, x, y) && Joined(b, q, a, z) && ParseArith(s) == Some((b, Done))
  }

  ghost predicate ReadsRight(s: Syms, x: Arith, p: Spelling, y: Arith, q: Spelling, z: Arith) {
    exists a, b :: Joined(a, q, y, z) && Joined(b, p, x, a) && ParseArith(s) == Some((b, Done))
  }

  /** Only the first operator is read; the rest is left over. */
  ghost predicate ReadsFirst(s: Syms, x: Arith, p: Spelling, y: Arith, q: Spelling, z: Arith) {
    exists a :: Joined(a, p, x, y) && ParseArith(s) == Some((a, Written(q, Put(z, Done))))
  }

  /** The operator of the later rung takes its operands first; operators of one rung group to the left,
      but a second comparison is not read at all. */
  lemma TwoOperators(i: nat, p: Spelling, j: nat, q: Spelling, x: Arith, y: Arith, z: Arith)
    requires OnRung(i, p) && OnRung(j, q)
    requires IsOperand(x) && IsOperand(y) && IsOperand(z)
    ensures i < j ==> ReadsRight(Row(x, p, y, q, z), x, p, y, q, z)
    ensures i > j ==> ReadsLeft(Row(x, p, y, q, z), x, p, y, q, z)
    ensures i == j != COMPARISONS ==> ReadsLeft(Row(x, p, y, q, z), x, p, y, q, z)
    ensures i == j == COMPARISONS ==> ReadsFirst(Row(x, p, y, q, z), x, p, y, q, z)
  {
    hide Put, Built, Level, ParseArith, Written, IsOperand, OnRung, ReadsRight, ReadsLeft, ReadsFirst;
    OperandLevel(x);
    OperandLevel(y);
    OperandLevel(z);
    if i < j {
      SecondFirst(i, p, j, q, x, y, z);
    } else if i == j == COMPARISONS {
      OnlyOne(p, q, x, y, z);
    } else {
      FirstFirst(i, p, j, q, x, y, z);
    }
  }

  lemma SecondFirst(i: nat, p: Spelling, j: nat, q: Spelling, x: Arith, y: Arith, z: Arith)
    requires i < j && OnRung(i, p) && OnRung(j, q)
    requires Built(x) && Built(y) && Built(z) && Level(x) >= 10 && Level(y) >= 10 && Level(z) >= 10
    ensures ReadsRight(Row(x, p, y, q, z), x, p, y, q, z)
  {
    hide Put, Built, Level, ParseArith, Written, InfixOn, Joined, LevelOf, OnRung, Named, Combine;
    NamedLevel(i, p);
    NamedLevel(j, q);
    NamedWrites(j, q, Put(z, Done));
    NamedWrites(i, p, Put(y, Written(q, Put(z, Done))));
    var a := Combine(Named(q), y, z);
    var b := Combine(Named(p), x, a);
    CombineBuilt(Named(q), y, z);
    CombineBuilt(Named(p), x, a);
    PutCombine(Named(p), x, a, Done);
    PutCombine(Named(q), y, z, Done);
    RoundTrip(b);
    NamedJoins(j, q, y, z);
    NamedJoins(i, p, x, a);
  }

  lemma FirstFirst(i: nat, p: Spelling, j: nat, q: Spelling, x: Arith, y: Arith, z: Arith)
    requires j <= i && OnRung(i, p) && OnRung(j, q) && (i == j ==> i != COMPARISONS)
    requires Built(x) && Built(y) && Built(z) && Level(x) >= 10 && Level(y) >= 10 && Level(z) >= 10
    ensures ReadsLeft(Row(x, p, y, q, z), x, p, y, q, z)
  {
    hide Put, Built, Level, ParseArith, Written, InfixOn, Joined, LevelOf, OnRung, Named, Combine;
    NamedLevel(i, p);
    NamedLevel(j, q);
    NamedWrites(j, q, Put(z, Done));
    NamedWrites(i, p, Put(y, Written(q, Put(z, Done))));
    var a := Combine(Named(p), x, y);
    var b := Combine(Named(q), a, z);
    CombineBuilt(Named(p), x, y);
    CombineBuilt(Named(q), a, z);
    PutCombine(Named(q), a, z, Done);
    PutCombine(Named(p), x, y, InfixOn(Named(q), On(BLANK, Put(z, Done))));
    RoundTrip(b);
    NamedJoins(i, p, x, y);
    NamedJoins(j, q, a, z);
  }

  lemma OnlyOne(p: Spelling, q: Spelling, x: Arith, y: Arith, z: Arith)
    requires OnRung(COMPARISONS, p) && OnRung(COMPARISONS, q)
    requires Built(x) && Built(y) && Built(z) && Level(x) >= 10 && Level(y) >= 10 && Level(z) >= 10
    ensures ReadsFirst(Row(x, p, y, q, z), x, p, y, q, z)
  {
    hide Put, Built, Level, ParseArith, Written, InfixOn, Joined, LevelOf, OnRung, Named, Combine;
    NamedLevel(COMPARISONS, p);
    NamedLevel(COMPARISONS, q);
    NamedWrites(COMPARISONS, q, Put(z, Done));
    NamedWrites(COMPARISONS, p, Put(y, Written(q, Put(z, Done))));
    var a := Combine(Named(p), x, y);
    CombineBuilt(Named(p), x, y);
    PutCombine(Named(p), x, y, InfixOn(Named(q), On(BLANK, Put(z, Done))));
    StopsBefore(a, Named(q), Put(z, Done));
    NamedJoins(COMPARISONS, p, x, y);
  }

  /** A comparison is read up to another comparison. */
  lemma StopsBefore(a: Arith, g: Infix, s: Syms)
    requires Built(a) && Level(a) == LevelOf(g) == 5
    ensures var t := InfixOn(g, On(BLANK, s)); ParseArith(Put(a, t)) == Some((a, t))
  {
    hide Put, Built, ParseLevel, InfixOn, InfixAt, LevelOf, Target, Level;
    var t := InfixOn(g, On(BLANK, s));
    InfixOnFollows(g, s);
    Spine(5, a, t);
    UpFrom(4, a, t);
    Infixed(a);
    NotTarget(a, t);
    NoMark(g, On(BLANK, s));
  }

  lemma Infixed(a: Arith)
    requires Level(a) >= 0
    ensures !a.Assign? && !a.Choose?
  {
  }

  lemma NoMark(g: Infix, s: Syms)
    ensures !Begins(InfixOn(g, s), QMARK)
  {
  }

  lemma {:induction false} UpFrom(k: nat, a: Arith, t: Syms)
    requires k < 5 && ParseLevel(5, Put(a, t)) == Some((a, t)) && InfixOf(5, t)
    ensures ParseLevel(0, Put(a, t)) == Some((a, t))
  {
    hide Put, InfixAt;
    assert ParseLevel(4, Put(a, t)) == Some((a, t));
    assert ParseLevel(3, Put(a, t)) == Some((a, t));
    assert ParseLevel(2, Put(a, t)) == Some((a, t));
    assert ParseLevel(1, Put(a, t)) == Some((a, t));
  }

  // ---- Signs, steps, assignments and conditions ----

  /** The root of the tree for a sign. */
  function SignNode(k: Kind): Kind { if k == PLUS then PLUS_SIGN else if k == MINUS then MINUS_SIGN else k }

  predicate IsSigned(a: Arith, k: Kind, x: Arith) { a.Unary? && a.e == x && ArithTree(a).kind == SignNode(k) }

  /** A sign binds tighter than every binary operator: it takes the operand that follows and no more. */
  lemma SignsFirst(k: Kind, x: Arith, i: nat, op: Spelling, y: Arith)
    requires k in {PLUS, MINUS, TILDE, BANG} && OnRung(i, op) && IsOperand(x) && IsOperand(y)
    ensures exists a, b :: IsSigned(a, k, x) && Joined(b, op, a, y)
                           && ParseArith(On(k, On(BLANK, Put(x, Written(op, Put(y, Done)))))) == Some((b, Done))
  {
    hide Put, ParseArith, Written, InfixOn, Joined, LevelOf, OnRung, Named, Combine, Built, ArithTrees, IsOperand;
    OperandLevel(x);
    OperandLevel(y);
    var a := Unary(SignOf(k), x);
    var b := Combine(Named(op), a, y);
    SignTree(k, x);
    assert IsSigned(a, k, x);
    NamedLevel(i, op);
    NamedWrites(i, op, Put(y, Done));
    NamedJoins(i, op, a, y);
    CombineBuilt(Named(op), a, y);
    PutCombine(Named(op), a, y, Done);
    SignPut(k, x, InfixOn(Named(op), On(BLANK, Put(y, Done))));
    RoundTrip(b);
  }

  lemma SignTree(k: Kind, x: Arith)
    requires k in {PLUS, MINUS, TILDE, BANG} && Built(x) && Level(x) >= 10
    ensures var a := Unary(SignOf(k), x); ArithTree(a).kind == SignNode(k) && Built(a) && Level(a) == 10
  {
    hide ArithTrees;
  }

  lemma SignPut(k: Kind, x: Arith, s: Syms)
    requires k in {PLUS, MINUS, TILDE, BANG}
    ensures Put(Unary(SignOf(k), x), s) == On(k, On(BLANK, Put(x, s)))
  {
  }

  /** The root of the tree for a step. */
  function StepNode(post: bool, k: Kind): Kind {
    if post then (if k == PLUS then POST_INCR else POST_DECR) else (if k == PLUS then PRE_INCR else PRE_DECR)
  }

  predicate IsStep(a: Arith, post: bool, k: Kind, v: Name) {
    a.Step? && a.e == Ref(v) && ArithTree(a).kind == StepNode(post, k)
  }

  lemma StepsByToken(post: bool, k: Kind, v: Name)
    requires (k == PLUS || k == MINUS) && BuiltAll(v.index)
    ensures var s := if post then Put(Ref(v), On(k, On(k, Done))) else On(k, On(k, Put(Ref(v), Done)));
            exists a: Arith :: IsStep(a, post, k, v) && ParseArith(s) == Some((a, Done))
  {
    hide ParseArith, ArithTrees, BuiltAll;
    var a := Step(post, k == PLUS, Ref(v));
    RoundTrip(a);
    assert IsStep(a, post, k, v);
  }

  /** The assignment operators and the roots of their trees. */
  predicate Assigns(op: Spelling, root: Kind) {
    || (op == One(EQUALS) && root == EQUALS)
    || (op == Two(TIMES, EQUALS) && root == MUL_ASSIGN) || (op == Two(SLASH, EQUALS) && root == DIVIDE_ASSIGN)
    || (op == Two(PCT, EQUALS) && root == MOD_ASSIGN) || (op == Two(PLUS, EQUALS) && root == PLUS_ASSIGN)
    || (op == Two(MINUS, EQUALS) && root == MINUS_ASSIGN) || (op == Two(LSHIFT, EQUALS) && root == LSHIFT_ASSIGN)
    || (op == Two(RSHIFT, EQUALS) && root == RSHIFT_ASSIGN) || (op == Two(AMP, EQUALS) && root == AND_ASSIGN)
    || (op == Two(CARET, EQUALS) && root == XOR_ASSIGN) || (op == Two(PIPE, EQUALS) && root == OR_ASSIGN)
  }

  /** Readable where the grammar wants a chain of binary operators. */
  ghost predicate IsChain(x: Arith) {
    exists s :: ParseLevel(0, s) == Some((x, Done))
  }

  lemma ChainLevel(x: Arith)
    ensures IsChain(x) <==> Built(x) && Level(x) >= 0
  {
    hide ParseLevel;
    if IsChain(x) {
      var s :| ParseLevel(0, s) == Some((x, Done));
      LevelBuilt(0, s);
    }
    if Built(x) && Level(x) >= 0 { LevelRead(0, x, Done); }
  }

  predicate IsAssignment(a: Arith, root: Kind, v: Name, x: Arith) {
    a.Assign? && a.target == v && a.e == x && ArithTree(a).kind == root
  }

  /** An assignment takes the whole chain of binary operators to its right. */
  lemma AssignmentTakesTheRest(op: Spelling, root: Kind, v: Name, x: Arith)
    requires Assigns(op, root) && BuiltAll(v.index) && IsChain(x)
    ensures exists a :: IsAssignment(a, root, v, x)
                        && ParseArith(PutName(v, Written(op, Put(x, Done)))) == Some((a, Done))
  {
    hide ParseArith, Put, PutName, Built, BuiltAll, ArithTrees, IsChain;
    ChainLevel(x);
    var o := AssignedBy(root);
    AssignWrites(op, root, Put(x, Done));
    var a := Assign(o, v, x);
    AssignBuilt(o, v, x);
    RoundTrip(a);
    assert IsAssignment(a, root, v, x);
  }

  function AssignedBy(root: Kind): Option<BinOp> {
    if root == EQUALS then None
    else Some(
      if root == MUL_ASSIGN then Mul else if root == DIVIDE_ASSIGN then Div else if root == MOD_ASSIGN then Mod
      else if root == PLUS_ASSIGN then Add else if root == MINUS_ASSIGN then Sub
      else if root == LSHIFT_ASSIGN then Shl else if root == RSHIFT_ASSIGN then Shr
      else if root == AND_ASSIGN then BitAnd else if root == XOR_ASSIGN then BitXor else BitOr)
  }

  lemma AssignWrites(op: Spelling, root: Kind, s: Syms)
    requires Assigns(op, root)
    ensures var o := AssignedBy(root);
            Written(op, s) == AssignOn(o, On(BLANK, s)) && AssignKind(o) == root && (o.Some? ==> Assignable(o.value))
  {
  }

  lemma AssignBuilt(o: Option<BinOp>, v: Name, x: Arith)
    requires (o.Some? ==> Assignable(o.value)) && BuiltAll(v.index) && Built(x) && Level(x) >= 0
    ensures Built(Assign(o, v, x))
    ensures Put(Assign(o, v, x), Done) == PutName(v, AssignOn(o, On(BLANK, Put(x, Done))))
  {
  }

  predicate IsCondition(a: Arith, x: Arith, y: Arith, z: Arith) {
    a.Choose? && a.c == x && a.t == y && a.f == z && ArithTree(a).kind == ARITHMETIC_CONDITION
  }

  /** `?:` separates three chains of binary operators. */
  lemma ConditionIsLoosest(x: Arith, y: Arith, z: Arith)
    requires IsChain(x) && IsChain(y) && IsChain(z)
    ensures exists a :: IsCondition(a, x, y, z)
                        && ParseArith(Put(x, On(QMARK, Put(y, On(COLON, Put(z, Done)))))) == Some((a, Done))
  {
    hide ParseArith, ArithTrees, IsChain;
    ChainLevel(x);
    ChainLevel(y);
    ChainLevel(z);
    var a := Choose(x, y, z);
    RoundTrip(a);
    assert IsCondition(a, x, y, z);
  }

  // ---- Variables and expansions ----

  /** `$name` is the variable, and `$[…]` the expansion of the list in it, as `$((…))` is. */
  lemma DollarForms(name: string, items: seq<Arith>)
    requires items != [] && BuiltAll(items)
    ensures ParseArith(On(DOLLAR, Sym(NAME, name, Done))) == Some((Ref(Name(name, [])), Done))
    ensures ParseArith(On(DOLLAR, On(LSQUARE, PutList(items, On(RSQUARE, Done))))) == Some((Expand(items), Done))
    ensures ParseArith(On(DOLLAR, On(LLPAREN, PutList(items, On(RPAREN, On(RPAREN, Done)))))) == Some((Expand(items), Done))
  {
    hide ParseList, PutList, BuiltAll, ParseArith, ParsePart;
    SquareRead(items);
    PartRead(items, Done);
    OperandAlone(On(DOLLAR, Sym(NAME, name, Done)), Ref(Name(name, [])));
    OperandAlone(On(DOLLAR, On(LSQUARE, PutList(items, On(RSQUARE, Done)))), Expand(items));
    OperandAlone(On(DOLLAR, On(LLPAREN, PutList(items, On(RPAREN, On(RPAREN, Done))))), Expand(items));
  }

  lemma SquareRead(items: seq<Arith>)
    requires items != [] && BuiltAll(items)
    ensures ParsePart(On(DOLLAR, On(LSQUARE, PutList(items, On(RSQUARE, Done))))) == Some((items, Done))
  {
    hide ParseList, PutList, BuiltAll;
    FrontList(items, On(RSQUARE, Done));
    ListRead(items, On(RSQUARE, Done));
  }

  lemma OperandAlone(s: Syms, x: Arith)
    requires ParsePrimary(s) == Some((x, Done)) && Begins(s, DOLLAR)
    ensures ParseArith(s) == Some((x, Done))
  {
    hide ParseUnary, ParsePrimary;
    DollarUnary(s, x);
    AloneAt(0, s, x);
  }

  lemma DollarUnary(s: Syms, x: Arith)
    requires ParsePrimary(s) == Some((x, Done)) && Begins(s, DOLLAR)
    ensures ParseUnary(s) == Some((x, Done))
  {
    hide ParsePrimary;
    assert Skip(DQUOTE, s) == s;
    assert ParseQuoted(s) == Some((x, Done));
    assert ParsePost(s) == Some((x, Done));
  }

  lemma {:induction false} AloneAt(k: nat, s: Syms, x: Arith)
    requires k <= 10 && ParseUnary(s) == Some((x, Done))
    ensures ParseLevel(k, s) == Some((x, Done))
    decreases 10 - k
  {
    hide ParseUnary;
    if k < 10 { AloneAt(k + 1, s, x); }
  }
}
