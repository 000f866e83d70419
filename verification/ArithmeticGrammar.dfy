/** The parser's arithmetic ladder as recursive descent over tokens, with a printer: printing any tree
    that the grammar can build and parsing the tokens again gives the tree back. */
module ArithmeticGrammar {
  import opened Text
  import opened TokenStream
  import opened ArithmeticSyntax

  // Tokens that the parser drops.
  const QMARK: Kind := 101
  const COLON: Kind := 102
  const COMMA: Kind := 103
  const LPAREN: Kind := 104
  const RPAREN: Kind := 105
  const LLPAREN: Kind := 106
  const LSQUARE: Kind := 107
  const RSQUARE: Kind := 108
  const DOLLAR: Kind := 109
  const BLANK: Kind := 110
  const DQUOTE: Kind := 111

  datatype Syms = Done | Sym(k: Kind, text: string, rest: Syms)

  function Len(s: Syms): nat { if s.Done? then 0 else 1 + Len(s.rest) }

  predicate Begins(s: Syms, k: Kind): (b: bool)
    ensures b ==> s.Sym? && Len(s) == 1 + Len(s.rest)
  {
    s.Sym? && s.k == k
  }

  predicate Begins2(s: Syms, k: Kind, l: Kind): (b: bool)
    ensures b ==> s.Sym? && s.rest.Sym? && Len(s) == 2 + Len(s.rest.rest)
  {
    Begins(s, k) && Begins(s.rest, l)
  }

  /** An optional token. */
  function Skip(k: Kind, s: Syms): (r: Syms) ensures Len(r) <= Len(s) { if Begins(s, k) then s.rest else s }

  function On(k: Kind, s: Syms): (r: Syms) ensures Len(r) == 1 + Len(s) { Sym(k, "", s) }

  // ---- The ladder: level 0 is logicor, 9 is exponential, 10 is unary ----

  datatype Infix = OrInfix | AndInfix | OpInfix(op: BinOp)

  function LevelOf(i: Infix): nat {
    match i
    case OrInfix => 0
    case AndInfix => 1
    case OpInfix(op) =>
      match op
      case BitOr => 2 case BitXor => 3 case BitAnd => 4
      case Le => 5 case Ge => 5 case Lt => 5 case Gt => 5 case Ne => 5 case Eq => 5
      case Shl => 6 case Shr => 6
      case Add => 7 case Sub => 7
      case Mul => 8 case Div => 8 case Mod => 8
      case Pow => 9
  }

  /** The infix operator at the head of the tokens, of whichever level, and what follows it. */
  function InfixAt(s: Syms): (r: Option<(Infix, Syms)>)
    ensures r.Some? ==> Len(r.value.1) < Len(s)
  {
    if s.Done? then None
    else if s.k == LOGICOR then Some((OrInfix, s.rest))
    else if s.k == LOGICAND then Some((AndInfix, s.rest))
    else if s.k == PIPE then Some((OpInfix(BitOr), s.rest))
    else if s.k == CARET then Some((OpInfix(BitXor), s.rest))
    else if s.k == AMP then Some((OpInfix(BitAnd), s.rest))
    else if s.k == LESS_THAN then Some(if Begins(s.rest, EQUALS) then (OpInfix(Le), s.rest.rest) else (OpInfix(Lt), s.rest))
    else if s.k == GREATER_THAN then Some(if Begins(s.rest, EQUALS) then (OpInfix(Ge), s.rest.rest) else (OpInfix(Gt), s.rest))
    else if Begins2(s, EQUALS, EQUALS) then Some((OpInfix(Eq), s.rest.rest))
    else if Begins2(s, BANG, EQUALS) then Some((OpInfix(Ne), s.rest.rest))
    else if s.k == LSHIFT then Some((OpInfix(Shl), s.rest))
    else if s.k == RSHIFT then Some((OpInfix(Shr), s.rest))
    else if s.k == PLUS then Some((OpInfix(Add), s.rest))
    else if s.k == MINUS then Some((OpInfix(Sub), s.rest))
    else if s.k == TIMES then Some((OpInfix(Mul), s.rest))
    else if s.k == SLASH then Some((OpInfix(Div), s.rest))
    else if s.k == PCT then Some((OpInfix(Mod), s.rest))
    else if s.k == EXP then Some((OpInfix(Pow), s.rest))
    else None
  }

  predicate InfixOf(k: nat, s: Syms) { InfixAt(s).Some? && LevelOf(InfixAt(s).value.0) == k }

  function Combine(i: Infix, l: Arith, r: Arith): Arith {
    match i case OrInfix => LogOr(l, r) case AndInfix => LogAnd(l, r) case OpInfix(op) => Binary(op, l, r)
  }

  type Parsed = Option<(Arith, Syms)>

  /** Left-associative, except that a comparison takes at most one operator. */
  function ParseLevel(k: nat, s: Syms): (r: Parsed)
    requires k <= 10
    ensures r.Some? ==> Len(r.value.1) < Len(s)
    decreases Len(s), 20 - k
  {
    if k == 10 then ParseUnary(s)
    else
      var l :- ParseLevel(k + 1, s);
      ParseTail(k, l.0, l.1)
  }

  function ParseTail(k: nat, l: Arith, s: Syms): (r: Parsed)
    requires k < 10
    ensures r.Some? ==> Len(r.value.1) <= Len(s)
    decreases Len(s), 21
  {
    if !InfixOf(k, s) then Some((l, s))
    else
      var (i, after) := InfixAt(s).value;
      var e :- ParseLevel(k + 1, Skip(BLANK, after));
      if k == 5 then Some((Combine(i, l, e.0), e.1)) else ParseTail(k, Combine(i, l, e.0), e.1)
  }

  function ParseUnary(s: Syms): (r: Parsed)
    ensures r.Some? ==> Len(r.value.1) < Len(s)
    decreases Len(s), 9
  {
    if Begins2(s, PLUS, PLUS) || Begins2(s, MINUS, MINUS) then
      var e :- ParseQuoted(Skip(BLANK, s.rest.rest));
      Some((Step(false, s.k == PLUS, e.0), e.1))
    else if s.Sym? && s.k in {PLUS, MINUS, TILDE, BANG} then
      var e :- ParseUnary(Skip(BLANK, s.rest));
      Some((Unary(SignOf(s.k), e.0), e.1))
    else ParsePost(s)
  }

  function SignOf(k: Kind): UnOp {
    if k == PLUS then Pos else if k == MINUS then Neg else if k == TILDE then Compl else Not
  }

  function SignKind(op: UnOp): Kind {
    match op case Pos => PLUS case Neg => MINUS case Compl => TILDE case Not => BANG
  }

  function ParsePost(s: Syms): (r: Parsed)
    ensures r.Some? ==> Len(r.value.1) < Len(s)
    decreases Len(s), 8
  {
    var e :- ParseQuoted(s);
    var t := Skip(BLANK, e.1);
    Some(if Begins2(t, PLUS, PLUS) || Begins2(t, MINUS, MINUS) then (Step(true, t.k == PLUS, e.0), t.rest.rest)
         else (e.0, t))
  }

  /** pre_post_primary: quotes around a primary are dropped, matched or not. */
  function ParseQuoted(s: Syms): (r: Parsed)
    ensures r.Some? ==> Len(r.value.1) < Len(s)
    decreases Len(s), 7
  {
    var e :- ParsePrimary(Skip(DQUOTE, s));
    Some((e.0, Skip(DQUOTE, e.1)))
  }

  function ParsePrimary(s: Syms): (r: Parsed)
    ensures r.Some? ==> Len(r.value.1) < Len(s)
    decreases Len(s), 6
  {
    if Begins(s, NUMBER) then Some((Number(s.text), s.rest))
    else if Begins(s, NAME) then
      var v :- ParseName(s);
      Some((Ref(v.0), v.1))
    else if Begins(s, LPAREN) then
      var l :- ParseList(s.rest);
      if Begins(l.1, RPAREN) then Some((Paren(l.0), l.1.rest)) else None
    else if StartsPart(s) then
      var l :- ParsePart(s);
      Some((Expand(l.0), l.1))
    else if Begins2(s, DOLLAR, NAME) then Some((Ref(Name(s.rest.text, [])), s.rest.rest))
    else None
  }

  predicate StartsPart(s: Syms) { Begins2(s, DOLLAR, LLPAREN) || Begins2(s, DOLLAR, LSQUARE) }

  /** arithmetic_part: `$((…))` or `$[…]`. */
  function ParsePart(s: Syms): (r: Option<(seq<Arith>, Syms)>)
    requires StartsPart(s)
    ensures r.Some? ==> Len(r.value.1) < Len(s) && r.value.0 != []
    decreases Len(s), 5
  {
    var l :- ParseList(Skip(BLANK, s.rest.rest));
    var t := Skip(BLANK, l.1);
    if s.rest.k == LLPAREN then (if Begins2(t, RPAREN, RPAREN) then Some((l.0, t.rest.rest)) else None)
    else if Begins(t, RSQUARE) then Some((l.0, t.rest)) else None
  }

  /** variable_name_no_digit: a subscript that starts with an arithmetic expansion consists of it. */
  function ParseName(s: Syms): (r: Option<(Name, Syms)>)
    requires Begins(s, NAME)
    ensures r.Some? ==> Len(r.value.1) < Len(s)
    decreases Len(s), 5
  {
    if Begins(s.rest, LSQUARE) then
      var t := Skip(BLANK, s.rest.rest);
      var l :- if StartsPart(t) then ParsePart(t) else ParseList(t);
      var u := Skip(BLANK, l.1);
      if Begins(u, RSQUARE) then Some((Name(s.text, l.0), u.rest)) else None
    else Some((Name(s.text, []), s.rest))
  }

  /** arithmetics: a comma list. */
  function ParseList(s: Syms): (r: Option<(seq<Arith>, Syms)>)
    ensures r.Some? ==> Len(r.value.1) < Len(s) && r.value.0 != []
    decreases Len(s), 31
  {
    var a :- ParseArith(s);
    if Begins(a.1, COMMA) then
      var l :- ParseList(Skip(BLANK, a.1.rest));
      Some(([a.0] + l.0, l.1))
    else Some(([a.0], a.1))
  }

  function AssignAt(s: Syms): (r: Option<(Option<BinOp>, Syms)>)
    ensures r.Some? ==> Len(r.value.1) < Len(s) && (r.value.0.Some? ==> Assignable(r.value.0.value))
  {
    if s.Done? then None
    else if s.k == EQUALS then (if Begins(s.rest, EQUALS) then None else Some((None, s.rest)))
    else if !Begins(s.rest, EQUALS) then None
    else if s.k == TIMES then Some((Some(Mul), s.rest.rest))
    else if s.k == SLASH then Some((Some(Div), s.rest.rest))
    else if s.k == PCT then Some((Some(Mod), s.rest.rest))
    else if s.k == PLUS then Some((Some(Add), s.rest.rest))
    else if s.k == MINUS then Some((Some(Sub), s.rest.rest))
    else if s.k == LSHIFT then Some((Some(Shl), s.rest.rest))
    else if s.k == RSHIFT then Some((Some(Shr), s.rest.rest))
    else if s.k == AMP then Some((Some(BitAnd), s.rest.rest))
    else if s.k == CARET then Some((Some(BitXor), s.rest.rest))
    else if s.k == PIPE then Some((Some(BitOr), s.rest.rest))
    else None
  }

  /** The lookahead of `arithmetic`: a variable and then an assignment operator. */
  function Target(s: Syms): (r: Option<(Name, Option<BinOp>, Syms)>)
    ensures r.Some? ==> Len(r.value.2) < Len(s) && (r.value.1.Some? ==> Assignable(r.value.1.value))
    decreases Len(s), 29
  {
    if !Begins(s, NAME) then None
    else
      var v :- ParseName(s);
      var o :- AssignAt(Skip(BLANK, v.1));
      Some((v.0, o.0, o.1))
  }

  function ParseArith(s: Syms): (r: Parsed)
    ensures r.Some? ==> Len(r.value.1) < Len(s)
    decreases Len(s), 30
  {
    match Target(s)
    case Some((v, op, after)) =>
      var e :- ParseLevel(0, Skip(BLANK, after));
      Some((Assign(op, v, e.0), e.1))
    case None =>
      var c :- ParseLevel(0, s);
      if !Begins(c.1, QMARK) then Some(c)
      else
        var t :- ParseLevel(0, c.1.rest);
        if !Begins(t.1, COLON) then None
        else
          var f :- ParseLevel(0, t.1.rest);
          Some((Choose(c.0, t.0, f.0), f.1))
  }

  // ---- The trees the grammar builds ----

  /** The tightest rule that yields the tree: -1 for assignments and `?:`, 11 for `x++`, 12 for
      primaries. */
  function Level(a: Arith): int {
    match a
    case Assign(_, _, _) => -1
    case Choose(_, _, _) => -1
    case LogOr(_, _) => 0
    case LogAnd(_, _) => 1
    case Binary(op, _, _) => LevelOf(OpInfix(op))
    case Unary(_, _) => 10
    case Step(post, _, _) => if post then 11 else 10
    case _ => 12
  }

  /** Left operands may be of the same level, except under a comparison; right ones may not. */
  predicate Operands(k: int, l: Arith, r: Arith) {
    Level(l) >= (if k == 5 then 6 else k) && Level(r) >= k + 1
  }

  predicate Built(a: Arith)
    decreases a
  {
    match a
    case Number(_) => true
    case Ref(v) => BuiltAll(v.index)
    case Paren(items) => items != [] && BuiltAll(items)
    case Expand(items) => items != [] && BuiltAll(items)
    case Unary(_, e) => Built(e) && Level(e) >= 10
    case Step(_, _, e) => Built(e) && Level(e) == 12
    case Choose(c, t, f) => Built(c) && Built(t) && Built(f) && Level(c) >= 0 && Level(t) >= 0 && Level(f) >= 0
    case Assign(op, v, e) => (op.Some? ==> Assignable(op.value)) && BuiltAll(v.index) && Built(e) && Level(e) >= 0
    case _ => Built(a.l) && Built(a.r) && Operands(Level(a), a.l, a.r)
  }

  predicate BuiltAll(items: seq<Arith>)
    decreases items
  {
    items != [] ==> Built(items[0]) && BuiltAll(items[1..])
  }

  // ---- Printing ----

  function InfixOn(i: Infix, s: Syms): (r: Syms)
    ensures Len(r) > Len(s)
  {
    match i
    case OrInfix => On(LOGICOR, s)
    case AndInfix => On(LOGICAND, s)
    case OpInfix(Le) => On(LESS_THAN, On(EQUALS, s))
    case OpInfix(Ge) => On(GREATER_THAN, On(EQUALS, s))
    case OpInfix(Eq) => On(EQUALS, On(EQUALS, s))
    case OpInfix(Ne) => On(BANG, On(EQUALS, s))
    case OpInfix(op) => On(BinKind(op), s)
  }

  function AssignOn(op: Option<BinOp>, s: Syms): (r: Syms)
    ensures Len(r) > Len(s)
  {
    if op.None? then On(EQUALS, s) else On(BinKind(op.value), On(EQUALS, s))
  }

  function TheInfix(a: Arith): Infix
    requires a.Binary? || a.LogOr? || a.LogAnd?
  {
    if a.LogOr? then OrInfix else if a.LogAnd? then AndInfix else OpInfix(a.op)
  }

  function Sign(up: bool, s: Syms): Syms {
    if up then On(PLUS, On(PLUS, s)) else On(MINUS, On(MINUS, s))
  }

  /** The tokens of the tree in front of s. Every sign and every infix operator is followed by a blank,
      and an expansion stands in double quotes. */
  function Put(a: Arith, s: Syms): (r: Syms)
    ensures Len(r) > Len(s)
    decreases a, 0
  {
    match a
    case Number(d) => Sym(NUMBER, d, s)
    case Ref(v) => PutName(v, s)
    case Paren(items) => On(LPAREN, PutList(items, On(RPAREN, s)))
    case Expand(items) =>
      On(DQUOTE, On(DOLLAR, On(LLPAREN, PutList(items, On(RPAREN, On(RPAREN, On(DQUOTE, s)))))))
    case Unary(op, e) => On(SignKind(op), On(BLANK, Put(e, s)))
    case Step(post, up, e) => if post then Put(e, Sign(up, s)) else Sign(up, Put(e, s))
    case Choose(c, t, f) => Put(c, On(QMARK, Put(t, On(COLON, Put(f, s)))))
    case Assign(op, v, e) => PutName(v, AssignOn(op, On(BLANK, Put(e, s))))
    case _ => Put(a.l, InfixOn(TheInfix(a), On(BLANK, Put(a.r, s))))
  }

  function PutName(v: Name, s: Syms): (r: Syms)
    ensures Len(r) > Len(s)
    decreases v
  {
    Sym(NAME, v.base, if v.index == [] then s else On(LSQUARE, PutList(v.index, On(RSQUARE, s))))
  }

  function PutList(items: seq<Arith>, s: Syms): (r: Syms)
    ensures Len(r) >= Len(s) && (items != [] ==> Len(r) > Len(s))
    decreases items
  {
    if items == [] then s
    else if |items| == 1 then Put(items[0], s)
    else Put(items[0], On(COMMA, On(BLANK, PutList(items[1..], s))))
  }

  // ---- The round trip ----

  /** What may stand behind a tree of level k without being taken into it. */
  predicate Follow(k: int, s: Syms) {
    && !Begins(s, BLANK) && !Begins(s, DQUOTE) && !Begins(s, LSQUARE)
    && !Begins2(s, PLUS, PLUS) && !Begins2(s, MINUS, MINUS)
    && AssignAt(s).None?
    && (InfixAt(s).Some? ==> LevelOf(InfixAt(s).value.0) < k)
  }

  lemma InfixOnFollows(i: Infix, s: Syms)
    ensures var t := InfixOn(i, On(BLANK, s)); Follow(LevelOf(i) + 1, t) && InfixAt(t) == Some((i, On(BLANK, s)))
  {
  }

  lemma AssignOnRead(op: Option<BinOp>, s: Syms)
    requires op.Some? ==> Assignable(op.value)
    ensures var t := AssignOn(op, On(BLANK, s)); AssignAt(t) == Some((op, On(BLANK, s))) && !Begins(t, BLANK) && !Begins(t, LSQUARE)
  {
  }

  predicate Opens(s: Syms) { s.Sym? && s.k in {NUMBER, NAME, LPAREN, DQUOTE} }

  /** A tree's first token, and for a variable in front what follows the variable. */
  lemma {:induction false} Front(a: Arith, s: Syms)
    requires Built(a)
    ensures var t := Put(a, s);
            && t.Sym? && (Opens(t) || t.k in {PLUS, MINUS, TILDE, BANG})
            && (Level(a) >= 11 ==> Opens(t))
    decreases a
  {
    match a
    case Number(_) =>
    case Ref(_) =>
    case Paren(_) =>
    case Expand(_) =>
    case Unary(_, _) =>
    case Step(post, up, e) => Front(e, Sign(up, s));
    case Choose(c, t, f) => Front(c, On(QMARK, Put(t, On(COLON, Put(f, s)))));
    case Assign(_, _, _) =>
    case _ => Front(a.l, InfixOn(TheInfix(a), On(BLANK, Put(a.r, s))));
  }

  lemma FrontList(items: seq<Arith>, s: Syms)
    requires items != [] && BuiltAll(items)
    ensures var t := PutList(items, s); t.Sym? && (Opens(t) || t.k in {PLUS, MINUS, TILDE, BANG})
  {
    Front(items[0], if |items| == 1 then s else On(COMMA, On(BLANK, PutList(items[1..], s))));
  }

  /** Behind a primary. */
  predicate AfterPrimary(s: Syms) { !Begins(s, DQUOTE) && !Begins(s, LSQUARE) }

  /** Behind a unary expression. */
  predicate AfterUnary(s: Syms) {
    AfterPrimary(s) && !Begins(s, BLANK) && !Begins2(s, PLUS, PLUS) && !Begins2(s, MINUS, MINUS)
  }

  /** Behind an expression, in a list. */
  predicate AfterArith(s: Syms) { Follow(0, s) && !Begins(s, QMARK) }

  lemma {:induction false} NameRead(v: Name, s: Syms)
    requires BuiltAll(v.index) && !Begins(s, LSQUARE)
    ensures ParseName(PutName(v, s)) == Some((v, s))
    decreases Len(PutName(v, s)), 1
  {
    hide Put, ParseList, Built;
    if v.index != [] {
      FrontList(v.index, On(RSQUARE, s));
      ListRead(v.index, On(RSQUARE, s));
    }
  }

  lemma {:induction false} PrimaryRead(a: Arith, s: Syms)
    requires Built(a) && Level(a) == 12 && AfterPrimary(s)
    ensures ParseQuoted(Put(a, s)) == Some((a, s))
    decreases Len(Put(a, s)), 2
  {
    hide ParseList, ParseName, ParsePart, PutList, PutName, InfixOn, BuiltAll;
    match a
    case Number(_) =>
    case Ref(v) =>
      assert Begins(PutName(v, s), NAME) by { NameStarts(v, s); }
      NameRead(v, s);
    case Paren(items) => ListRead(items, On(RPAREN, s));
    case Expand(items) =>
      PartRead(items, On(DQUOTE, s));
      assert ParsePrimary(Skip(DQUOTE, Put(a, s))) == Some((a, On(DQUOTE, s)));
  }

  lemma {:induction false} PartRead(items: seq<Arith>, s: Syms)
    requires items != [] && BuiltAll(items)
    ensures ParsePart(On(DOLLAR, On(LLPAREN, PutList(items, On(RPAREN, On(RPAREN, s)))))) == Some((items, s))
    decreases Len(PutList(items, On(RPAREN, On(RPAREN, s)))), 52
  {
    hide ParseList, PutList;
    var end := On(RPAREN, On(RPAREN, s));
    FrontList(items, end);
    ListRead(items, end);
  }

  lemma NameStarts(v: Name, s: Syms)
    ensures Begins(PutName(v, s), NAME)
  {
  }

  lemma {:induction false} PostRead(a: Arith, s: Syms)
    requires Built(a) && Level(a) >= 11 && AfterUnary(s)
    ensures ParsePost(Put(a, s)) == Some((a, s))
    decreases Len(Put(a, s)), 3
  {
    hide ParseQuoted;
    if a.Step? { PrimaryRead(a.e, Sign(a.up, s)); } else { PrimaryRead(a, s); }
  }

  lemma {:induction false} UnaryRead(a: Arith, s: Syms)
    requires Built(a) && Level(a) >= 10 && AfterUnary(s)
    ensures ParseUnary(Put(a, s)) == Some((a, s))
    decreases Len(Put(a, s)), 4
  {
    hide ParseQuoted, ParsePost, PutName, PutList, InfixOn, InfixAt, AssignAt;
    if Level(a) >= 11 {
      Front(a, s);
      PostRead(a, s);
    } else if a.Step? {
      Front(a.e, s);
      PrimaryRead(a.e, s);
    } else {
      UnaryRead(a.e, s);
    }
  }

  /** Parsing a tree of level k or tighter comes to the loop of level k with the tree read. */
  lemma {:induction false} Spine(k: nat, a: Arith, s: Syms)
    requires k < 10 && Built(a) && Level(a) >= k && Follow(k + 1, s)
    ensures ParseLevel(k, Put(a, s)) == if k == 5 && Level(a) == 5 then Some((a, s)) else ParseTail(k, a, s)
    decreases Len(Put(a, s)), 30 - 2 * k, a
  {
    hide ParseUnary, InfixAt, AssignAt, PutName, PutList, InfixOn, ParseName;
    if Level(a) > k {
      LevelRead(k + 1, a, s);
    } else {
      var i := TheInfix(a);
      var right := Put(a.r, s);
      var t := InfixOn(i, On(BLANK, right));
      InfixOnFollows(i, right);
      LevelRead(k + 1, a.r, s);
      if k == 5 { LevelRead(6, a.l, t); } else { Spine(k, a.l, t); }
    }
  }

  lemma {:induction false} LevelRead(k: nat, a: Arith, s: Syms)
    requires k <= 10 && Built(a) && Level(a) >= k && Follow(k, s)
    ensures ParseLevel(k, Put(a, s)) == Some((a, s))
    decreases Len(Put(a, s)), 31 - 2 * k
  {
    hide ParseUnary, Put;
    if k == 10 { UnaryRead(a, s); } else { Spine(k, a, s); }
  }

  /** Only an assignment looks like one. */
  lemma {:induction false} NotTarget(a: Arith, s: Syms)
    requires Built(a) && !a.Assign? && AssignAt(s).None? && !Begins(s, BLANK) && !Begins(s, LSQUARE)
    ensures Target(Put(a, s)).None?
    decreases Len(Put(a, s)), 40, a
  {
    hide ParseName, PutName, PutList;
    match a
    case Ref(v) => NameRead(v, s);
    case Step(post, up, e) => if post { NotTarget(e, Sign(up, s)); }
    case Choose(c, t, f) => NotTarget(c, On(QMARK, Put(t, On(COLON, Put(f, s)))));
    case LogOr(_, _) => NotTargetInfix(a, s);
    case LogAnd(_, _) => NotTargetInfix(a, s);
    case Binary(_, _, _) => NotTargetInfix(a, s);
    case Number(_) =>
    case Paren(_) =>
    case Expand(_) =>
    case Unary(_, _) =>
  }

  lemma {:induction false} NotTargetInfix(a: Arith, s: Syms)
    requires Built(a) && (a.Binary? || a.LogOr? || a.LogAnd?)
    ensures Target(Put(a, s)).None?
    decreases Len(Put(a, s)), 40, a, 0
  {
    hide Target, InfixAt;
    var t := InfixOn(TheInfix(a), On(BLANK, Put(a.r, s)));
    InfixOnFollows(TheInfix(a), Put(a.r, s));
    NotTarget(a.l, t);
  }

  lemma {:induction false} ArithRead(a: Arith, s: Syms)
    requires Built(a) && AfterArith(s)
    ensures ParseArith(Put(a, s)) == Some((a, s))
    decreases Len(Put(a, s)), 50
  {
    hide ParseLevel, ParseName, PutName, InfixAt, AssignAt;
    if a.Assign? {
      AssignOnRead(a.aop, Put(a.e, s));
      NameStarts(a.target, AssignOn(a.aop, On(BLANK, Put(a.e, s))));
      NameRead(a.target, AssignOn(a.aop, On(BLANK, Put(a.e, s))));
      LevelRead(0, a.e, s);
    } else if a.Choose? {
      NotTarget(a, s);
      MarkFollows(COLON, Put(a.f, s));
      MarkFollows(QMARK, Put(a.t, On(COLON, Put(a.f, s))));
      LevelRead(0, a.f, s);
      LevelRead(0, a.t, On(COLON, Put(a.f, s)));
      LevelRead(0, a.c, On(QMARK, Put(a.t, On(COLON, Put(a.f, s)))));
    } else {
      NotTarget(a, s);
      LevelRead(0, a, s);
    }
  }

  lemma MarkFollows(mark: Kind, s: Syms)
    requires mark == QMARK || mark == COLON
    ensures Follow(0, On(mark, s))
  {
  }

  lemma {:induction false} ListRead(items: seq<Arith>, s: Syms)
    requires items != [] && BuiltAll(items) && AfterArith(s) && !Begins(s, COMMA)
    ensures ParseList(PutList(items, s)) == Some((items, s))
    decreases Len(PutList(items, s)), 51
  {
    hide ParseArith, Put, Built;
    if |items| == 1 {
      ArithRead(items[0], s);
      assert items == [items[0]];
    } else {
      var t := On(COMMA, On(BLANK, PutList(items[1..], s)));
      ArithRead(items[0], t);
      ListRead(items[1..], s);
      assert items == [items[0]] + items[1..];
    }
  }

  // ---- Everything the parser returns is such a tree ----

  lemma {:induction false} LevelBuilt(k: nat, s: Syms)
    requires k <= 10
    ensures var r := ParseLevel(k, s); r.Some? ==> Built(r.value.0) && Level(r.value.0) >= k
    decreases Len(s), 20 - k
  {
    hide ParseTail, ParseUnary;
    if k == 10 {
      UnaryBuilt(s);
    } else if ParseLevel(k + 1, s).Some? {
      LevelBuilt(k + 1, s);
      var l := ParseLevel(k + 1, s).value;
      TailBuilt(k, l.0, l.1);
    }
  }

  lemma {:induction false} TailBuilt(k: nat, l: Arith, s: Syms)
    requires k < 10 && Built(l) && Level(l) >= (if k == 5 then 6 else k)
    ensures var r := ParseTail(k, l, s); r.Some? ==> Built(r.value.0) && Level(r.value.0) >= k
    decreases Len(s), 21
  {
    hide ParseLevel, InfixAt;
    if InfixOf(k, s) {
      var (i, after) := InfixAt(s).value;
      LevelBuilt(k + 1, Skip(BLANK, after));
      var e := ParseLevel(k + 1, Skip(BLANK, after));
      if e.Some? {
        CombineBuilt(i, l, e.value.0);
        if k != 5 { TailBuilt(k, Combine(i, l, e.value.0), e.value.1); }
      }
    }
  }

  lemma CombineBuilt(i: Infix, l: Arith, r: Arith)
    requires Built(l) && Built(r) && Operands(LevelOf(i), l, r)
    ensures Built(Combine(i, l, r)) && Level(Combine(i, l, r)) == LevelOf(i)
  {
  }

  lemma {:induction false} UnaryBuilt(s: Syms)
    ensures var r := ParseUnary(s); r.Some? ==> Built(r.value.0) && Level(r.value.0) >= 10
    decreases Len(s), 9
  {
    hide ParseQuoted, ParsePost;
    if Begins2(s, PLUS, PLUS) || Begins2(s, MINUS, MINUS) {
      QuotedBuilt(Skip(BLANK, s.rest.rest));
    } else if s.Sym? && s.k in {PLUS, MINUS, TILDE, BANG} {
      UnaryBuilt(Skip(BLANK, s.rest));
    } else {
      PostBuilt(s);
    }
  }

  lemma {:induction false} PostBuilt(s: Syms)
    ensures var r := ParsePost(s); r.Some? ==> Built(r.value.0) && Level(r.value.0) >= 11
    decreases Len(s), 8
  {
    hide ParseQuoted;
    QuotedBuilt(s);
  }

  lemma {:induction false} QuotedBuilt(s: Syms)
    ensures var r := ParseQuoted(s); r.Some? ==> Built(r.value.0) && Level(r.value.0) == 12
    decreases Len(s), 7
  {
    hide ParseName, ParseList, ParsePart;
    var t := Skip(DQUOTE, s);
    if Begins(t, NAME) {
      NameBuilt(t);
    } else if Begins(t, LPAREN) {
      ListBuilt(t.rest);
    } else if StartsPart(t) {
      PartBuilt(t);
    }
  }

  lemma {:induction false} PartBuilt(s: Syms)
    requires StartsPart(s)
    ensures var r := ParsePart(s); r.Some? ==> BuiltAll(r.value.0)
    decreases Len(s), 5
  {
    hide ParseList;
    ListBuilt(Skip(BLANK, s.rest.rest));
  }

  lemma {:induction false} NameBuilt(s: Syms)
    requires Begins(s, NAME)
    ensures var r := ParseName(s); r.Some? ==> BuiltAll(r.value.0.index)
    decreases Len(s), 5
  {
    hide ParseList, ParsePart;
    if Begins(s.rest, LSQUARE) {
      var t := Skip(BLANK, s.rest.rest);
      if StartsPart(t) { PartBuilt(t); } else { ListBuilt(t); }
    }
  }

  lemma {:induction false} ListBuilt(s: Syms)
    ensures var r := ParseList(s); r.Some? ==> BuiltAll(r.value.0)
    decreases Len(s), 31
  {
    hide ParseArith;
    ArithBuilt(s);
    var a := ParseArith(s);
    if a.Some? && Begins(a.value.1, COMMA) { ListBuilt(Skip(BLANK, a.value.1.rest)); }
  }

  lemma {:induction false} ArithBuilt(s: Syms)
    ensures var r := ParseArith(s); r.Some? ==> Built(r.value.0)
    decreases Len(s), 30
  {
    hide ParseLevel, ParseName, AssignAt;
    match Target(s)
    case Some((v, op, after)) =>
      NameBuilt(s);
      LevelBuilt(0, Skip(BLANK, after));
    case None =>
      LevelBuilt(0, s);
      var c := ParseLevel(0, s);
      if c.Some? && Begins(c.value.1, QMARK) {
        LevelBuilt(0, c.value.1.rest);
        var t := ParseLevel(0, c.value.1.rest);
        if t.Some? && Begins(t.value.1, COLON) { LevelBuilt(0, t.value.1.rest); }
      }
  }

  // ---- The theorems ----

  /** The printed tree reads back as itself, with nothing left. */
  lemma RoundTrip(a: Arith)
    requires Built(a)
    ensures ParseArith(Put(a, Done)) == Some((a, Done))
  {
    ArithRead(a, Done);
  }

  /** So does a comma list. */
  lemma ListRoundTrip(items: seq<Arith>)
    requires items != [] && BuiltAll(items)
    ensures ParseList(PutList(items, Done)) == Some((items, Done))
  {
    ListRead(items, Done);
  }

  ghost predicate SomeTokensYield(a: Arith) {
    exists s :: ParseArith(s) == Some((a, Done))
  }

  /** These are exactly the trees that the grammar builds from some tokens. */
  lemma BuiltIff(a: Arith)
    ensures Built(a) <==> SomeTokensYield(a)
  {
    if Built(a) { RoundTrip(a); }
    if SomeTokensYield(a) {
      var s :| ParseArith(s) == Some((a, Done));
      ArithBuilt(s);
    }
  }

  /** A chain of operators of one level groups to the left, `**` included. */
  lemma ChainsGroupLeft(i: Infix, j: Infix, x: Arith, y: Arith, z: Arith)
    requires LevelOf(i) == LevelOf(j) != 5 && Built(x) && Built(y) && Built(z)
    requires Level(x) >= LevelOf(i) && Level(y) > LevelOf(i) && Level(z) > LevelOf(i)
    ensures ParseArith(Put(x, InfixOn(i, On(BLANK, Put(y, InfixOn(j, On(BLANK, Put(z, Done)))))))) ==
            Some((Combine(j, Combine(i, x, y), z), Done))
  {
    hide Put, ParseArith, Built;
    CombineBuilt(i, x, y);
    CombineBuilt(j, Combine(i, x, y), z);
    PutCombine(i, x, y, InfixOn(j, On(BLANK, Put(z, Done))));
    PutCombine(j, Combine(i, x, y), z, Done);
    RoundTrip(Combine(j, Combine(i, x, y), z));
  }

  lemma PutCombine(i: Infix, l: Arith, r: Arith, s: Syms)
    ensures Put(Combine(i, l, r), s) == Put(l, InfixOn(i, On(BLANK, Put(r, s))))
  {
    hide PutName, PutList, InfixOn;
  }

  // ---- Trees that the grammar builds and the walker cannot read ----

  /** Where the right operand of `d || …` stands. */
  lemma RightOperandAt(d: string, r: Arith)
    ensures var s := Flatten(ArithTree(LogOr(Number(d), r)));
            HoldsAll(s, 3, ArithTrees(r)) && 3 + SizeAll(ArithTrees(r)) < |s| && s[3 + SizeAll(ArithTrees(r))] == Up
  {
    hide Holds, HoldsAll, Flatten, Size, SizeAll;
    var l := ArithTree(Number(d));
    var t := Node(LOGICOR, "", [l] + ArithTrees(r));
    var s := Flatten(t);
    HoldsIsSlice(s, 0, t);
    FlattenSize(t);
    assert s[0..|s|] == s;
    NodeTokens(s, 0, t);
    FirstTree(s, 2, l, ArithTrees(r));
    NodeTokens(s, 2, l);
  }

  /** `1 || (2, 3)`: the short circuit passes the first of the two siblings only. */
  lemma ShortCircuitMisses()
    ensures var a := LogOr(Number("1"), Paren([Number("2"), Number("3")]));
            && SomeTokensYield(a)
            && HoldsAll(Flatten(ArithTree(a)), 3, ArithTrees(a.r))
            && SkipOperand(Flatten(ArithTree(a)), 3) != Some(3 + SizeAll(ArithTrees(a.r)))
  {
    hide HoldsAll, Flatten, ArithTree, GroupTrees, SizeAll, SkipOperand, SomeTokensYield;
    var group := [Number("2"), Number("3")];
    var a := LogOr(Number("1"), Paren(group));
    PairBuilt(group[0], group[1]);
    BuiltIff(a);
    RightOperandAt("1", a.r);
    SkipOperandExactIff(Flatten(ArithTree(a)), 3, ArithTrees(a.r));
  }

  /** The two trees that share one stream are both built. */
  lemma AmbiguousTreesAreBuilt()
    ensures var one, two, three, four := Number("1"), Number("2"), Number("3"), Number("4");
            var a := Choose(Paren([one]), Paren([two, three]), four);
            var b := Choose(Paren([one, two]), Paren([three]), four);
            SomeTokensYield(a) && SomeTokensYield(b) && a != b && ArithTree(a) == ArithTree(b)
  {
    hide ParseArith, ArithTree;
    var one, two, three, four := Number("1"), Number("2"), Number("3"), Number("4");
    PairBuilt(one, two);
    PairBuilt(two, three);
    BuiltIff(Choose(Paren([one]), Paren([two, three]), four));
    BuiltIff(Choose(Paren([one, two]), Paren([three]), four));
    AdjacentGroupsAmbiguous();
  }

  lemma PairBuilt(x: Arith, y: Arith)
    requires Built(x) && Built(y)
    ensures Built(Paren([x])) && Built(Paren([y])) && Built(Paren([x, y]))
  {
    assert [x][1..] == [] && [y][1..] == [] && [x, y][1..] == [y];
  }
}
