/** Variables whose text is itself an expression: when evaluation ends, what it means, and what `++`
    and `--` do on a chain of names. */
module NameChains {
  import opened Text
  import opened TokenStream
  import opened VariableStore
  import opened ArithmeticSyntax
  import opened ArithmeticSemantics
  import opened ArithmeticGrammar

  /** A rank for every element of every variable. */
  type Ranking = (string, nat) -> nat

  /** No assignment and no step; every element that it names, in subscripts too, ranks below r. */
  predicate PureBelow(p: ArithParser, st: Store, a: Arith, rank: Ranking, r: nat)
    decreases a
  {
    match a
    case Number(_) => true
    case Ref(v) => AllPureBelow(p, st, v.index, rank, r) && NamesBelow(p, st, v, rank, r)
    case Paren(items) => AllPureBelow(p, st, items, rank, r)
    case Expand(items) => AllPureBelow(p, st, items, rank, r)
    case Unary(_, e) => PureBelow(p, st, e, rank, r)
    case Choose(c, t, f) => PureBelow(p, st, c, rank, r) && PureBelow(p, st, t, rank, r) && PureBelow(p, st, f, rank, r)
    case Step(_, _, _) => false
    case Assign(_, _, _) => false
    case _ => PureBelow(p, st, a.l, rank, r) && PureBelow(p, st, a.r, rank, r)
  }

  predicate AllPureBelow(p: ArithParser, st: Store, items: seq<Arith>, rank: Ranking, r: nat)
    decreases items
  {
    items != [] ==> PureBelow(p, st, items[0], rank, r) && AllPureBelow(p, st, items[1..], rank, r)
  }

  /** The element that the subscript selects, if it selects one. */
  predicate NamesBelow(p: ArithParser, st: Store, v: Name, rank: Ranking, r: nat) {
    var i := EvalGroup(p, v.index, st, r);
    i.Some? && i.value.Val? && i.value.v >= 0 ==> rank(v.base, i.value.v) < r
  }

  /** What a variable's element is read as. */
  function Meaning(p: ArithParser, st: Store, name: string, index: nat): Option<Group> {
    p(ResolveString(st, name, index))
  }

  predicate Descends(p: ArithParser, st: Store, rank: Ranking, name: string, index: nat) {
    Meaning(p, st, name, index).Some? && ResolveString(st, name, index) != "" ==>
      AllPureBelow(p, st, Meaning(p, st, name, index).value, rank, rank(name, index))
  }

  /** Below r the reference graph is acyclic: an element's text names only elements of lower rank, and
      assigns nothing. Nothing is asked of elements that rank higher, so that only those which an
      expression can reach matter. */
  ghost predicate Acyclic(p: ArithParser, st: Store, rank: Ranking, r: nat) {
    forall name: string, index: nat | rank(name, index) < r :: Descends(p, st, rank, name, index)
  }

  // ---- Substitution ----

  /** `0++`, which the walker rejects, and `2**-1`, whose loop does not end. */
  const FAULT := Step(true, true, Number("0"))
  const FOREVER := Binary(Pow, Number("2"), Unary(Neg, Number("1")))

  /** The expression with every variable replaced by the expression that its text is. */
  function Subst(p: ArithParser, st: Store, a: Arith, n: nat): Arith
    decreases n, a
  {
    match a
    case Ref(v) => SubstRef(p, st, v, n)
    case Paren(items) => Paren(SubstAll(p, st, items, n))
    case Expand(items) => Expand(SubstAll(p, st, items, n))
    case Unary(op, e) => Unary(op, Subst(p, st, e, n))
    case Binary(op, l, r) => Binary(op, Subst(p, st, l, n), Subst(p, st, r, n))
    case LogOr(l, r) => LogOr(Subst(p, st, l, n), Subst(p, st, r, n))
    case LogAnd(l, r) => LogAnd(Subst(p, st, l, n), Subst(p, st, r, n))
    case Choose(c, t, f) => Choose(Subst(p, st, c, n), Subst(p, st, t, n), Subst(p, st, f, n))
    case _ => a
  }

  function SubstAll(p: ArithParser, st: Store, items: seq<Arith>, n: nat): (r: seq<Arith>)
    ensures |r| == |items|
    decreases n, items
  {
    if items == [] then [] else [Subst(p, st, items[0], n)] + SubstAll(p, st, items[1..], n)
  }

  function SubstRef(p: ArithParser, st: Store, v: Name, n: nat): Arith
    decreases n, v
  {
    match EvalGroup(p, SubstAll(p, st, v.index, n), st, 0)
    case None => FOREVER
    case Some(Exc(_)) => FAULT
    case Some(Val(i, _)) =>
      if i < 0 then FAULT
      else if ResolveString(st, v.base, i) == "" then Number("0")
      else if n == 0 then FOREVER
      else match Meaning(p, st, v.base, i)
        case None => FAULT
        case Some(items) => Expand(SubstAll(p, st, items, n - 1))
  }

  predicate Closed(a: Arith)
    decreases a
  {
    match a
    case Number(_) => true
    case Ref(_) => false
    case Paren(items) => AllClosed(items)
    case Expand(items) => AllClosed(items)
    case Unary(_, e) => Closed(e)
    case Choose(c, t, f) => Closed(c) && Closed(t) && Closed(f)
    case Step(_, _, e) => !e.Ref?
    case Assign(_, _, _) => false
    case _ => Closed(a.l) && Closed(a.r)
  }

  predicate AllClosed(items: seq<Arith>)
    decreases items
  {
    items != [] ==> Closed(items[0]) && AllClosed(items[1..])
  }

  /** A bound of the rank suffices: the value is that of the variable-free expression got by
      substitution, which needs no bound at all and is the same for every larger bound, and no variable
      changes. */
  lemma {:induction false} EvalIsSubst(p: ArithParser, st: Store, rank: Ranking, a: Arith, r: nat, n: nat)
    requires Acyclic(p, st, rank, r) && PureBelow(p, st, a, rank, r) && n >= r
    ensures Closed(Subst(p, st, a, n)) && Subst(p, st, a, n) == Subst(p, st, a, r)
    ensures Eval(p, a, st, n) == Eval(p, Subst(p, st, a, n), st, 0)
    ensures Eval(p, a, st, n).Some? ==> Eval(p, a, st, n).value.st == st
    decreases n, a
  {
    hide ResolveString, Compute, NamesBelow, Acyclic;
    if a.Ref? {
      RefIsSubst(p, st, rank, a.v, r, n);
    } else if a.Paren? || a.Expand? {
      GroupIsSubst(p, st, rank, a.items, r, n);
    } else if a.Unary? {
      EvalIsSubst(p, st, rank, a.e, r, n);
    } else if a.Choose? {
      EvalIsSubst(p, st, rank, a.c, r, n);
      EvalIsSubst(p, st, rank, a.t, r, n);
      EvalIsSubst(p, st, rank, a.f, r, n);
    } else if a.Binary? || a.LogOr? || a.LogAnd? {
      EvalIsSubst(p, st, rank, a.l, r, n);
      EvalIsSubst(p, st, rank, a.r, r, n);
    }
  }

  lemma {:induction false} GroupIsSubst(p: ArithParser, st: Store, rank: Ranking, items: seq<Arith>, r: nat, n: nat)
    requires Acyclic(p, st, rank, r) && AllPureBelow(p, st, items, rank, r) && n >= r
    ensures AllClosed(SubstAll(p, st, items, n)) && SubstAll(p, st, items, n) == SubstAll(p, st, items, r)
    ensures EvalGroup(p, items, st, n) == EvalGroup(p, SubstAll(p, st, items, n), st, 0)
    ensures EvalGroup(p, items, st, n).Some? ==> EvalGroup(p, items, st, n).value.st == st
    decreases n, items
  {
    hide Eval, Subst, Acyclic;
    if items != [] {
      EvalIsSubst(p, st, rank, items[0], r, n);
      GroupIsSubst(p, st, rank, items[1..], r, n);
      assert SubstAll(p, st, items, n)[1..] == SubstAll(p, st, items[1..], n);
    }
  }

  lemma {:induction false} RefIsSubst(p: ArithParser, st: Store, rank: Ranking, v: Name, r: nat, n: nat)
    requires Acyclic(p, st, rank, r) && PureBelow(p, st, Ref(v), rank, r) && n >= r
    ensures Closed(SubstRef(p, st, v, n)) && SubstRef(p, st, v, n) == SubstRef(p, st, v, r)
    ensures EvalRef(p, v, st, n) == Eval(p, SubstRef(p, st, v, n), st, 0)
    ensures EvalRef(p, v, st, n).Some? ==> EvalRef(p, v, st, n).value.st == st
    decreases n, v
  {
    hide ResolveString, EvalGroup, SubstAll, AllPureBelow, AllClosed, Acyclic;
    GroupIsSubst(p, st, rank, v.index, r, n);
    GroupIsSubst(p, st, rank, v.index, r, r);
    Terms(p, st);
    var i := EvalGroup(p, v.index, st, r);
    if i.Some? && i.value.Val? && i.value.v >= 0 && ResolveString(st, v.base, i.value.v) != "" {
      match Meaning(p, st, v.base, i.value.v)
      case None =>
      case Some(items) =>
        var s := rank(v.base, i.value.v);
        Below(p, st, rank, r, v.base, i.value.v);
        GroupIsSubst(p, st, rank, items, s, n - 1);
        GroupIsSubst(p, st, rank, items, s, r - 1);
    }
  }

  lemma Below(p: ArithParser, st: Store, rank: Ranking, r: nat, name: string, index: nat)
    requires Acyclic(p, st, rank, r) && rank(name, index) < r
    ensures Acyclic(p, st, rank, rank(name, index)) && Descends(p, st, rank, name, index)
  {
    hide Descends;
  }

  lemma Terms(p: ArithParser, st: Store)
    ensures Eval(p, FAULT, st, 0) == Some(Exc(st)) && Eval(p, FOREVER, st, 0) == None && Closed(FAULT) && Closed(FOREVER)
    ensures Eval(p, Number("0"), st, 0) == Some(Val(0, st))
  {
    assert DigitsValue("1") == 10 * DigitsValue("") + 1 by { assert "1"[..0] == ""; }
    assert DigitsValue("0") == 10 * DigitsValue("") + 0 by { assert "0"[..0] == ""; }
    assert Eval(p, Number("1"), st, 0) == Some(Val(1, st));
    assert Eval(p, Unary(Neg, Number("1")), st, 0) == Some(Val(-1, st));
    assert Eval(p, Number("2"), st, 0).Some?;
  }

  predicate PowerFree(a: Arith)
    decreases a
  {
    match a
    case Paren(items) => AllPowerFree(items)
    case Expand(items) => AllPowerFree(items)
    case Unary(_, e) => PowerFree(e)
    case Choose(c, t, f) => PowerFree(c) && PowerFree(t) && PowerFree(f)
    case Binary(op, l, r) => op != Pow && PowerFree(l) && PowerFree(r)
    case LogOr(l, r) => PowerFree(l) && PowerFree(r)
    case LogAnd(l, r) => PowerFree(l) && PowerFree(r)
    case _ => true
  }

  predicate AllPowerFree(items: seq<Arith>)
    decreases items
  {
    items != [] ==> PowerFree(items[0]) && AllPowerFree(items[1..])
  }

  /** Without variables only `**` can fail to end. */
  lemma {:induction false} ClosedEnds(p: ArithParser, st: Store, a: Arith)
    requires Closed(a) && PowerFree(a)
    ensures Eval(p, a, st, 0).Some? && Eval(p, a, st, 0).value.st == st
    decreases a
  {
    if a.Paren? || a.Expand? {
      GroupEnds(p, st, a.items);
    } else if a.Unary? {
      ClosedEnds(p, st, a.e);
    } else if a.Choose? {
      ClosedEnds(p, st, a.c);
      ClosedEnds(p, st, a.t);
      ClosedEnds(p, st, a.f);
    } else if a.Binary? || a.LogOr? || a.LogAnd? {
      ClosedEnds(p, st, a.l);
      ClosedEnds(p, st, a.r);
    }
  }

  lemma {:induction false} GroupEnds(p: ArithParser, st: Store, items: seq<Arith>)
    requires AllClosed(items) && AllPowerFree(items)
    ensures EvalGroup(p, items, st, 0).Some? && EvalGroup(p, items, st, 0).value.st == st
    decreases items
  {
    if items != [] {
      ClosedEnds(p, st, items[0]);
      GroupEnds(p, st, items[1..]);
    }
  }

  /** Hence evaluation ends, under whatever bound, if and only if the variable-free expression does; that
      one always ends when it has no `**`. The value is the same for every bound from the rank on. */
  lemma AcyclicEndsIff(p: ArithParser, st: Store, rank: Ranking, a: Arith, r: nat)
    requires Acyclic(p, st, rank, r) && PureBelow(p, st, a, rank, r)
    ensures (exists n: nat :: Eval(p, a, st, n).Some?) <==> Eval(p, Subst(p, st, a, r), st, 0).Some?
    ensures PowerFree(Subst(p, st, a, r)) ==> Eval(p, Subst(p, st, a, r), st, 0).Some?
    ensures forall n: nat | n >= r :: Eval(p, a, st, n) == Eval(p, Subst(p, st, a, r), st, 0)
  {
    hide Eval, Subst, Closed, PowerFree, Acyclic, PureBelow;
    forall n: nat | n >= r
      ensures Eval(p, a, st, n) == Eval(p, Subst(p, st, a, r), st, 0)
    {
      EvalIsSubst(p, st, rank, a, r, n);
    }
    EvalIsSubst(p, st, rank, a, r, r);
    assert Eval(p, Subst(p, st, a, r), st, 0).Some? ==> Eval(p, a, st, r).Some?;
    if n: nat :| Eval(p, a, st, n).Some? {
      EvalMore(p, a, st, n, if n >= r then n else r);
    }
    if PowerFree(Subst(p, st, a, r)) { ClosedEnds(p, st, Subst(p, st, a, r)); }
  }

  ghost predicate PointsTo(p: ArithParser, st: Store, name: string, next: string) {
    ResolveString(st, name, 0) != "" && Meaning(p, st, name, 0) == Some([Ref(Name(next, []))])
  }

  function After(names: seq<string>, i: nat): nat
    requires i < |names|
  {
    if i + 1 == |names| then 0 else i + 1
  }

  /** Conversely a variable on a cycle of names is never evaluated to an end. */
  lemma {:induction false} CyclesNeverEnd(p: ArithParser, st: Store, names: seq<string>, i: nat, n: nat)
    requires i < |names| && forall k | 0 <= k < |names| :: PointsTo(p, st, names[k], names[After(names, k)])
    ensures Eval(p, Ref(Name(names[i], [])), st, n) == None
    decreases n
  {
    var v := Name(names[i], []);
    var text := ResolveString(st, names[i], 0);
    assert PointsTo(p, st, names[i], names[After(names, i)]);
    assert EvalGroup(p, [], st, n) == Some(Val(0, st));
    assert EvalIndex(p, v, st, n) == Some(Val(0, st));
    if n > 0 {
      CyclesNeverEnd(p, st, names, After(names, i), n - 1);
      assert EvalGroup(p, p(text).value, st, n - 1) == None;
    }
    assert EvalText(p, text, st, n) == None;
  }

  // ---- A chain of names ----

  /** Reading `name++`, `name--`, `++name` and `--name` as a parser does. */
  ghost predicate ReadsSteps(p: ArithParser, name: string) {
    forall post: bool, up: bool ::
      var text := if post then name + StepSign(up) else StepSign(up) + name;
      p(text) == Some(TheStep(post, up, name))
  }

  function TheStep(post: bool, up: bool, name: string): Group {
    StepIsReadable(post, up, Name(name, []));
    [Step(post, up, Ref(Name(name, [])))]
  }

  lemma StepIsReadable(post: bool, up: bool, v: Name)
    requires WfName(v)
    ensures WfGroup([Step(post, up, Ref(v))])
  {
    var e := Ref(v);
    var a := Step(post, up, e);
    assert Wf(e);
    assert a.e == e && Wf(a);
    assert [a][0] == a && [a][1..] == [];
  }

  /** Each name's text is the next name; the last one's text starts with a digit. */
  ghost predicate Chain(p: ArithParser, st: Store, names: seq<string>) {
    && names != []
    && IsNumber(ResolveString(st, names[|names| - 1], 0))
    && forall i | 0 <= i < |names| - 1 :: LinksTo(p, st, names[i], names[i + 1])
  }

  ghost predicate LinksTo(p: ArithParser, st: Store, name: string, next: string) {
    ResolveString(st, name, 0) == next && next != "" && !IsNumber(next) && ReadsSteps(p, next)
  }

  /** A step on the first name is a step on the last: that variable changes by exactly one, unless it is
      readonly; the result is the new or the old value. */
  lemma {:induction false} StepOnChain(p: ArithParser, st: Store, names: seq<string>, post: bool, up: bool, n: nat)
    requires Chain(p, st, names) && n >= |names|
    ensures var last := names[|names| - 1];
            var now := ResolveLong(st, last, 0);
            var next := if up then now + 1 else now - 1;
            Eval(p, TheStep(post, up, names[0])[0], st, n) == Some(Assigned(st, last, 0, next, if post then now else next))
    decreases |names|
  {
    hide Assigned, ResolveString, ResolveLong;
    var v := Name(names[0], []);
    var text := ResolveString(st, names[0], 0);
    assert EvalGroup(p, [], st, n) == Some(Val(0, st));
    assert EvalIndex(p, v, st, n) == Some(Val(0, st));
    assert Eval(p, TheStep(post, up, names[0])[0], st, n) == StepVariable(p, post, up, names[0], 0, st, n);
    if |names| > 1 {
      assert LinksTo(p, st, names[0], names[1]);
      assert Chain(p, st, names[1..]) by {
        forall i | 0 <= i < |names| - 2
          ensures LinksTo(p, st, names[1..][i], names[1..][i + 1])
        {
          assert LinksTo(p, st, names[i + 1], names[i + 2]);
        }
      }
      StepOnChain(p, st, names[1..], post, up, n - 1);
      OneItem(p, TheStep(post, up, names[1]), st, n - 1);
      assert names[1..][|names| - 2] == names[|names| - 1] && names[1..][0] == names[1];
      assert !IsNumber(text) && text == names[1];
      var t := if post then names[1] + StepSign(up) else StepSign(up) + names[1];
      assert p(t) == Some(TheStep(post, up, names[1]));
      assert EvalText(p, t, st, n) == Eval(p, TheStep(post, up, names[1])[0], st, n - 1);
    }
  }

  lemma OneItem(p: ArithParser, items: seq<Arith>, st: Store, n: nat)
    requires |items| == 1
    ensures EvalGroup(p, items, st, n) == Eval(p, items[0], st, n)
  {
    hide Eval;
  }

  /** Only that variable: every other name keeps its whole stack of bindings. */
  lemma StepChangesOneVariable(p: ArithParser, st: Store, names: seq<string>, post: bool, up: bool, n: nat, other: string)
    requires names != [] && Chain(p, st, names) && n >= |names| && other != names[|names| - 1] && names[|names| - 1] != ""
    ensures var r := Eval(p, TheStep(post, up, names[0])[0], st, n);
            && r.Some? && Stack(r.value.st, other) == Stack(st, other)
            && (r.value.Val? ==> ResolveLong(r.value.st, names[|names| - 1], 0) ==
                                 ResolveLong(st, names[|names| - 1], 0) + if up then 1 else -1)
  {
    hide Eval, Stack, Chain, Innermost;
    var last := names[|names| - 1];
    var now := ResolveLong(st, last, 0);
    var next := if up then now + 1 else now - 1;
    StepOnChain(p, st, names, post, up, n);
    SetValueOnStacks(st, last, Num(next), 0);
    ReadBack(st, last, Num(next));
  }

  lemma ReadBack(st: Store, name: string, v: Value)
    requires name != ""
    ensures var r := SetValue(st, name, v, 0); r.Some? ==> ResolveLong(r.value, name, 0) == v.AsLong()
  {
    hide Bindings;
    SetValueOnStacks(st, name, v, 0);
    ResolveIsTop(st, name);
    var r := SetValue(st, name, v, 0);
    if r.Some? { ResolveIsTop(r.value, name); }
  }

  predicate Writable(st: Store, name: string) { SetValue(st, name, Num(0), 0).Some? }

  /** On a variable whose text is a number, a step changes it by one if and only if the text starts with
      a digit. A signed number is not recognised: its text with the operator is evaluated instead, which
      is unreadable, so that the step throws and nothing changes. */
  lemma StepOnNumberIff(p: ArithParser, st: Store, name: string, post: bool, up: bool, n: nat)
    requires ToInt(ResolveString(st, name, 0)).Some? && n > 0
    requires var text := ResolveString(st, name, 0);
             !IsNumber(text) ==> p(text + StepSign(up)) == None && p(StepSign(up) + text) == None
    ensures var now := ResolveLong(st, name, 0);
            var next := if up then now + 1 else now - 1;
            var stepped := Assigned(st, name, 0, next, if post then now else next);
            var r := Eval(p, TheStep(post, up, name)[0], st, n);
            && r == Some(if IsNumber(ResolveString(st, name, 0)) then stepped else Exc(st))
            && (Writable(st, name) ==> (r == Some(stepped) <==> IsNumber(ResolveString(st, name, 0))))
  {
    hide ResolveString, ResolveLong, ToInt, Innermost;
    assert EvalGroup(p, [], st, n) == Some(Val(0, st));
    assert EvalIndex(p, Name(name, []), st, n) == Some(Val(0, st));
    assert Eval(p, TheStep(post, up, name)[0], st, n) == StepVariable(p, post, up, name, 0, st, n);
    var text := ResolveString(st, name, 0);
    NumberIsText(text);
    if !IsNumber(text) {
      assert EvalText(p, if post then text + StepSign(up) else StepSign(up) + text, st, n) == Some(Exc(st));
    }
  }

  lemma NumberIsText(s: string)
    requires ToInt(s).Some?
    ensures s != ""
  {
  }

  function SignedStep(sign: UnOp, up: bool, digits: string): seq<Arith> { [Unary(sign, Step(true, up, Number(digits)))] }

  /** What the grammar reads in these texts: steps on a name; a sign before a stepped number, which is no
      readable tree; nothing, when the operator stands before the sign. */
  lemma StepTexts(up: bool, name: string, sign: UnOp, digits: string)
    requires sign == Pos || sign == Neg
    ensures ParseList(Sym(NAME, name, Sign(up, Done))) == Some((TheStep(true, up, name), Done))
    ensures ParseList(Sign(up, Sym(NAME, name, Done))) == Some((TheStep(false, up, name), Done))
    ensures ParseList(On(SignKind(sign), Sym(NUMBER, digits, Sign(up, Done)))) == Some((SignedStep(sign, up, digits), Done))
    ensures !WfGroup(SignedStep(sign, up, digits))
    ensures ParseList(Sign(up, On(SignKind(sign), Sym(NUMBER, digits, Done)))) == None
  {
    hide ParseArith;
    assert forall s :: PutName(Name(name, []), s) == Sym(NAME, name, s);
    assert Put(Step(true, up, Ref(Name(name, []))), Done) == Sym(NAME, name, Sign(up, Done));
    assert Put(Step(false, up, Ref(Name(name, []))), Done) == Sign(up, Sym(NAME, name, Done));
    StepRead(true, up, Ref(Name(name, [])));
    StepRead(false, up, Ref(Name(name, [])));
    SignedRead(sign, up, digits);
    var inner := Step(true, up, Number(digits));
    assert !Wf(inner) && !Wf(Unary(sign, inner)) && SignedStep(sign, up, digits)[0] == Unary(sign, inner);
  }

  lemma StepRead(post: bool, up: bool, e: Arith)
    requires Built(e) && Level(e) == 12
    ensures ParseArith(Put(Step(post, up, e), Done)) == Some((Step(post, up, e), Done))
  {
    RoundTrip(Step(post, up, e));
  }

  lemma SignedRead(sign: UnOp, up: bool, digits: string)
    requires sign == Pos || sign == Neg
    ensures ParseArith(On(SignKind(sign), Sym(NUMBER, digits, Sign(up, Done)))) == Some((SignedStep(sign, up, digits)[0], Done))
    ensures ParseArith(Sign(up, On(SignKind(sign), Sym(NUMBER, digits, Done)))) == None
  {
    hide ParseLevel, ParseName;
    var inner := Sym(NUMBER, digits, Sign(up, Done));
    PostRead(Step(true, up, Number(digits)), Done);
    assert ParseUnary(inner) == ParsePost(inner);
    assert ParseUnary(On(SignKind(sign), inner)) == Some((SignedStep(sign, up, digits)[0], Done));
    OnlyUnary(0, On(SignKind(sign), inner));
    var s := Sign(up, On(SignKind(sign), Sym(NUMBER, digits, Done)));
    assert ParseQuoted(s.rest.rest) == None;
    OnlyUnary(0, s);
  }

  /** With nothing behind a unary expression every level yields it. */
  lemma {:induction false} OnlyUnary(k: nat, s: Syms)
    requires k <= 10 && (ParseUnary(s).Some? ==> ParseUnary(s).value.1 == Done)
    ensures ParseLevel(k, s) == ParseUnary(s)
    decreases 10 - k
  {
    hide ParseUnary;
    if k < 10 { OnlyUnary(k + 1, s); }
  }
}
