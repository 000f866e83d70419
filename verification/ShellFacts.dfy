/** What every command keeps, on every outcome, and that a run's result does not depend on the bound
    once the bound suffices. Proved together, by one induction over the interpreter. */
module ShellFacts {
  import opened Text
  import opened VariableStore
  import opened ArithmeticSyntax
  import opened ArithmeticSemantics
  import opened ShellSyntax
  import opened Arrays
  import opened ShellSemantics

  /** Functions are never removed or redefined. */
  predicate Extends(a: map<string, Compound>, b: map<string, Compound>) {
    forall f | f in a :: f in b && b[f] == a[f]
  }

  /** What was written before stays, and of the streams that were there only the current output may have got
      longer. */
  predicate Appended(a: State, b: State) {
    && |b.texts| >= |a.texts|
    && (forall i | 0 <= i < |a.texts| && i != a.out :: b.texts[i] == a.texts[i])
    && (a.out < |a.texts| ==> a.texts[a.out] <= b.texts[a.out])
  }

  /** Scope depth and function bodies. */
  predicate KeptScopes(a: State, b: State) {
    && |b.vars.frames| == |a.vars.frames|
    && Appended(a, b)
    && Extends(a.bodies, b.bodies)
  }

  /** Also the three current streams. */
  predicate Kept(a: State, b: State) {
    && KeptScopes(a, b)
    && b.out == a.out && b.err == a.err && b.inp == a.inp
  }

  lemma KeptTrans(a: State, b: State, c: State)
    requires Kept(a, b) && Kept(b, c)
    ensures Kept(a, c)
  {
  }

  /** A loop signal in flight still counts at least one loop. */
  predicate Counted(out: Outcome) {
    match out case Break(k) => k >= 1 case Continue(k) => k >= 1 case _ => true
  }

  // ---- Words ----

  lemma {:induction false} PartFacts(w: World, p: Part, st: State, n: nat, m: nat)
    requires n <= m && EvalPart(w, p, st, n).Some?
    ensures EvalPart(w, p, st, m) == EvalPart(w, p, st, n)
    ensures var r := EvalPart(w, p, st, n).value; Kept(st, r.st) && Counted(r.out)
    decreases n, 1, 0
  {
    match p
    case VarPart(v) => IndexMore(w.arith, v, st.vars, n, m);
    case ArithPart(items) => GroupMore(w.arith, items, st.vars, n, m);
    case SubPart(raw) => SubFacts(w, raw, st, n, m);
    case Plain(_) =>
    case Quoted(_) =>
    case ArgPart(_) =>
  }

  lemma {:induction false} SubFacts(w: World, raw: string, st: State, n: nat, m: nat)
    requires n <= m && RunSub(w, raw, st, n).Some?
    ensures RunSub(w, raw, st, m) == RunSub(w, raw, st, n)
    ensures var r := RunSub(w, raw, st, n).value; Kept(st, r.st) && Counted(r.out)
    decreases n, 0
  {
    match w.script(Inner(raw))
    case None =>
    case Some(items) => ListFacts(w, items, OpenStream(st).(out := |st.texts|), n - 1, m - 1);
  }

  lemma {:induction false} WordFacts(w: World, ps: Word, st: State, n: nat, m: nat)
    requires n <= m && EvalWord(w, ps, st, n).Some?
    ensures EvalWord(w, ps, st, m) == EvalWord(w, ps, st, n)
    ensures var r := EvalWord(w, ps, st, n).value; Kept(st, r.st) && Counted(r.out)
    decreases n, 1, |ps| + 1
  {
    if ps != [] {
      PartFacts(w, ps[0], st, n, m);
      var g := EvalPart(w, ps[0], st, n).value;
      if g.out == Normal { WordFacts(w, ps[1..], g.st, n, m); }
    }
  }

  lemma {:induction false} ArgumentFacts(w: World, args: seq<Word>, split: bool, st: State, n: nat, m: nat)
    requires n <= m && EvalArguments(w, args, split, st, n).Some?
    ensures EvalArguments(w, args, split, st, m) == EvalArguments(w, args, split, st, n)
    ensures var r := EvalArguments(w, args, split, st, n).value; Kept(st, r.st) && Counted(r.out)
    decreases n, 2, |args|
  {
    if args != [] {
      WordFacts(w, args[0], st, n, m);
      var g := EvalWord(w, args[0], st, n).value;
      if g.out == Normal { ArgumentFacts(w, args[1..], split, g.st, n, m); }
    }
  }

  lemma {:induction false} ForWordFacts(w: World, words: seq<Word>, st: State, n: nat, m: nat)
    requires n <= m && EvalForWords(w, words, st, n).Some?
    ensures EvalForWords(w, words, st, m) == EvalForWords(w, words, st, n)
    ensures var r := EvalForWords(w, words, st, n).value; Kept(st, r.st) && Counted(r.out)
    decreases n, 2, |words|
  {
    if words != [] {
      WordFacts(w, words[0], st, n, m);
      var g := EvalWord(w, words[0], st, n).value;
      if g.out == Normal { ForWordFacts(w, words[1..], g.st, n, m); }
    }
  }

  lemma {:induction false} DefFacts(w: World, d: Def, local: bool, st: State, n: nat, m: nat)
    requires n <= m && ExecDef(w, d, local, st, n).Some?
    ensures ExecDef(w, d, local, st, m) == ExecDef(w, d, local, st, n)
    ensures var r := ExecDef(w, d, local, st, n).value; Kept(st, r.st) && Counted(r.out)
    decreases n, 2, 0
  {
    hide EvalWord, EvalIndex;
    IndexMore(w.arith, d.v, st.vars, n, m);
    var i := EvalIndex(w.arith, d.v, st.vars, n).value;
    if i.Val? { WordFacts(w, if d.value.Some? then d.value.value else [], st.(vars := i.st), n, m); }
  }

  lemma {:induction false} DefsFacts(w: World, ds: seq<Def>, local: bool, st: State, n: nat, m: nat)
    requires n <= m && ExecDefs(w, ds, local, st, n).Some?
    ensures ExecDefs(w, ds, local, st, m) == ExecDefs(w, ds, local, st, n)
    ensures var r := ExecDefs(w, ds, local, st, n).value; Kept(st, r.st) && Counted(r.out)
    decreases n, 2, |ds| + 1
  {
    hide ExecDef;
    if ds != [] {
      DefFacts(w, ds[0], local, st, n, m);
      var r := ExecDef(w, ds[0], local, st, n).value;
      if r.out == Normal { DefsFacts(w, ds[1..], local, r.st, n, m); }
    }
  }

  lemma {:induction false} RedirectFacts(w: World, rs: seq<Redirect>, st: State, n: nat, m: nat)
    requires n <= m && ExecRedirects(w, rs, st, n).Some?
    ensures ExecRedirects(w, rs, st, m) == ExecRedirects(w, rs, st, n)
    ensures var r := ExecRedirects(w, rs, st, n).value;
            KeptScopes(st, r.st) && Counted(r.out) && (r.st.out == st.out || r.st.out >= |st.texts|)
    decreases n, 2, |rs|
  {
    hide EvalWord;
    if rs != [] {
      WordFacts(w, rs[0].target, st, n, m);
      var r := ExecRedirect(w, rs[0], st, n).value;
      if r.out == Normal { RedirectFacts(w, rs[1..], r.st, n, m); }
    }
  }

  // ---- Conditions ----

  lemma {:induction false} CompareFacts(w: World, op: CompareOp, l: Word, r: Word, st: State, n: nat, m: nat)
    requires n <= m && EvalCompare(w, op, l, r, st, n).Some?
    ensures EvalCompare(w, op, l, r, st, m) == EvalCompare(w, op, l, r, st, n)
    ensures var r := EvalCompare(w, op, l, r, st, n).value; Kept(st, r.st) && Counted(r.out)
    decreases n, 2, 0
  {
    hide EvalWord, TestNumbers, CompareTexts;
    WordFacts(w, l, st, n, m);
    var x := EvalWord(w, l, st, n).value;
    if x.out == Normal {
      WordFacts(w, r, x.st, n, m);
      var y := EvalWord(w, r, x.st, n).value;
      if y.out == Normal && Numeric(op) { NumberFacts(w, op, x.v, y.v, y.st, n, m); }
    }
  }

  lemma NumberFacts(w: World, op: CompareOp, l: string, r: string, st: State, n: nat, m: nat)
    requires n <= m && TestNumbers(w, op, l, r, st, n).Some?
    ensures TestNumbers(w, op, l, r, st, m) == TestNumbers(w, op, l, r, st, n)
    ensures var r := TestNumbers(w, op, l, r, st, n).value; Kept(st, r.st) && Counted(r.out)
  {
    TextMore(w.arith, l, st.vars, n, m);
    var x := EvalText(w.arith, l, st.vars, n).value;
    if x.Val? { TextMore(w.arith, r, x.st, n, m); }
  }

  lemma {:induction false} PrimFacts(w: World, p: Prim, st: State, n: nat, m: nat)
    requires n <= m && EvalPrim(w, p, st, n).Some?
    ensures EvalPrim(w, p, st, m) == EvalPrim(w, p, st, n)
    ensures var r := EvalPrim(w, p, st, n).value; Kept(st, r.st) && Counted(r.out)
    decreases n, 2, 1
  {
    match p
    case Compare(op, l, r) => CompareFacts(w, op, l, r, st, n, m);
    case IsEmpty(_, x) => WordFacts(w, x, st, n, m);
    case NonEmpty(x) => WordFacts(w, x, st, n, m);
  }

  lemma {:induction false} CondFacts(w: World, keyword: bool, c: Cond, st: State, n: nat, m: nat)
    requires n <= m && EvalCond(w, keyword, c, st, n).Some?
    ensures EvalCond(w, keyword, c, st, m) == EvalCond(w, keyword, c, st, n)
    ensures var r := EvalCond(w, keyword, c, st, n).value; Kept(st, r.st) && Counted(r.out)
    decreases n, 3, c
  {
    hide EvalPrim;
    if c.Basic? {
      PrimFacts(w, c.p, st, n, m);
    } else if c.Negate? {
      CondFacts(w, keyword, c.c, st, n, m);
    } else {
      CondFacts(w, keyword, c.l, st, n, m);
      var x := EvalCond(w, keyword, c.l, st, n).value;
      if x.out == Normal && !(keyword && x.v == c.Either?) { CondFacts(w, keyword, c.r, x.st, n, m); }
    }
  }

  // ---- Commands ----

  lemma {:induction false} ListFacts(w: World, items: seq<Logic>, st: State, n: nat, m: nat)
    requires n <= m && ExecList(w, items, st, n).Some?
    ensures ExecList(w, items, st, m) == ExecList(w, items, st, n)
    ensures var r := ExecList(w, items, st, n).value; Kept(st, r.st) && Counted(r.out)
    decreases n, 6, items, 0
  {
    if items != [] {
      LogicFacts(w, items[0], st, n, m);
      var r := ExecLogic(w, items[0], st, n).value;
      if r.out == Normal { ListFacts(w, items[1..], r.st, n, m); }
    }
  }

  lemma {:induction false} LogicFacts(w: World, l: Logic, st: State, n: nat, m: nat)
    requires n <= m && ExecLogic(w, l, st, n).Some?
    ensures ExecLogic(w, l, st, m) == ExecLogic(w, l, st, n)
    ensures var r := ExecLogic(w, l, st, n).value; Kept(st, r.st) && Counted(r.out)
    decreases n, 6, l, 0
  {
    if l.Single? {
      CommandFacts(w, l.c, st, n, m);
    } else {
      LogicFacts(w, l.left, st, n, m);
      var r := ExecLogic(w, l.left, st, n).value;
      if r.out == Normal && (r.st.status == 0) == l.AndThen? { CommandFacts(w, l.c, r.st, n, m); }
    }
  }

  lemma {:induction false} CommandFacts(w: World, c: Command, st: State, n: nat, m: nat)
    requires n <= m && ExecCommand(w, c, st, n).Some?
    ensures ExecCommand(w, c, st, m) == ExecCommand(w, c, st, n)
    ensures var r := ExecCommand(w, c, st, n).value; Kept(st, r.st) && Counted(r.out)
    decreases n, 6, c, 0
  {
    RedirectFacts(w, c.redirects, st, n, m);
    var r := ExecRedirects(w, c.redirects, st, n).value;
    if r.out == Normal { AtomFacts(w, c.atom, r.st, n, m); }
  }

  lemma {:induction false} AtomFacts(w: World, a: Atom, st: State, n: nat, m: nat)
    requires n <= m && ExecAtom(w, a, st, n).Some?
    ensures ExecAtom(w, a, st, m) == ExecAtom(w, a, st, n)
    ensures var r := ExecAtom(w, a, st, n).value; Kept(st, r.st) && Counted(r.out)
    decreases n, 6, a, 0
  {
    hide ExecDefs, ExecSimple, ExecCompound;
    match a
    case Defs(local, defs) => DefsFacts(w, defs, local, st, n, m);
    case FunDef(_, _) =>
    case Simple(words, locals, bang) => SimpleFacts(w, words, locals, bang, st, n, m);
    case Comp(c) => CompoundFacts(w, c, st, n, m);
  }

  lemma {:induction false} SimpleFacts(w: World, words: seq<Word>, locals: seq<Def>, bang: bool, st: State, n: nat, m: nat)
    requires n <= m && ExecSimple(w, words, locals, bang, st, n).Some?
    ensures ExecSimple(w, words, locals, bang, st, m) == ExecSimple(w, words, locals, bang, st, n)
    ensures var r := ExecSimple(w, words, locals, bang, st, n).value; Kept(st, r.st) && Counted(r.out)
    decreases n, 5
  {
    hide EvalWord, EvalArguments, ExecNamed;
    if words != [] {
      WordFacts(w, words[0], st, n, m);
      var g := EvalWord(w, words[0], st, n).value;
      if g.out == Normal {
        ArgumentFacts(w, words[1..], SplitsArguments(g.v), g.st, n, m);
        var a := EvalArguments(w, words[1..], SplitsArguments(g.v), g.st, n).value;
        if a.out == Normal { NamedFacts(w, g.v, a.v, locals, bang, a.st, n, m); }
      }
    }
  }

  lemma {:induction false} NamedFacts(w: World, name: string, args: seq<string>, locals: seq<Def>, bang: bool, st: State, n: nat, m: nat)
    requires n <= m && ExecNamed(w, name, args, locals, bang, st, n).Some?
    ensures ExecNamed(w, name, args, locals, bang, st, m) == ExecNamed(w, name, args, locals, bang, st, n)
    ensures var r := ExecNamed(w, name, args, locals, bang, st, n).value; Kept(st, r.st) && Counted(r.out)
    decreases n, 4
  {
    InScopeFacts(w, name, args, locals, bang, if OwnScope(name) then EnterScope(st) else st, n, m);
  }

  lemma {:induction false} InScopeFacts(w: World, name: string, args: seq<string>, locals: seq<Def>, bang: bool, st: State, n: nat, m: nat)
    requires n <= m && ExecInScope(w, name, args, locals, bang, st, n).Some?
    ensures ExecInScope(w, name, args, locals, bang, st, m) == ExecInScope(w, name, args, locals, bang, st, n)
    ensures var r := ExecInScope(w, name, args, locals, bang, st, n).value; Kept(st, r.st) && Counted(r.out)
    decreases n, 3
  {
    hide ExecDefs, Dispatch;
    DefsFacts(w, locals, true, st, n, m);
    var d := ExecDefs(w, locals, true, st, n).value;
    if d.out == Normal { DispatchFacts(w, if name == "" then ":" else name, args, d.st, n, m); }
  }

  lemma {:induction false} DispatchFacts(w: World, name: string, args: seq<string>, st: State, n: nat, m: nat)
    requires n <= m && Dispatch(w, name, args, st, n).Some?
    ensures Dispatch(w, name, args, st, m) == Dispatch(w, name, args, st, n)
    ensures var r := Dispatch(w, name, args, st, n).value; Kept(st, r.st) && Counted(r.out)
    decreases n, 2, 0
  {
    if name in st.bodies {
      CallFacts(w, name, args, st, n, m);
    } else if name in NestingBuiltins() {
      NestedFacts(w, name, args, st, n, m);
    } else {
      BuiltinFacts(name, args, st);
    }
  }

  lemma BuiltinFacts(name: string, args: seq<string>, st: State)
    ensures var r := Builtin(name, args, st); Kept(st, r.st) && Counted(r.out)
  {
  }

  lemma {:induction false} CallFacts(w: World, name: string, args: seq<string>, st: State, n: nat, m: nat)
    requires n <= m && name in st.bodies && Call(w, name, args, st, n).Some?
    ensures Call(w, name, args, st, m) == Call(w, name, args, st, n)
    ensures var r := Call(w, name, args, st, n).value; Kept(st, r.st) && Counted(r.out)
    decreases n, 1
  {
    hide ExecCompound, Positional;
    match DefineLocal(st.vars, "*", Var(Positional(args), false))
    case None =>
    case Some(vars) => CompoundFacts(w, st.bodies[name], st.(vars := vars), n - 1, m - 1);
  }

  lemma {:induction false} NestedFacts(w: World, name: string, args: seq<string>, st: State, n: nat, m: nat)
    requires n <= m && NestedScript(w, name, args, st, n).Some?
    ensures NestedScript(w, name, args, st, m) == NestedScript(w, name, args, st, n)
    ensures var r := NestedScript(w, name, args, st, n).value; Kept(st, r.st) && Counted(r.out)
    decreases n, 1
  {
    match if name == "eval" then w.script(Join(args, " ")) else w.locals(Concat(args))
    case None =>
    case Some(items) => ListFacts(w, items, st, n - 1, m - 1);
  }

  lemma {:induction false} CompoundFacts(w: World, c: Compound, st: State, n: nat, m: nat)
    requires n <= m && ExecCompound(w, c, st, n).Some?
    ensures ExecCompound(w, c, st, m) == ExecCompound(w, c, st, n)
    ensures var r := ExecCompound(w, c, st, n).value; Kept(st, r.st) && Counted(r.out)
    decreases n, 6, c, 1
  {
    hide ExecList, EvalCond, ExecFor, CForLoop, WhileLoop, ExecClauses, ExecArms, EvalWord, ExecExpression, EvalGroup;
    match c
    case Group(body) => ListFacts(w, body, st, n, m);
    case Test(keyword, cond) => CondFacts(w, keyword, cond, st, n, m);
    case Arithmetic(items) => GroupMore(w.arith, items, st.vars, n, m);
    case For(name, words, body) => ForFacts(w, name, words, body, st, n, m);
    case CFor(init, test, body, step) =>
      ExpressionFacts(w, init, st, n, m);
      var r := ExecExpression(w, init, st, n).value;
      if r.out == Normal { CForLoopFacts(w, test, body, step, r.st, n, m); }
    case While(until, guard, body) => WhileFacts(w, until, guard, body, st, n, m);
    case If(clauses, otherwise) =>
      ClauseFacts(w, clauses, st, n, m);
      var g := ExecClauses(w, clauses, st, n).value;
      if g.out == Normal && !g.v { ListFacts(w, otherwise, g.st, n, m); }
    case Case(word, arms) =>
      WordFacts(w, word, st, n, m);
      var g := EvalWord(w, word, st, n).value;
      if g.out == Normal { ArmFacts(w, g.v, arms, g.st, n, m); }
  }

  lemma {:induction false} ClauseFacts(w: World, clauses: seq<Clause>, st: State, n: nat, m: nat)
    requires n <= m && ExecClauses(w, clauses, st, n).Some?
    ensures ExecClauses(w, clauses, st, m) == ExecClauses(w, clauses, st, n)
    ensures var r := ExecClauses(w, clauses, st, n).value; Kept(st, r.st) && Counted(r.out)
    decreases n, 6, clauses, 0
  {
    if clauses != [] {
      OneClauseFacts(w, clauses[0], st, n, m);
      var g := ExecClause(w, clauses[0], st, n).value;
      if g.out == Normal && !g.v { ClauseFacts(w, clauses[1..], g.st, n, m); }
    }
  }

  lemma {:induction false} OneClauseFacts(w: World, c: Clause, st: State, n: nat, m: nat)
    requires n <= m && ExecClause(w, c, st, n).Some?
    ensures ExecClause(w, c, st, m) == ExecClause(w, c, st, n)
    ensures var r := ExecClause(w, c, st, n).value; Kept(st, r.st) && Counted(r.out)
    decreases n, 6, c, 0
  {
    ListFacts(w, c.cond, st, n, m);
    var r := ExecList(w, c.cond, st, n).value;
    if r.out == Normal && r.st.status == 0 { ListFacts(w, c.body, r.st, n, m); }
  }

  lemma {:induction false} ArmFacts(w: World, target: string, arms: seq<Arm>, st: State, n: nat, m: nat)
    requires n <= m && ExecArms(w, target, arms, st, n).Some?
    ensures ExecArms(w, target, arms, st, m) == ExecArms(w, target, arms, st, n)
    ensures var r := ExecArms(w, target, arms, st, n).value; Kept(st, r.st) && Counted(r.out)
    decreases n, 6, arms, 0
  {
    if arms != [] {
      OneArmFacts(w, target, arms[0], st, n, m);
      var g := ExecArm(w, target, arms[0], st, n).value;
      if g.out == Normal && !g.v { ArmFacts(w, target, arms[1..], g.st, n, m); }
    }
  }

  lemma {:induction false} OneArmFacts(w: World, target: string, a: Arm, st: State, n: nat, m: nat)
    requires n <= m && ExecArm(w, target, a, st, n).Some?
    ensures ExecArm(w, target, a, st, m) == ExecArm(w, target, a, st, n)
    ensures var r := ExecArm(w, target, a, st, n).value; Kept(st, r.st) && Counted(r.out)
    decreases n, 6, a, 0
  {
    BranchesFacts(w, a.patterns, st, n, m);
    var g := EvalBranches(w, a.patterns, st, n).value;
    if g.out == Normal && w.matches(target, g.v) { ListFacts(w, a.body, g.st, n, m); }
  }

  lemma {:induction false} PatFacts(w: World, p: PatItem, st: State, n: nat, m: nat)
    requires n <= m && EvalPat(w, p, st, n).Some?
    ensures EvalPat(w, p, st, m) == EvalPat(w, p, st, n)
    ensures var r := EvalPat(w, p, st, n).value; Kept(st, r.st) && Counted(r.out)
    decreases n, 1, 1
  {
    if p.PatText? { PartFacts(w, p.p, st, n, m); }
  }

  lemma {:induction false} BranchFacts(w: World, b: seq<PatItem>, st: State, n: nat, m: nat)
    requires n <= m && EvalBranch(w, b, st, n).Some?
    ensures EvalBranch(w, b, st, m) == EvalBranch(w, b, st, n)
    ensures var r := EvalBranch(w, b, st, n).value; Kept(st, r.st) && Counted(r.out)
    decreases n, 2, |b|
  {
    if b != [] {
      PatFacts(w, b[0], st, n, m);
      var g := EvalPat(w, b[0], st, n).value;
      if g.out == Normal { BranchFacts(w, b[1..], g.st, n, m); }
    }
  }

  lemma {:induction false} BranchesFacts(w: World, bs: seq<seq<PatItem>>, st: State, n: nat, m: nat)
    requires n <= m && EvalBranches(w, bs, st, n).Some?
    ensures EvalBranches(w, bs, st, m) == EvalBranches(w, bs, st, n)
    ensures var r := EvalBranches(w, bs, st, n).value; Kept(st, r.st) && Counted(r.out)
    decreases n, 3, |bs|
  {
    if bs != [] {
      BranchFacts(w, bs[0], st, n, m);
      var g := EvalBranch(w, bs[0], st, n).value;
      if g.out == Normal { BranchesFacts(w, bs[1..], g.st, n, m); }
    }
  }

  // ---- Loops ----

  lemma {:induction false} WhileFacts(w: World, until: bool, guard: seq<Logic>, body: seq<Logic>, st: State, n: nat, m: nat)
    requires n <= m && WhileLoop(w, until, guard, body, st, n).Some?
    ensures WhileLoop(w, until, guard, body, st, m) == WhileLoop(w, until, guard, body, st, n)
    ensures var r := WhileLoop(w, until, guard, body, st, n).value; Kept(st, r.st) && Counted(r.out)
    decreases n, 1
  {
    hide ExecList;
    ListFacts(w, guard, st, n - 1, m - 1);
    var g := ExecList(w, guard, st, n - 1).value;
    if g.out == Normal && g.st.status != (if until then 0 else 1) {
      ListFacts(w, body, g.st, n - 1, m - 1);
      var r := ExecList(w, body, g.st, n - 1).value;
      if LoopSignal(r.out).Again? { WhileFacts(w, until, guard, body, r.st, n - 1, m - 1); }
    }
  }

  lemma {:induction false} ForFacts(w: World, name: string, words: seq<Word>, body: seq<Logic>, st: State, n: nat, m: nat)
    requires n <= m && ExecFor(w, name, words, body, st, n).Some?
    ensures ExecFor(w, name, words, body, st, m) == ExecFor(w, name, words, body, st, n)
    ensures var r := ExecFor(w, name, words, body, st, n).value; Kept(st, r.st) && Counted(r.out)
    decreases n, 3, 0
  {
    if words == [] {
      ForLoopFacts(w, name, StarValues(st), body, st, n, m);
    } else {
      ForWordFacts(w, words, st, n, m);
      var g := EvalForWords(w, words, st, n).value;
      if g.out == Normal && g.v != [] { ForLoopFacts(w, name, g.v, body, g.st, n, m); }
    }
  }

  lemma {:induction false} ForLoopFacts(w: World, name: string, values: seq<string>, body: seq<Logic>, st: State, n: nat, m: nat)
    requires n <= m && ForLoop(w, name, values, body, st, n).Some?
    ensures ForLoop(w, name, values, body, st, m) == ForLoop(w, name, values, body, st, n)
    ensures var r := ForLoop(w, name, values, body, st, n).value; Kept(st, r.st) && Counted(r.out)
    decreases n, 1
  {
    hide ExecList;
    if values != [] {
      match SetValue(st.vars, name, Str(values[0]), 0)
      case None =>
      case Some(vars) =>
        ListFacts(w, body, st.(vars := vars), n - 1, m - 1);
        var r := ExecList(w, body, st.(vars := vars), n - 1).value;
        if LoopSignal(r.out).Again? { ForLoopFacts(w, name, values[1..], body, r.st, n - 1, m - 1); }
    }
  }

  lemma VariablesKept(st: State, vars: Store)
    requires |vars.frames| == |st.vars.frames|
    ensures Kept(st, st.(vars := vars))
  {
  }

  lemma ExpressionFacts(w: World, items: seq<Arith>, st: State, n: nat, m: nat)
    requires n <= m && ExecExpression(w, items, st, n).Some?
    ensures ExecExpression(w, items, st, m) == ExecExpression(w, items, st, n)
    ensures var r := ExecExpression(w, items, st, n).value; Kept(st, r.st) && Counted(r.out)
  {
    hide EvalGroup;
    GroupMore(w.arith, items, st.vars, n, m);
  }

  lemma {:induction false} CForLoopFacts(w: World, test: seq<Arith>, body: seq<Logic>, step: seq<Arith>, st: State, n: nat, m: nat)
    requires n <= m && CForLoop(w, test, body, step, st, n).Some?
    ensures CForLoop(w, test, body, step, st, m) == CForLoop(w, test, body, step, st, n)
    ensures var r := CForLoop(w, test, body, step, st, n).value; Kept(st, r.st) && Counted(r.out)
    decreases n, 1
  {
    hide ExecList, EvalGroup, ExecExpression, Kept;
    GroupMore(w.arith, test, st.vars, n - 1, m - 1);
    var t := EvalGroup(w.arith, test, st.vars, n - 1).value;
    var st1 := st.(vars := t.st);
    VariablesKept(st, t.st);
    if t.Val? && !(test != [] && t.v == 0) {
      ListFacts(w, body, st1, n - 1, m - 1);
      var r := ExecList(w, body, st1, n - 1).value;
      KeptTrans(st, st1, r.st);
      if LoopSignal(r.out).Again? {
        ExpressionFacts(w, step, r.st, n - 1, m - 1);
        var s := ExecExpression(w, step, r.st, n - 1).value;
        KeptTrans(st, r.st, s.st);
        if s.out == Normal {
          CForLoopFacts(w, test, body, step, s.st, n - 1, m - 1);
          KeptTrans(st, s.st, CForLoop(w, test, body, step, s.st, n - 1).value.st);
        }
      }
    }
  }

  // ---- The theorems ----

  /** A script's result, if it ends, is one and the same for every bound that suffices. */
  lemma RunsAreDetermined(w: World, items: seq<Logic>, st: State, n: nat, m: nat)
    requires ExecList(w, items, st, n).Some? && ExecList(w, items, st, m).Some?
    ensures ExecList(w, items, st, n) == ExecList(w, items, st, m)
  {
    if n <= m { ListFacts(w, items, st, n, m); } else { ListFacts(w, items, st, m, n); }
  }

  /** Every command leaves scope depth and current streams as it found them, keeps every function, writes
      only to the end of its current output and to streams of its own, and throws only signals that count
      at least one loop, whatever its outcome and however deeply calls, evals and substitutions nest. */
  lemma CommandsRestore(w: World, c: Command, st: State, n: nat)
    requires ExecCommand(w, c, st, n).Some?
    ensures var r := ExecCommand(w, c, st, n).value;
            && |r.st.vars.frames| == |st.vars.frames|
            && (r.st.out, r.st.err, r.st.inp) == (st.out, st.err, st.inp)
            && (forall f | f in st.bodies :: f in r.st.bodies && r.st.bodies[f] == st.bodies[f])
            && |r.st.texts| >= |st.texts|
            && (forall i | 0 <= i < |st.texts| && i != st.out :: r.st.texts[i] == st.texts[i])
            && (st.out < |st.texts| ==> st.texts[st.out] <= r.st.texts[st.out])
            && (r.out.Break? || r.out.Continue? ==> r.out.count >= 1)
  {
    CommandFacts(w, c, st, n, n);
  }
}
