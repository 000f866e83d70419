/** The tree grammar's command rules, walking the flat stream by hand. A rule sees tokens only; the tree
    at the cursor and the bound on nesting are ghosts. Each rule is proved to reach exactly the outcome
    and state that interpreting the tree reaches, for every run that ends, and on a normal outcome to
    leave the cursor one past the tree. */
module CommandWalker {
  import opened Text
  import opened TokenStream
  import opened VariableStore
  import opened ArithmeticSyntax
  import opened ArithmeticSemantics
  import opened ArithmeticWalker
  import opened ShellSyntax
  import opened Arrays
  import opened Backtick
  import Echo
  import opened ShellSemantics
  import opened ShellFacts
  import opened TreeTokens

  /** A function is a position in the AST that was walked when it was defined. */
  datatype Function = Function(ast: seq<Token>, index: nat)

  class FunctionTable {
    var entries: map<string, Function>
    ghost var bodies: map<string, Compound>

    /** Every stored index is the start of the compound command it stands for, in its own AST. */
    ghost predicate Valid()
      reads this
    {
      && entries.Keys == bodies.Keys
      && forall f | f in entries ::
           WfCompound(bodies[f]) && Holds(entries[f].ast, entries[f].index, CompoundTree(bodies[f]))
    }

    constructor ()
      ensures Valid() && bodies == map[]
    {
      entries := map[];
      bodies := map[];
    }

    /** `functions.insert`: a name already defined keeps its function. */
    method Insert(name: string, ast: seq<Token>, index: nat, ghost body: Compound)
      requires Valid() && WfCompound(body) && Holds(ast, index, CompoundTree(body))
      modifies this
      ensures Valid()
      ensures bodies == if name in old(bodies) then old(bodies) else old(bodies)[name := body]
    {
      if name !in entries {
        entries := entries[name := Function(ast, index)];
        bodies := bodies[name := body];
      }
    }
  }

  /** The interpreter object that all walkers share. */
  class Shell {
    const tab: SymbolTable
    const funs: FunctionTable
    var status: int
    var asts: seq<seq<Token>>
    var texts: seq<string>
    var out: nat
    var err: nat
    var inp: nat

    constructor (st: Store)
      ensures fresh(tab) && fresh(funs) && funs.Valid()
      ensures Abs() == State(st, map[], 0, ["", "", ""], 0, 1, 2) && asts == []
    {
      tab := new SymbolTable(st);
      funs := new FunctionTable();
      status, asts, texts := 0, [], ["", "", ""];
      out, err, inp := 0, 1, 2;
    }

    ghost function Abs(): State
      reads this, tab, funs
    {
      State(tab.st, funs.bodies, status, texts, out, err, inp)
    }

    /** The AST being walked is the one on top of the stack. */
    ghost predicate On(tokens: seq<Token>)
      reads this, funs
    {
      funs.Valid() && asts != [] && asts[|asts| - 1] == tokens
    }

    method SetStreams(o: nat, e: nat, i: nat)
      modifies this
      ensures out == o && err == e && inp == i
      ensures status == old(status) && asts == old(asts) && texts == old(texts)
    {
      out, err, inp := o, e, i;
    }

    method SetStatus(s: int)
      modifies this`status
      ensures status == s
    {
      status := s;
    }
  }

  /** The outcome and state, and on a normal outcome the value, are those of the evaluator. */
  ghost predicate Gives<T>(g: Option<Got<T>>, o: Outcome, v: T, st: State) {
    g.Some? && g.value.out == o && g.value.st == st && (o == Normal ==> g.value.v == v)
  }

  // ---- Words ----

  method StringPart(ctx: NodeStream, sh: Shell, w: World, ghost p: Part, ghost n: nat)
    returns (o: Outcome, v: string, quoted: bool)
    requires WfPart(p) && Holds(ctx.tokens, ctx.cursor, PartTree(p)) && sh.On(ctx.tokens)
    requires EvalPart(w, p, sh.Abs(), n).Some?
    modifies ctx, sh, sh.tab, sh.funs
    ensures sh.On(ctx.tokens) && sh.asts == old(sh.asts)
    ensures Gives(EvalPart(w, p, old(sh.Abs()), n), o, v, sh.Abs())
    ensures o == Normal ==> ctx.cursor == old(ctx.cursor) + Size(PartTree(p)) && quoted == p.Quoted?
    decreases n, 1, 0
  {
    hide FunctionTable.Valid, Holds, HoldsAll, Size, SizeAll, Scan, PartTree, NameTree, GroupTrees, EvalIndex,
         EvalGroup, RunSub;
    PartTokens(ctx.tokens, ctx.cursor, p);
    o, v, quoted := Normal, "", false;
    if ctx.Sees(SINGLE_QUOTED_STRING) {
      v, quoted := ctx.LA(3).text, true;
      ctx.Seek(ctx.cursor + 4);
    } else if ctx.Sees(ARITHMETIC_EXPRESSION) {
      ctx.Seek(ctx.cursor + 2);
      GroupEnd(ctx.tokens, ctx.cursor, p.items);
      var ok, x := ArithmeticParts(ctx, sh.tab, w.arith, p.items, n);
      if !ok { o := Fail; return; }
      v := FromInt(x);
      ctx.Consume();
    } else if ctx.Sees(VAR_REF) {
      ctx.Seek(ctx.cursor + 2);
      if p.VarPart? { NameTokens(ctx.tokens, ctx.cursor, p.v); }
      if ctx.Sees(NUMBER) {
        var i := DigitsValue(ctx.LA(1).text);
        v := ResolveString(sh.tab.st, if i != 0 then "*" else "0", i);
        ctx.Consume();
      } else {
        var ok, base, index := VariableName(ctx, sh.tab, w.arith, p.v, n);
        if !ok { o := Fail; return; }
        v := ResolveString(sh.tab.st, base, index);
      }
      ctx.Consume();
    } else if ctx.Sees(COMMAND_SUB) {
      o, v := CommandSubstitution(sh, w, ctx.LA(3).text, n);
      ctx.Seek(ctx.cursor + 4);
    } else {
      v := ctx.LA(1).text;
      ctx.Consume();
    }
  }

  lemma GroupEnd(s: seq<Token>, c: nat, items: seq<Arith>)
    requires c + SizeAll(GroupTrees(items)) < |s| && s[c + SizeAll(GroupTrees(items))] == Up
    ensures !KindAt(s, c + SizeAll(GroupTrees(items)), ARITHMETIC)
  {
  }

  method CommandSubstitution(sh: Shell, w: World, raw: string, ghost n: nat) returns (o: Outcome, v: string)
    requires sh.funs.Valid() && RunSub(w, raw, sh.Abs(), n).Some?
    modifies sh, sh.tab, sh.funs
    ensures sh.funs.Valid() && sh.asts == old(sh.asts)
    ensures Gives(RunSub(w, raw, old(sh.Abs()), n), o, v, sh.Abs())
    decreases n, 0
  {
    hide FunctionTable.Valid, ExecList;
    var so, se, si := sh.out, sh.err, sh.inp;
    var id := |sh.texts|;
    sh.texts := sh.texts + [""];
    sh.out := id;
    var text := InnerText(raw);
    var parsed := w.script(text);
    v := "";
    if parsed.None? {
      o := Fail;
    } else {
      o := RunScript(sh, w, parsed.value, n - 1);
      if o == Normal { v := TrimEols(if id < |sh.texts| then sh.texts[id] else ""); }
    }
    sh.SetStreams(so, se, si);
  }

  method InnerText(raw: string) returns (s: string)
    ensures s == Inner(raw)
  {
    if raw != "" && raw[0] == '`' {
      s := Unescape(if |raw| >= 2 then raw[1..|raw| - 1] else "");
    } else {
      s := Inner(raw);
    }
  }

  /** interpret_with: a node stream and a walker of its own, and the AST on the stack meanwhile. */
  method RunScript(sh: Shell, w: World, items: Script, ghost n: nat) returns (o: Outcome)
    requires sh.funs.Valid() && ExecList(w, items, sh.Abs(), n).Some?
    modifies sh, sh.tab, sh.funs
    ensures sh.funs.Valid() && sh.asts == old(sh.asts)
    ensures ExecList(w, items, old(sh.Abs()), n) == Some(Run(o, sh.Abs()))
    decreases n, 7
  {
    hide FunctionTable.Valid, Holds, Size, ListTree, ExecList, Flatten;
    var ctx := new NodeStream(Flatten(ListTree(items)));
    WholeTree(ListTree(items));
    sh.asts := sh.asts + [ctx.tokens];
    o := CommandList(ctx, sh, w, items, n);
    sh.asts := sh.asts[..|sh.asts| - 1];
  }

  lemma WholeTree(t: Tree)
    ensures Holds(Flatten(t), 0, t)
  {
    FlattenSize(t);
    HoldsIsSlice(Flatten(t), 0, t);
    assert Flatten(t)[0..Size(t)] == Flatten(t);
  }

  /** string_expr: the values of the pieces, joined; quoted if the last one is. */
  method StringExpr(ctx: NodeStream, sh: Shell, w: World, ghost ps: Word, ghost n: nat)
    returns (o: Outcome, v: string, quoted: bool)
    requires WfWord(ps) && Holds(ctx.tokens, ctx.cursor, WordTree(ps)) && sh.On(ctx.tokens)
    requires EvalWord(w, ps, sh.Abs(), n).Some?
    modifies ctx, sh, sh.tab, sh.funs
    ensures sh.On(ctx.tokens) && sh.asts == old(sh.asts)
    ensures Gives(EvalWord(w, ps, old(sh.Abs()), n), o, v, sh.Abs())
    ensures o == Normal ==> ctx.cursor == old(ctx.cursor) + Size(WordTree(ps)) && quoted == IsQuoted(ps)
    decreases n, 1, 1
  {
    hide FunctionTable.Valid, Holds, HoldsAll, Size, SizeAll, Scan, PartTree, PartTrees, WordTree, EvalPart, WfPart;
    WordTokens(ctx.tokens, ctx.cursor, ps);
    ctx.Seek(ctx.cursor + 2);
    o, v, quoted := Normal, "", true;
    ghost var k := 0;
    ghost var end := ctx.cursor + SizeAll(PartTrees(ps));
    assert ps[0..] == ps;
    PartsStep(ctx.tokens, ctx.cursor, ps);
    while ctx.LA(1) != Up
      invariant 0 <= k <= |ps| && sh.On(ctx.tokens) && sh.asts == old(sh.asts)
      invariant HoldsAll(ctx.tokens, ctx.cursor, PartTrees(ps[k..])) && ctx.cursor + SizeAll(PartTrees(ps[k..])) == end
      invariant k < |ps| ==> ctx.LA(1).Tok?
      invariant k == |ps| ==> ctx.cursor == end
      invariant quoted == IsQuoted(ps[..k])
      invariant o == Normal && WordSoFar(w, ps, old(sh.Abs()), n, k, v, sh.Abs())
      decreases |ps| - k
    {
      WordNext(w, ps, old(sh.Abs()), n, k, v, sh.Abs());
      PartsStep(ctx.tokens, ctx.cursor, ps[k..]);
      assert ps[k..][0] == ps[k] && ps[k..][1..] == ps[k + 1..];
      var piece;
      o, piece, quoted := StringPart(ctx, sh, w, ps[k], n);
      if o != Normal { return; }
      v := v + piece;
      k := k + 1;
      PartsStep(ctx.tokens, ctx.cursor, ps[k..]);
    }
    assert ps[k..] == [] && ps[..k] == ps && v + "" == v;
    ctx.Consume();
  }

  /** The first k pieces gave `v` and the state `now`. */
  ghost predicate WordSoFar(w: World, ps: Word, st: State, n: nat, k: nat, v: string, now: State)
    requires k <= |ps|
  {
    && EvalWord(w, ps, st, n).Some?
    && EvalWord(w, ps[k..], now, n).Some?
    && var whole, rest := EvalWord(w, ps, st, n).value, EvalWord(w, ps[k..], now, n).value;
    && whole.out == rest.out && whole.st == rest.st && (rest.out == Normal ==> whole.v == v + rest.v)
  }

  lemma WordNext(w: World, ps: Word, st: State, n: nat, k: nat, v: string, now: State)
    requires k < |ps| && WordSoFar(w, ps, st, n, k, v, now)
    ensures EvalPart(w, ps[k], now, n).Some?
    ensures var g := EvalPart(w, ps[k], now, n).value;
            && (g.out != Normal ==> Gives(EvalWord(w, ps, st, n), g.out, "", g.st))
            && (g.out == Normal ==> WordSoFar(w, ps, st, n, k + 1, v + g.v, g.st))
  {
    hide EvalPart;
    assert ps[k..][0] == ps[k] && ps[k..][1..] == ps[k + 1..];
    var g := EvalPart(w, ps[k], now, n).value;
    if g.out == Normal && EvalWord(w, ps[k + 1..], g.st, n).Some? {
      var rest := EvalWord(w, ps[k + 1..], g.st, n).value;
      assert v + (g.v + rest.v) == v + g.v + rest.v;
    }
  }

  // ---- Lists ----

  method CommandList(ctx: NodeStream, sh: Shell, w: World, ghost items: seq<Logic>, ghost n: nat) returns (o: Outcome)
    requires WfList(items) && Holds(ctx.tokens, ctx.cursor, ListTree(items)) && sh.On(ctx.tokens)
    requires ExecList(w, items, sh.Abs(), n).Some?
    modifies ctx, sh, sh.tab, sh.funs
    ensures sh.On(ctx.tokens) && sh.asts == old(sh.asts)
    ensures ExecList(w, items, old(sh.Abs()), n) == Some(Run(o, sh.Abs()))
    ensures o == Normal ==> ctx.cursor == old(ctx.cursor) + Size(ListTree(items))
    decreases n, 6, items, 1
  {
    hide FunctionTable.Valid, Holds, HoldsAll, Size, SizeAll, Scan, ListTree, LogicTrees, LogicTree, WfLogic, ExecLogic;
    ListTokens(ctx.tokens, ctx.cursor, items);
    ctx.Seek(ctx.cursor + 2);
    o := Normal;
    ghost var k := 0;
    ghost var end := ctx.cursor + SizeAll(LogicTrees(items));
    assert items[0..] == items;
    LogicsStep(ctx.tokens, ctx.cursor, items);
    while ctx.LA(1) != Up
      invariant 0 <= k <= |items| && WfLogics(items[k..]) && sh.On(ctx.tokens) && sh.asts == old(sh.asts)
      invariant HoldsAll(ctx.tokens, ctx.cursor, LogicTrees(items[k..]))
      invariant ctx.cursor + SizeAll(LogicTrees(items[k..])) == end
      invariant k < |items| ==> ctx.LA(1).Tok?
      invariant k == |items| ==> ctx.cursor == end
      invariant o == Normal && ExecList(w, items, old(sh.Abs()), n) == ExecList(w, items[k..], sh.Abs(), n)
      decreases |items| - k
    {
      LogicsStep(ctx.tokens, ctx.cursor, items[k..]);
      assert items[k..][0] == items[k] && items[k..][1..] == items[k + 1..];
      o := LogicCommandList(ctx, sh, w, items[k], n);
      if o != Normal { return; }
      k := k + 1;
      LogicsStep(ctx.tokens, ctx.cursor, items[k..]);
    }
    assert items[k..] == [];
    ctx.Consume();
  }

  method LogicCommandList(ctx: NodeStream, sh: Shell, w: World, ghost l: Logic, ghost n: nat) returns (o: Outcome)
    requires WfLogic(l) && Holds(ctx.tokens, ctx.cursor, LogicTree(l)) && sh.On(ctx.tokens)
    requires ExecLogic(w, l, sh.Abs(), n).Some?
    modifies ctx, sh, sh.tab, sh.funs
    ensures sh.On(ctx.tokens) && sh.asts == old(sh.asts)
    ensures ExecLogic(w, l, old(sh.Abs()), n) == Some(Run(o, sh.Abs()))
    ensures o == Normal ==> ctx.cursor == old(ctx.cursor) + Size(LogicTree(l))
    decreases n, 6, l, 1
  {
    hide FunctionTable.Valid, Holds, HoldsAll, Size, SizeAll, Scan, LogicTree, CommandTree, WfLogic, ExecCommand;
    LogicTokens(ctx.tokens, ctx.cursor, l);
    if ctx.Sees(COMMAND) {
      o := CommandRule(ctx, sh, w, l.c, n);
    } else {
      o := LogicCommand(ctx, sh, w, l, n);
    }
  }

  /** `&&` and `||`: the right command runs or is skipped as a whole tree. */
  method LogicCommand(ctx: NodeStream, sh: Shell, w: World, ghost l: Logic, ghost n: nat) returns (o: Outcome)
    requires !l.Single? && WfLogic(l) && Holds(ctx.tokens, ctx.cursor, LogicTree(l)) && sh.On(ctx.tokens)
    requires ExecLogic(w, l, sh.Abs(), n).Some?
    modifies ctx, sh, sh.tab, sh.funs
    ensures sh.On(ctx.tokens) && sh.asts == old(sh.asts)
    ensures ExecLogic(w, l, old(sh.Abs()), n) == Some(Run(o, sh.Abs()))
    ensures o == Normal ==> ctx.cursor == old(ctx.cursor) + Size(LogicTree(l))
    decreases n, 6, l, 0
  {
    hide FunctionTable.Valid, Holds, HoldsAll, Size, SizeAll, Scan, LogicTree, CommandTree, WfLogic, ExecCommand;
    LogicTokens(ctx.tokens, ctx.cursor, l);
    var and := ctx.Sees(LOGICAND);
    ctx.Seek(ctx.cursor + 2);
    o := LogicCommandList(ctx, sh, w, l.left, n);
    if o != Normal { return; }
    if (if and then sh.status == 0 else sh.status != 0) {
      o := CommandRule(ctx, sh, w, l.c, n);
      if o != Normal { return; }
    } else {
      ctx.SeekToNextTree();
    }
    ctx.Consume();
  }

  /** command: the three streams are put back whatever happens inside. */
  method CommandRule(ctx: NodeStream, sh: Shell, w: World, ghost c: Command, ghost n: nat) returns (o: Outcome)
    requires WfCommand(c) && Holds(ctx.tokens, ctx.cursor, CommandTree(c)) && sh.On(ctx.tokens)
    requires ExecCommand(w, c, sh.Abs(), n).Some?
    modifies ctx, sh, sh.tab, sh.funs
    ensures sh.On(ctx.tokens) && sh.asts == old(sh.asts)
    ensures ExecCommand(w, c, old(sh.Abs()), n) == Some(Run(o, sh.Abs()))
    ensures o == Normal ==> ctx.cursor == old(ctx.cursor) + Size(CommandTree(c))
    decreases n, 6, c, 2
  {
    hide FunctionTable.Valid, Holds, HoldsAll, Size, SizeAll, Scan, CommandTree, AtomTrees, RedirectTrees, WfAtom,
         WfRedirects, ExecAtom, ExecRedirects;
    var so, se, si := sh.out, sh.err, sh.inp;
    CommandTokens(ctx.tokens, ctx.cursor, c);
    ctx.Seek(ctx.cursor + 2);
    o := Redirections(ctx, sh, w, c.redirects, n);
    if o == Normal { o := CommandAtom(ctx, sh, w, c.atom, n); }
    sh.SetStreams(so, se, si);
    if o == Normal { ctx.Consume(); }
  }

  method Redirections(ctx: NodeStream, sh: Shell, w: World, ghost rs: seq<Redirect>, ghost n: nat) returns (o: Outcome)
    requires WfRedirects(rs) && HoldsAll(ctx.tokens, ctx.cursor, RedirectTrees(rs)) && sh.On(ctx.tokens)
    requires !KindAt(ctx.tokens, ctx.cursor + SizeAll(RedirectTrees(rs)), REDIR)
    requires ExecRedirects(w, rs, sh.Abs(), n).Some?
    modifies ctx, sh, sh.tab, sh.funs
    ensures sh.On(ctx.tokens) && sh.asts == old(sh.asts)
    ensures ExecRedirects(w, rs, old(sh.Abs()), n) == Some(Run(o, sh.Abs()))
    ensures o == Normal ==> ctx.cursor == old(ctx.cursor) + SizeAll(RedirectTrees(rs))
    decreases n, 2, 2
  {
    hide FunctionTable.Valid, Holds, HoldsAll, Size, SizeAll, Scan, RedirectTree, RedirectTrees, ExecRedirect, WfWord;
    o := Normal;
    ghost var k := 0;
    ghost var end := ctx.cursor + SizeAll(RedirectTrees(rs));
    assert rs[0..] == rs;
    RedirectsStep(ctx.tokens, ctx.cursor, rs);
    while ctx.Sees(REDIR)
      invariant 0 <= k <= |rs| && sh.On(ctx.tokens) && sh.asts == old(sh.asts)
      invariant HoldsAll(ctx.tokens, ctx.cursor, RedirectTrees(rs[k..]))
      invariant ctx.cursor + SizeAll(RedirectTrees(rs[k..])) == end
      invariant ctx.Sees(REDIR) <==> k < |rs|
      invariant k == |rs| ==> ctx.cursor == end
      invariant o == Normal && ExecRedirects(w, rs, old(sh.Abs()), n) == ExecRedirects(w, rs[k..], sh.Abs(), n)
      decreases |rs| - k
    {
      RedirectsStep(ctx.tokens, ctx.cursor, rs[k..]);
      assert rs[k..][0] == rs[k] && rs[k..][1..] == rs[k + 1..];
      o := Redirection(ctx, sh, w, rs[k], n);
      if o != Normal { return; }
      k := k + 1;
      RedirectsStep(ctx.tokens, ctx.cursor, rs[k..]);
    }
    assert rs[k..] == [];
  }

  method Redirection(ctx: NodeStream, sh: Shell, w: World, ghost r: Redirect, ghost n: nat) returns (o: Outcome)
    requires WfWord(r.target) && Holds(ctx.tokens, ctx.cursor, RedirectTree(r)) && sh.On(ctx.tokens)
    requires ExecRedirect(w, r, sh.Abs(), n).Some?
    modifies ctx, sh, sh.tab, sh.funs
    ensures sh.On(ctx.tokens) && sh.asts == old(sh.asts)
    ensures ExecRedirect(w, r, old(sh.Abs()), n) == Some(Run(o, sh.Abs()))
    ensures o == Normal ==> ctx.cursor == old(ctx.cursor) + Size(RedirectTree(r))
    decreases n, 2, 1
  {
    hide FunctionTable.Valid, Holds, Size, Scan, RedirectTree, WordTree, EvalWord, WfWord;
    RedirectTokens(ctx.tokens, ctx.cursor, r);
    ctx.Seek(ctx.cursor + 2);
    var input := ctx.Sees(LESS_THAN);
    ctx.Consume();
    var v, quoted;
    o, v, quoted := StringExpr(ctx, sh, w, r.target, n);
    if o != Normal { return; }
    var id := |sh.texts|;
    sh.texts := sh.texts + [""];
    if input { sh.inp := id; } else { sh.out := id; }
    ctx.Consume();
  }

  /** command_atom: the first token decides. */
  method CommandAtom(ctx: NodeStream, sh: Shell, w: World, ghost a: Atom, ghost n: nat) returns (o: Outcome)
    requires WfAtom(a) && HoldsAll(ctx.tokens, ctx.cursor, AtomTrees(a)) && sh.On(ctx.tokens)
    requires ctx.cursor + SizeAll(AtomTrees(a)) < |ctx.tokens| && ctx.tokens[ctx.cursor + SizeAll(AtomTrees(a))] == Up
    requires ExecAtom(w, a, sh.Abs(), n).Some?
    modifies ctx, sh, sh.tab, sh.funs
    ensures sh.On(ctx.tokens) && sh.asts == old(sh.asts)
    ensures ExecAtom(w, a, old(sh.Abs()), n) == Some(Run(o, sh.Abs()))
    ensures o == Normal ==> ctx.cursor == old(ctx.cursor) + SizeAll(AtomTrees(a))
    decreases n, 6, a, 0
  {
    hide FunctionTable.Valid, Holds, HoldsAll, Size, SizeAll, Scan, WfWords, WfDefs, WfCompound, ExecDefs, ExecSimple,
         ExecCompound, DefineFunction, Concat, AtomTrees, CompoundTree;
    AtomChildren(a);
    AtomRoot(ctx.tokens, ctx.cursor, a);
    if ctx.Sees(VARIABLE_DEFINITIONS) {
      o := VariableDefinitions(ctx, sh, w, a.local, a.defs, n);
    } else if ctx.Sees(FUNCTION) {
      o := FunctionDefinition(ctx, sh, a.name, a.fbody);
    } else if ctx.Sees(STRING) {
      o := SimpleCommand(ctx, sh, w, a.words, a.locals, a.bang, n);
    } else {
      OneTree(ctx.tokens, ctx.cursor, CompoundTree(a.c));
      o := CompoundCommand(ctx, sh, w, a.c, n);
    }
  }

  lemma AtomChildren(a: Atom)
    requires WfAtom(a)
    ensures AtomTrees(a) != [] && (a.Comp? ==> AtomTrees(a) == [CompoundTree(a.c)])
    ensures a.Simple? ==> a.words != []
  {
    CommandChildren(Command([], a));
  }

  method VariableDefinitions(ctx: NodeStream, sh: Shell, w: World, ghost local: bool, ghost defs: seq<Def>, ghost n: nat)
    returns (o: Outcome)
    requires defs != [] && WfDefs(defs) && HoldsAll(ctx.tokens, ctx.cursor, AtomTrees(Defs(local, defs))) && sh.On(ctx.tokens)
    requires ExecDefs(w, defs, local, sh.Abs(), n).Some?
    modifies ctx, sh, sh.tab, sh.funs
    ensures sh.On(ctx.tokens) && sh.asts == old(sh.asts)
    ensures ExecDefs(w, defs, local, old(sh.Abs()), n) == Some(Run(o, sh.Abs()))
    ensures o == Normal ==> ctx.cursor == old(ctx.cursor) + SizeAll(AtomTrees(Defs(local, defs)))
    decreases n, 2, 4
  {
    hide FunctionTable.Valid, Holds, HoldsAll, Size, SizeAll, Scan, WfDefs, ExecDefs, AtomTrees, DefTrees;
    DefsNode(ctx.tokens, ctx.cursor, local, defs);
    ctx.Seek(ctx.cursor + 2);
    var isLocal := ctx.Sees(LOCAL);
    if isLocal { ctx.Consume(); }
    o := VarDefs(ctx, sh, w, isLocal, defs, n);
    if o == Normal { ctx.Consume(); }
  }

  method VarDefs(ctx: NodeStream, sh: Shell, w: World, local: bool, ghost ds: seq<Def>, ghost n: nat)
    returns (o: Outcome)
    requires WfDefs(ds) && HoldsAll(ctx.tokens, ctx.cursor, DefTrees(ds)) && sh.On(ctx.tokens)
    requires !KindAt(ctx.tokens, ctx.cursor + SizeAll(DefTrees(ds)), EQUALS)
    requires ExecDefs(w, ds, local, sh.Abs(), n).Some?
    modifies ctx, sh, sh.tab, sh.funs
    ensures sh.On(ctx.tokens) && sh.asts == old(sh.asts)
    ensures ExecDefs(w, ds, local, old(sh.Abs()), n) == Some(Run(o, sh.Abs()))
    ensures o == Normal ==> ctx.cursor == old(ctx.cursor) + SizeAll(DefTrees(ds))
    decreases n, 2, 3
  {
    hide FunctionTable.Valid, Holds, HoldsAll, Size, SizeAll, Scan, DefTree, DefTrees, WfDef, ExecDef;
    o := Normal;
    ghost var k := 0;
    ghost var end := ctx.cursor + SizeAll(DefTrees(ds));
    assert ds[0..] == ds;
    DefsStep(ctx.tokens, ctx.cursor, ds);
    while ctx.Sees(EQUALS)
      invariant 0 <= k <= |ds| && sh.On(ctx.tokens) && sh.asts == old(sh.asts)
      invariant HoldsAll(ctx.tokens, ctx.cursor, DefTrees(ds[k..]))
      invariant ctx.cursor + SizeAll(DefTrees(ds[k..])) == end
      invariant ctx.Sees(EQUALS) <==> k < |ds|
      invariant k == |ds| ==> ctx.cursor == end
      invariant o == Normal && ExecDefs(w, ds, local, old(sh.Abs()), n) == ExecDefs(w, ds[k..], local, sh.Abs(), n)
      decreases |ds| - k
    {
      DefsStep(ctx.tokens, ctx.cursor, ds[k..]);
      assert ds[k..][0] == ds[k] && ds[k..][1..] == ds[k + 1..];
      o := VarDef(ctx, sh, w, local, ds[k], n);
      if o != Normal { return; }
      k := k + 1;
      DefsStep(ctx.tokens, ctx.cursor, ds[k..]);
    }
    assert ds[k..] == [];
  }

  method VarDef(ctx: NodeStream, sh: Shell, w: World, local: bool, ghost d: Def, ghost n: nat) returns (o: Outcome)
    requires WfDef(d) && Holds(ctx.tokens, ctx.cursor, DefTree(d)) && sh.On(ctx.tokens)
    requires ExecDef(w, d, local, sh.Abs(), n).Some?
    modifies ctx, sh, sh.tab, sh.funs
    ensures sh.On(ctx.tokens) && sh.asts == old(sh.asts)
    ensures ExecDef(w, d, local, old(sh.Abs()), n) == Some(Run(o, sh.Abs()))
    ensures o == Normal ==> ctx.cursor == old(ctx.cursor) + Size(DefTree(d))
    decreases n, 2, 2
  {
    hide FunctionTable.Valid, Holds, HoldsAll, Size, SizeAll, Scan, DefTree, NameTree, WordTree, WfName, WfWord,
         EvalIndex, EvalWord, DefineLocal, SetValue;
    DefTokens(ctx.tokens, ctx.cursor, d);
    ctx.Seek(ctx.cursor + 2);
    var ok, base, index := VariableName(ctx, sh.tab, w.arith, d.v, n);
    if !ok { return Fail; }
    o := Normal;
    var v, quoted := "", true;
    if ctx.Sees(STRING) {
      o, v, quoted := StringExpr(ctx, sh, w, d.value.value, n);
      if o != Normal { return; }
    } else {
      EmptyWord(w, sh.Abs(), n);
    }
    var r := if local then DefineLocal(sh.tab.st, base, Var(map[index := Str(v)], false))
             else SetValue(sh.tab.st, base, Str(v), index);
    if r.None? { return Fail; }
    sh.tab.st := r.value;
    ctx.Consume();
  }

  lemma EmptyWord(w: World, st: State, n: nat)
    ensures EvalWord(w, [], st, n) == Some(Got(Normal, "", st))
  {
  }

  /** function_definition: stores the current index as the body and skips the body's tree. */
  method FunctionDefinition(ctx: NodeStream, sh: Shell, ghost name: seq<string>, ghost body: Compound)
    returns (o: Outcome)
    requires name != [] && WfCompound(body) && HoldsAll(ctx.tokens, ctx.cursor, AtomTrees(FunDef(name, body))) && sh.On(ctx.tokens)
    modifies ctx, sh, sh.tab, sh.funs
    ensures sh.On(ctx.tokens) && sh.asts == old(sh.asts)
    ensures DefineFunction(Concat(name), body, old(sh.Abs())) == Run(o, sh.Abs())
    ensures o == Normal ==> ctx.cursor == old(ctx.cursor) + SizeAll(AtomTrees(FunDef(name, body)))
  {
    hide Holds, HoldsAll, Size, SizeAll, Scan, AtomTrees, CompoundTree, NamePieces, WfCompound, IsFunctionName, Concat;
    FunctionNode(ctx.tokens, ctx.cursor, name, body);
    ctx.Seek(ctx.cursor + 4);
    var s := FunctionName(ctx, name);
    ctx.Consume();
    if !IsFunctionName(s) { return Fail; }
    sh.funs.Insert(s, sh.asts[|sh.asts| - 1], ctx.cursor, body);
    ctx.SeekToNextTree();
    ctx.Consume();
    o := Normal;
  }

  method FunctionName(ctx: NodeStream, ghost name: seq<string>) returns (s: string)
    requires HoldsAll(ctx.tokens, ctx.cursor, NamePieces(name))
    requires var e := ctx.cursor + SizeAll(NamePieces(name)); e < |ctx.tokens| && ctx.tokens[e] == Up
    modifies ctx
    ensures s == Concat(name) && ctx.cursor == old(ctx.cursor) + SizeAll(NamePieces(name))
  {
    hide HoldsAll, SizeAll, NamePieces;
    s := "";
    ghost var k := 0;
    ghost var end := ctx.cursor + SizeAll(NamePieces(name));
    assert name[0..] == name;
    PiecesStep(ctx.tokens, ctx.cursor, name);
    while ctx.LA(1) != Up
      invariant 0 <= k <= |name|
      invariant HoldsAll(ctx.tokens, ctx.cursor, NamePieces(name[k..])) && ctx.cursor + SizeAll(NamePieces(name[k..])) == end
      invariant k < |name| ==> ctx.LA(1) == Tok(WORD_PART, name[k])
      invariant k == |name| ==> ctx.cursor == end
      invariant s + Concat(name[k..]) == Concat(name)
      decreases |name| - k
    {
      PiecesStep(ctx.tokens, ctx.cursor, name[k..]);
      assert name[k..][0] == name[k] && name[k..][1..] == name[k + 1..];
      assert s + (name[k] + Concat(name[k + 1..])) == s + name[k] + Concat(name[k + 1..]);
      s := s + ctx.LA(1).text;
      ctx.Consume();
      k := k + 1;
      PiecesStep(ctx.tokens, ctx.cursor, name[k..]);
    }
    assert name[k..] == [] && s + "" == s;
  }

  // ---- Simple commands ----

  method SimpleCommand(ctx: NodeStream, sh: Shell, w: World, ghost words: seq<Word>, ghost locals: seq<Def>, ghost bang: bool, ghost n: nat)
    returns (o: Outcome)
    requires words != [] && WfWords(words) && WfDefs(locals)
    requires HoldsAll(ctx.tokens, ctx.cursor, AtomTrees(Simple(words, locals, bang))) && sh.On(ctx.tokens)
    requires var e := ctx.cursor + SizeAll(AtomTrees(Simple(words, locals, bang))); e < |ctx.tokens| && ctx.tokens[e] == Up
    requires ExecSimple(w, words, locals, bang, sh.Abs(), n).Some?
    modifies ctx, sh, sh.tab, sh.funs
    ensures sh.On(ctx.tokens) && sh.asts == old(sh.asts)
    ensures ExecSimple(w, words, locals, bang, old(sh.Abs()), n) == Some(Run(o, sh.Abs()))
    ensures o == Normal ==> ctx.cursor == old(ctx.cursor) + SizeAll(AtomTrees(Simple(words, locals, bang)))
    decreases n, 5
  {
    hide FunctionTable.Valid, Holds, HoldsAll, Size, SizeAll, Scan, AtomTrees, WordTree, WordTrees, DefTrees, WfWord,
         WfDefs, EvalWord, EvalArguments, ExecNamed, SplitsArguments;
    SimpleTokens(ctx.tokens, ctx.cursor, words, locals, bang);
    WordsStep(ctx.tokens, ctx.cursor, words);
    var name, quoted;
    o, name, quoted := StringExpr(ctx, sh, w, words[0], n);
    if o != Normal { return; }
    var args;
    o, args := Arguments(ctx, sh, w, SplitsArguments(name), words[1..], n);
    if o != Normal { return; }
    o := ExecuteCommand(ctx, sh, w, name, args, locals, bang, n);
  }

  method Arguments(ctx: NodeStream, sh: Shell, w: World, split: bool, ghost ws: seq<Word>, ghost n: nat)
    returns (o: Outcome, args: seq<string>)
    requires WfWords(ws) && HoldsAll(ctx.tokens, ctx.cursor, WordTrees(ws)) && sh.On(ctx.tokens)
    requires !KindAt(ctx.tokens, ctx.cursor + SizeAll(WordTrees(ws)), STRING)
    requires EvalArguments(w, ws, split, sh.Abs(), n).Some?
    modifies ctx, sh, sh.tab, sh.funs
    ensures sh.On(ctx.tokens) && sh.asts == old(sh.asts)
    ensures Gives(EvalArguments(w, ws, split, old(sh.Abs()), n), o, args, sh.Abs())
    ensures o == Normal ==> ctx.cursor == old(ctx.cursor) + SizeAll(WordTrees(ws))
    decreases n, 2, 0
  {
    hide FunctionTable.Valid, Holds, HoldsAll, Size, SizeAll, Scan, WordTree, WordTrees, WfWord, EvalWord, Ifs,
         ArgumentWords;
    o, args := Normal, [];
    ghost var k := 0;
    ghost var end := ctx.cursor + SizeAll(WordTrees(ws));
    assert ws[0..] == ws;
    WordsStep(ctx.tokens, ctx.cursor, ws);
    while ctx.Sees(STRING)
      invariant 0 <= k <= |ws| && sh.On(ctx.tokens) && sh.asts == old(sh.asts)
      invariant HoldsAll(ctx.tokens, ctx.cursor, WordTrees(ws[k..])) && ctx.cursor + SizeAll(WordTrees(ws[k..])) == end
      invariant ctx.Sees(STRING) <==> k < |ws|
      invariant k == |ws| ==> ctx.cursor == end
      invariant o == Normal && Continues(EvalArguments(w, ws, split, old(sh.Abs()), n), args, EvalArguments(w, ws[k..], split, sh.Abs(), n))
      decreases |ws| - k
    {
      WordsStep(ctx.tokens, ctx.cursor, ws[k..]);
      assert ws[k..][0] == ws[k] && ws[k..][1..] == ws[k + 1..];
      ghost var st := sh.Abs();
      var v, quoted;
      o, v, quoted := StringExpr(ctx, sh, w, ws[k], n);
      if o != Normal { return; }
      var more := ArgumentWords(w, v, quoted || !split, sh.tab.st);
      ContinuesNext(EvalArguments(w, ws, split, old(sh.Abs()), n), args, EvalArguments(w, ws[k..], split, st, n),
                    more, EvalArguments(w, ws[k + 1..], split, sh.Abs(), n));
      args := args + more;
      k := k + 1;
      WordsStep(ctx.tokens, ctx.cursor, ws[k..]);
    }
    assert ws[k..] == [] && args + [] == args;
  }

  method ExecuteCommand(ctx: NodeStream, sh: Shell, w: World, name: string, args: seq<string>, ghost locals: seq<Def>,
                        ghost bang: bool, ghost n: nat)
    returns (o: Outcome)
    requires WfDefs(locals) && HoldsAll(ctx.tokens, ctx.cursor, DefTrees(locals)) && sh.On(ctx.tokens)
    requires var b := ctx.cursor + SizeAll(DefTrees(locals)); !KindAt(ctx.tokens, b, EQUALS) && (KindAt(ctx.tokens, b, BANG) <==> bang)
    requires ExecNamed(w, name, args, locals, bang, sh.Abs(), n).Some?
    modifies ctx, sh, sh.tab, sh.funs
    ensures sh.On(ctx.tokens) && sh.asts == old(sh.asts)
    ensures ExecNamed(w, name, args, locals, bang, old(sh.Abs()), n) == Some(Run(o, sh.Abs()))
    ensures o == Normal ==> ctx.cursor == old(ctx.cursor) + SizeAll(DefTrees(locals)) + if bang then 1 else 0
    decreases n, 4
  {
    hide FunctionTable.Valid, Holds, HoldsAll, Size, SizeAll, Scan, DefTrees, WfDefs, ExecDefs, Dispatch, OwnScope;
    var scoped := OwnScope(name);
    if scoped { sh.tab.st := PushScope(sh.tab.st); }
    ghost var inside := sh.Abs();
    InScopeFacts(w, name, args, locals, bang, inside, n, n);
    o := RunInScope(ctx, sh, w, name, args, locals, bang, n);
    if scoped { sh.tab.st := PopScope(sh.tab.st); }
  }

  method RunInScope(ctx: NodeStream, sh: Shell, w: World, name: string, args: seq<string>, ghost locals: seq<Def>,
                    ghost bang: bool, ghost n: nat)
    returns (o: Outcome)
    requires WfDefs(locals) && HoldsAll(ctx.tokens, ctx.cursor, DefTrees(locals)) && sh.On(ctx.tokens)
    requires var b := ctx.cursor + SizeAll(DefTrees(locals)); !KindAt(ctx.tokens, b, EQUALS) && (KindAt(ctx.tokens, b, BANG) <==> bang)
    requires ExecInScope(w, name, args, locals, bang, sh.Abs(), n).Some?
    modifies ctx, sh, sh.tab, sh.funs
    ensures sh.On(ctx.tokens) && sh.asts == old(sh.asts)
    ensures ExecInScope(w, name, args, locals, bang, old(sh.Abs()), n) == Some(Run(o, sh.Abs()))
    ensures o == Normal ==> ctx.cursor == old(ctx.cursor) + SizeAll(DefTrees(locals)) + if bang then 1 else 0
    decreases n, 3
  {
    hide FunctionTable.Valid, Holds, HoldsAll, Size, SizeAll, Scan, DefTrees, WfDefs, ExecDefs, Dispatch;
    o := VarDefs(ctx, sh, w, true, locals, n);
    if o != Normal { return; }
    var index := ctx.cursor;
    o := RunNamed(sh, w, if name == "" then ":" else name, args, n);
    if o != Normal { return; }
    ctx.Seek(index);
    if ctx.Sees(BANG) {
      sh.SetStatus(if sh.status == 0 then 1 else 0);
      ctx.Consume();
    }
  }

  /** A function, a builtin, or an error. */
  method RunNamed(sh: Shell, w: World, name: string, args: seq<string>, ghost n: nat) returns (o: Outcome)
    requires sh.funs.Valid() && Dispatch(w, name, args, sh.Abs(), n).Some?
    modifies sh, sh.tab, sh.funs
    ensures sh.funs.Valid() && sh.asts == old(sh.asts)
    ensures Dispatch(w, name, args, old(sh.Abs()), n) == Some(Run(o, sh.Abs()))
    decreases n, 2, 0
  {
    hide Call, NestedScript, Builtin, Holds, CompoundTree, WfCompound;
    if name in sh.funs.entries {
      o := CallFunction(sh, w, name, args, n);
    } else if name in NestingBuiltins() {
      o := RunNestedScript(sh, w, name, args, n);
    } else {
      o := RunBuiltin(sh, name, args);
    }
  }

  /** interpreter::call: a new walker over the function's own AST, entered at the stored index. */
  method CallFunction(sh: Shell, w: World, name: string, args: seq<string>, ghost n: nat) returns (o: Outcome)
    requires sh.funs.Valid() && name in sh.funs.entries && Call(w, name, args, sh.Abs(), n).Some?
    modifies sh, sh.tab, sh.funs
    ensures sh.funs.Valid() && sh.asts == old(sh.asts)
    ensures Call(w, name, args, old(sh.Abs()), n) == Some(Run(o, sh.Abs()))
    decreases n, 1
  {
    hide Holds, Size, CompoundTree, WfCompound, ExecCompound, Positional, DefineLocal;
    var r := DefineLocal(sh.tab.st, "*", Var(Positional(args), false));
    if r.None? { return Fail; }
    sh.tab.st := r.value;
    var f := sh.funs.entries[name];
    ghost var body := sh.funs.bodies[name];
    var ctx := new NodeStream(f.ast);
    sh.asts := sh.asts + [f.ast];
    ctx.Seek(f.index);
    o := CompoundCommand(ctx, sh, w, body, n - 1);
    sh.asts := sh.asts[..|sh.asts| - 1];
    if o == Return { o := Normal; }
  }

  method RunNestedScript(sh: Shell, w: World, name: string, args: seq<string>, ghost n: nat) returns (o: Outcome)
    requires sh.funs.Valid() && name in NestingBuiltins() && NestedScript(w, name, args, sh.Abs(), n).Some?
    modifies sh, sh.tab, sh.funs
    ensures sh.funs.Valid() && sh.asts == old(sh.asts)
    ensures NestedScript(w, name, args, old(sh.Abs()), n) == Some(Run(o, sh.Abs()))
    decreases n, 1
  {
    hide FunctionTable.Valid, ExecList, Join, Concat;
    var parsed := if name == "eval" then w.script(Join(args, " ")) else w.locals(Concat(args));
    if parsed.None? { return Fail; }
    o := RunScript(sh, w, parsed.value, n - 1);
    if o == Normal && name == "local" { sh.SetStatus(0); }
  }

  method RunBuiltin(sh: Shell, name: string, args: seq<string>) returns (o: Outcome)
    requires sh.funs.Valid()
    modifies sh, sh.tab, sh.funs
    ensures sh.funs.Valid() && sh.asts == old(sh.asts)
    ensures Builtin(name, args, old(sh.Abs())) == Run(o, sh.Abs())
  {
    hide FunctionTable.Valid, Echo.Output, ToInt, ReturnBuiltin, ShiftBuiltin, SetBuiltin, LoopCount;
    o := Normal;
    if name in {":", "true"} {
      sh.SetStatus(0);
    } else if name == "false" {
      sh.SetStatus(1);
    } else if name == "echo" {
      var line := Echo.Collect(args);
      if line.None? { return Fail; }
      if sh.out < |sh.texts| { sh.texts := sh.texts[sh.out := sh.texts[sh.out] + line.value]; }
      sh.SetStatus(0);
    } else if name == "break" || name == "continue" {
      var k := LoopCount(args);
      o := if k.None? then Fail else if name == "break" then Break(k.value) else Continue(k.value);
    } else if name == "return" {
      o := RunReturn(sh, args);
    } else if name == "shift" {
      o := RunShift(sh, args);
    } else if name == "set" {
      o := RunSet(sh, args);
    } else {
      sh.SetStatus(1);
      o := Fail;
    }
  }

  method RunReturn(sh: Shell, args: seq<string>) returns (o: Outcome)
    requires sh.funs.Valid()
    modifies sh, sh.tab, sh.funs
    ensures sh.funs.Valid() && sh.asts == old(sh.asts)
    ensures ReturnBuiltin(args, old(sh.Abs())) == Run(o, sh.Abs())
  {
    if |args| > 1 { return Fail; }
    if args != [] {
      var k := ToInt(args[0]);
      if k.None? { return Fail; }
      sh.SetStatus(k.value);
    }
    o := Return;
  }

  method RunShift(sh: Shell, args: seq<string>) returns (o: Outcome)
    requires sh.funs.Valid()
    modifies sh, sh.tab, sh.funs
    ensures sh.funs.Valid() && sh.asts == old(sh.asts)
    ensures ShiftBuiltin(args, old(sh.Abs())) == Run(o, sh.Abs())
  {
    hide FunctionTable.Valid, ToInt, ShiftStar;
    if |args| > 1 { return Fail; }
    var k := if args == [] then Some(1) else ToInt(args[0]);
    if k.None? { return Fail; }
    var r := ShiftStar(sh.tab.st, k.value);
    if r.None? { return Fail; }
    sh.tab.st := r.value.1;
    sh.SetStatus(r.value.0);
    o := Normal;
  }

  method RunSet(sh: Shell, args: seq<string>) returns (o: Outcome)
    requires sh.funs.Valid()
    modifies sh, sh.tab, sh.funs
    ensures sh.funs.Valid() && sh.asts == old(sh.asts)
    ensures SetBuiltin(args, old(sh.Abs())) == Run(o, sh.Abs())
  {
    hide FunctionTable.Valid, SetPositional;
    if args == [] || !("--" <= args[0]) { return Fail; }
    sh.tab.st := SetPositional(sh.tab.st, args[1..]);
    sh.SetStatus(0);
    o := Normal;
  }

  /** `whole` is `before` followed by what `rest` yields. */
  ghost predicate Continues<T>(whole: Option<Got<seq<T>>>, before: seq<T>, rest: Option<Got<seq<T>>>) {
    && whole.Some? && rest.Some?
    && whole.value.out == rest.value.out && whole.value.st == rest.value.st
    && (rest.value.out == Normal ==> whole.value.v == before + rest.value.v)
  }

  lemma ContinuesNext<T>(whole: Option<Got<seq<T>>>, before: seq<T>, rest: Option<Got<seq<T>>>, more: seq<T>, next: Option<Got<seq<T>>>)
    requires Continues(whole, before, rest)
    requires next.Some? && rest.value == next.value.(v := more + next.value.v)
    ensures Continues(whole, before + more, next)
  {
    assert before + (more + next.value.v) == before + more + next.value.v;
  }

  // ---- Compound commands ----

  /** compound_command: the first token decides. */
  method CompoundCommand(ctx: NodeStream, sh: Shell, w: World, ghost c: Compound, ghost n: nat) returns (o: Outcome)
    requires WfCompound(c) && Holds(ctx.tokens, ctx.cursor, CompoundTree(c)) && sh.On(ctx.tokens)
    requires ExecCompound(w, c, sh.Abs(), n).Some?
    modifies ctx, sh, sh.tab, sh.funs
    ensures sh.On(ctx.tokens) && sh.asts == old(sh.asts)
    ensures ExecCompound(w, c, old(sh.Abs()), n) == Some(Run(o, sh.Abs()))
    ensures o == Normal ==> ctx.cursor == old(ctx.cursor) + Size(CompoundTree(c))
    decreases n, 6, c, 1
  {
    hide FunctionTable.Valid, Holds, Size, CompoundTree, WfCompound, ExecCompound;
    FormTokens(ctx.tokens, ctx.cursor, c);
    if ctx.Sees(CURRENT_SHELL) {
      o := CurrentShell(ctx, sh, w, c, n);
    } else if ctx.Sees(COMPOUND_COND) {
      o := CondExpr(ctx, sh, w, c, n);
    } else if ctx.Sees(ARITHMETIC_EXPRESSION) {
      o := ArithmeticCommand(ctx, sh, w, c, n);
    } else if ctx.Sees(FOR) {
      o := ForExpr(ctx, sh, w, c, n);
    } else if ctx.Sees(CFOR) {
      o := CForExpr(ctx, sh, w, c, n);
    } else if ctx.Sees(WHILE) || ctx.Sees(UNTIL) {
      o := WhileExpr(ctx, sh, w, c, n);
    } else if ctx.Sees(IF_STATEMENT) {
      o := IfExpr(ctx, sh, w, c, n);
    } else {
      o := CaseExpr(ctx, sh, w, c, n);
    }
  }

  lemma FormTokens(s: seq<Token>, c: nat, x: Compound)
    requires Holds(s, c, CompoundTree(x))
    ensures c < |s| && s[c].Tok? && s[c].kind in CompoundKinds()
    ensures x.Group? <==> s[c].kind == CURRENT_SHELL
    ensures x.Test? <==> s[c].kind == COMPOUND_COND
    ensures x.Arithmetic? <==> s[c].kind == ARITHMETIC_EXPRESSION
    ensures x.For? <==> s[c].kind == FOR
    ensures x.CFor? <==> s[c].kind == CFOR
    ensures x.While? <==> s[c].kind in {WHILE, UNTIL}
    ensures x.If? <==> s[c].kind == IF_STATEMENT
    ensures x.Case? <==> s[c].kind == CASE
  {
    hide Holds, Size, ListTree, CondTree, GroupTrees, WordTrees, WordTree, ClauseTrees, ArmTrees;
    Root(s, c, CompoundTree(x));
  }

  method CurrentShell(ctx: NodeStream, sh: Shell, w: World, ghost c: Compound, ghost n: nat) returns (o: Outcome)
    requires c.Group? && WfCompound(c) && Holds(ctx.tokens, ctx.cursor, CompoundTree(c)) && sh.On(ctx.tokens)
    requires ExecCompound(w, c, sh.Abs(), n).Some?
    modifies ctx, sh, sh.tab, sh.funs
    ensures sh.On(ctx.tokens) && sh.asts == old(sh.asts)
    ensures ExecCompound(w, c, old(sh.Abs()), n) == Some(Run(o, sh.Abs()))
    ensures o == Normal ==> ctx.cursor == old(ctx.cursor) + Size(CompoundTree(c))
    decreases n, 6, c, 0
  {
    hide FunctionTable.Valid, Holds, Size, Scan, CompoundTree, ListTree, WfList, ExecList;
    GroupTokens(ctx.tokens, ctx.cursor, c.body);
    ctx.Seek(ctx.cursor + 2);
    o := CommandList(ctx, sh, w, c.body, n);
    if o == Normal { ctx.Consume(); }
  }

  method ArithmeticCommand(ctx: NodeStream, sh: Shell, w: World, ghost c: Compound, ghost n: nat) returns (o: Outcome)
    requires c.Arithmetic? && WfCompound(c) && Holds(ctx.tokens, ctx.cursor, CompoundTree(c)) && sh.On(ctx.tokens)
    requires ExecCompound(w, c, sh.Abs(), n).Some?
    modifies ctx, sh, sh.tab, sh.funs
    ensures sh.On(ctx.tokens) && sh.asts == old(sh.asts)
    ensures ExecCompound(w, c, old(sh.Abs()), n) == Some(Run(o, sh.Abs()))
    ensures o == Normal ==> ctx.cursor == old(ctx.cursor) + Size(CompoundTree(c))
    decreases n, 6, c, 0
  {
    hide FunctionTable.Valid, Holds, HoldsAll, Size, SizeAll, Scan, CompoundTree, GroupTrees, WfGroup, EvalGroup;
    ArithmeticTokens(ctx.tokens, ctx.cursor, c.items);
    ctx.Seek(ctx.cursor + 2);
    GroupEnd(ctx.tokens, ctx.cursor, c.items);
    var ok, v := ArithmeticParts(ctx, sh.tab, w.arith, c.items, n);
    if !ok { return Fail; }
    o := Normal;
    ctx.Consume();
  }

  /** The status is 0 for true. */
  method CondExpr(ctx: NodeStream, sh: Shell, w: World, ghost c: Compound, ghost n: nat) returns (o: Outcome)
    requires c.Test? && WfCompound(c) && Holds(ctx.tokens, ctx.cursor, CompoundTree(c)) && sh.On(ctx.tokens)
    requires ExecCompound(w, c, sh.Abs(), n).Some?
    modifies ctx, sh, sh.tab, sh.funs
    ensures sh.On(ctx.tokens) && sh.asts == old(sh.asts)
    ensures ExecCompound(w, c, old(sh.Abs()), n) == Some(Run(o, sh.Abs()))
    ensures o == Normal ==> ctx.cursor == old(ctx.cursor) + Size(CompoundTree(c))
    decreases n, 6, c, 0
  {
    hide FunctionTable.Valid, Holds, Size, Scan, CompoundTree, CondTree, WfCond, EvalCond, ExecCompound;
    BranchMeaning(w, c, sh.Abs(), n);
    TestTokens(ctx.tokens, ctx.cursor, c.keyword, c.cond);
    ctx.Seek(ctx.cursor + 2);
    var keyword := ctx.Sees(KEYWORD_TEST);
    ctx.Seek(ctx.cursor + 2);
    var v;
    o, v := Condition(ctx, sh, w, keyword, c.cond, n);
    if o != Normal { return; }
    sh.SetStatus(if v then 0 else 1);
    ctx.Seek(ctx.cursor + 2);
  }

  /** keyword_condition jumps over a right operand that does not matter and out of its own node;
      builtin_condition evaluates both. */
  method Condition(ctx: NodeStream, sh: Shell, w: World, keyword: bool, ghost c: Cond, ghost n: nat)
    returns (o: Outcome, v: bool)
    requires WfCond(c) && Holds(ctx.tokens, ctx.cursor, CondTree(keyword, c)) && sh.On(ctx.tokens)
    requires EvalCond(w, keyword, c, sh.Abs(), n).Some?
    modifies ctx, sh, sh.tab, sh.funs
    ensures sh.On(ctx.tokens) && sh.asts == old(sh.asts)
    ensures Gives(EvalCond(w, keyword, c, old(sh.Abs()), n), o, v, sh.Abs())
    ensures o == Normal ==> ctx.cursor == old(ctx.cursor) + Size(CondTree(keyword, c))
    decreases n, 3, c, 1
  {
    hide FunctionTable.Valid, Holds, Size, Scan, CondTree, PrimTree, WfPrim, EvalPrim;
    CondTokens(ctx.tokens, ctx.cursor, keyword, c);
    v := false;
    if ctx.Sees(NEGATION) {
      ctx.Seek(ctx.cursor + 2);
      o, v := Condition(ctx, sh, w, keyword, c.c, n);
      if o != Normal { return; }
      v := !v;
      ctx.Consume();
    } else if ctx.Sees(LOGICOR) || ctx.Sees(LOGICAND) || ctx.Sees(BUILTIN_LOGIC_OR) || ctx.Sees(BUILTIN_LOGIC_AND) {
      o, v := LogicalCondition(ctx, sh, w, keyword, ctx.Sees(LOGICOR) || ctx.Sees(BUILTIN_LOGIC_OR), c, n);
    } else {
      o, v := CommonCondition(ctx, sh, w, keyword, c.p, n);
    }
  }

  method LogicalCondition(ctx: NodeStream, sh: Shell, w: World, keyword: bool, or: bool, ghost c: Cond, ghost n: nat)
    returns (o: Outcome, v: bool)
    requires (if or then c.Either? else c.Both?) && WfCond(c)
    requires Holds(ctx.tokens, ctx.cursor, CondTree(keyword, c)) && sh.On(ctx.tokens)
    requires EvalCond(w, keyword, c, sh.Abs(), n).Some?
    modifies ctx, sh, sh.tab, sh.funs
    ensures sh.On(ctx.tokens) && sh.asts == old(sh.asts)
    ensures Gives(EvalCond(w, keyword, c, old(sh.Abs()), n), o, v, sh.Abs())
    ensures o == Normal ==> ctx.cursor == old(ctx.cursor) + Size(CondTree(keyword, c))
    decreases n, 3, c, 0
  {
    hide FunctionTable.Valid, Holds, Size, Scan, CondTree, WfPrim, EvalPrim;
    CondTokens(ctx.tokens, ctx.cursor, keyword, c);
    CondTokens(ctx.tokens, ctx.cursor + 2 + Size(CondTree(keyword, c.l)), keyword, c.r);
    ctx.Seek(ctx.cursor + 2);
    v := false;
    var l, r;
    o, l := Condition(ctx, sh, w, keyword, c.l, n);
    if o != Normal { return; }
    if keyword && l == or {
      ctx.SeekToNextTree();
      ctx.Seek(ctx.cursor + 1);
      return Normal, or;
    }
    o, r := Condition(ctx, sh, w, keyword, c.r, n);
    if o != Normal { return; }
    v := if or then l || r else l && r;
    ctx.Consume();
  }

  method CommonCondition(ctx: NodeStream, sh: Shell, w: World, ghost keyword: bool, ghost p: Prim, ghost n: nat)
    returns (o: Outcome, v: bool)
    requires WfPrim(p) && Holds(ctx.tokens, ctx.cursor, PrimTree(keyword, p)) && sh.On(ctx.tokens)
    requires EvalPrim(w, p, sh.Abs(), n).Some?
    modifies ctx, sh, sh.tab, sh.funs
    ensures sh.On(ctx.tokens) && sh.asts == old(sh.asts)
    ensures Gives(EvalPrim(w, p, old(sh.Abs()), n), o, v, sh.Abs())
    ensures o == Normal ==> ctx.cursor == old(ctx.cursor) + Size(PrimTree(keyword, p))
    decreases n, 2, 1
  {
    hide FunctionTable.Valid, Holds, Size, Scan, PrimTree, WordTree, WfWord, EvalWord, EvalCompare, CompareRoot;
    PrimIsWord(keyword, p);
    PrimTokens(ctx.tokens, ctx.cursor, keyword, p);
    v := false;
    var s, quoted;
    if ctx.Sees(STRING) {
      CompareRoots(keyword, p);
      o, s, quoted := StringExpr(ctx, sh, w, p.w, n);
      v := s != "";
    } else if ctx.Sees(LETTER) {
      CompareRoots(keyword, p);
      var negated := ctx.LA(1).text == "n";
      ctx.Seek(ctx.cursor + 2);
      o, s, quoted := StringExpr(ctx, sh, w, p.w, n);
      if o != Normal { return; }
      v := (s == "") != negated;
      ctx.Consume();
    } else {
      CompareRoots(keyword, p);
      o, v := Comparison(ctx, sh, w, OpOfRoot(ctx.LA(1).kind, ctx.LA(1).text), keyword, p, n);
    }
  }

  lemma PrimIsWord(keyword: bool, p: Prim)
    ensures p.NonEmpty? ==> PrimTree(keyword, p) == WordTree(p.w)
    ensures WfPrim(p) && !p.Compare? ==> WfWord(p.w)
    ensures WfPrim(p) && p.Compare? ==> WfWord(p.l) && WfWord(p.r)
  {
  }

  /** The comparison that a root token stands for. */
  function OpOfRoot(k: Kind, text: string): CompareOp {
    if k == EQUALS then Same
    else if k == NOT_EQUALS then Differs
    else if k == LESS_THAN || k == ESC_LT then Before
    else if k == GREATER_THAN || k == ESC_GT then After
    else if text == "eq" then NumEq
    else if text == "ne" then NumNe
    else if text == "lt" then NumLt
    else if text == "le" then NumLe
    else if text == "gt" then NumGt
    else NumGe
  }

  lemma CompareRoots(keyword: bool, p: Prim)
    ensures p.Compare? ==>
      var root := CompareRoot(keyword, p.op); root.0 != STRING && root.0 != LETTER && OpOfRoot(root.0, root.1) == p.op
  {
  }

  method Comparison(ctx: NodeStream, sh: Shell, w: World, op: CompareOp, ghost keyword: bool, ghost p: Prim, ghost n: nat)
    returns (o: Outcome, v: bool)
    requires p.Compare? && p.op == op && WfWord(p.l) && WfWord(p.r)
    requires Holds(ctx.tokens, ctx.cursor, PrimTree(keyword, p)) && sh.On(ctx.tokens)
    requires EvalCompare(w, op, p.l, p.r, sh.Abs(), n).Some?
    modifies ctx, sh, sh.tab, sh.funs
    ensures sh.On(ctx.tokens) && sh.asts == old(sh.asts)
    ensures Gives(EvalCompare(w, op, p.l, p.r, old(sh.Abs()), n), o, v, sh.Abs())
    ensures o == Normal ==> ctx.cursor == old(ctx.cursor) + Size(PrimTree(keyword, p))
    decreases n, 2, 0
  {
    hide FunctionTable.Valid, Holds, Size, Scan, PrimTree, WordTree, WfWord, EvalWord, CompareRoot, EvalText, Less;
    PrimTokens(ctx.tokens, ctx.cursor, keyword, p);
    v := false;
    ctx.Seek(ctx.cursor + 2);
    var l, r, quoted;
    o, l, quoted := StringExpr(ctx, sh, w, p.l, n);
    if o != Normal { return; }
    o, r, quoted := StringExpr(ctx, sh, w, p.r, n);
    if o != Normal { return; }
    if Numeric(op) {
      var ok, x, y;
      ok, x := EvalArithmetic(sh.tab, w.arith, l, n);
      if !ok { o := Fail; return; }
      ok, y := EvalArithmetic(sh.tab, w.arith, r, n);
      if !ok { o := Fail; return; }
      v := CompareNumbers(op, x, y);
    } else {
      v := CompareTexts(op, l, r);
    }
    ctx.Consume();
  }

  // ---- Loops ----

  /** rethrow_unless_correct_frame: a count other than 1 is decremented and the signal thrown on. */
  method RethrowUnlessCorrectFrame(e: Outcome) returns (caught: bool, rethrown: Outcome)
    requires e.Break? || e.Continue?
    ensures caught <==> e.count == 1
    ensures !caught ==> rethrown == (if e.Break? then Break(e.count - 1) else Continue(e.count - 1))
  {
    caught := e.count == 1;
    rethrown := if e.Break? then Break(e.count - 1) else Continue(e.count - 1);
  }

  /** while_expr: every exit of the loop leaves the cursor on the body's first token, so that the
      fixed skips behind the loop leave its tree exactly once. */
  method WhileExpr(ctx: NodeStream, sh: Shell, w: World, ghost c: Compound, ghost n: nat) returns (o: Outcome)
    requires c.While? && WfCompound(c) && Holds(ctx.tokens, ctx.cursor, CompoundTree(c)) && sh.On(ctx.tokens)
    requires ExecCompound(w, c, sh.Abs(), n).Some?
    modifies ctx, sh, sh.tab, sh.funs
    ensures sh.On(ctx.tokens) && sh.asts == old(sh.asts)
    ensures ExecCompound(w, c, old(sh.Abs()), n) == Some(Run(o, sh.Abs()))
    ensures o == Normal ==> ctx.cursor == old(ctx.cursor) + Size(CompoundTree(c))
    decreases n, 6, c, 0
  {
    hide FunctionTable.Valid, Holds, Size, Scan, CompoundTree, ListTree, WfList, WfCompound, WhileLoop, ExecCompound;
    WfListFacts(c);
    LoopMeaning(w, c, sh.Abs(), n);
    WhileTokens(ctx.tokens, ctx.cursor, c.until, c.guard, c.body);
    var negate := ctx.Sees(UNTIL);
    ctx.Seek(ctx.cursor + 2);
    o := WhileBody(ctx, sh, w, negate, c.guard, c.body, n);
    if o != Normal { return; }
    ctx.SeekToNextTree();
    ctx.Seek(ctx.cursor + 1);
  }

  /** The loop proper; it ends with the cursor right behind the condition, on the body. */
  method WhileBody(ctx: NodeStream, sh: Shell, w: World, negate: bool, ghost guard: seq<Logic>, ghost body: seq<Logic>, ghost n: nat)
    returns (o: Outcome)
    requires WfList(guard) && WfList(body) && sh.On(ctx.tokens)
    requires Holds(ctx.tokens, ctx.cursor, ListTree(guard))
    requires Holds(ctx.tokens, ctx.cursor + Size(ListTree(guard)), ListTree(body))
    requires WhileLoop(w, negate, guard, body, sh.Abs(), n).Some?
    modifies ctx, sh, sh.tab, sh.funs
    ensures sh.On(ctx.tokens) && sh.asts == old(sh.asts)
    ensures WhileLoop(w, negate, guard, body, old(sh.Abs()), n) == Some(Run(o, sh.Abs()))
    ensures o == Normal ==> ctx.cursor == old(ctx.cursor) + Size(ListTree(guard))
    decreases n, 5
  {
    hide FunctionTable.Valid, Holds, Size, ListTree, WfList, ExecList;
    var conditionIndex := ctx.cursor;
    ghost var f: nat := n;
    ghost var result := WhileLoop(w, negate, guard, body, sh.Abs(), n);
    while true
      invariant ctx.cursor == conditionIndex && sh.On(ctx.tokens) && sh.asts == old(sh.asts)
      invariant f <= n && WhileLoop(w, negate, guard, body, sh.Abs(), f) == result
      decreases f
    {
      o := CommandList(ctx, sh, w, guard, f - 1);
      if o != Normal { return; }
      if sh.status == (if negate then 0 else 1) { return; }
      var commandIndex := ctx.cursor;
      o := CommandList(ctx, sh, w, body, f - 1);
      if o.Continue? || o.Break? {
        var isBreak := o.Break?;
        var caught, rethrown := RethrowUnlessCorrectFrame(o);
        if !caught { return rethrown; }
        if isBreak {
          ctx.Seek(commandIndex);
          return Normal;
        }
      } else if o != Normal {
        return;
      }
      ctx.Seek(conditionIndex);
      f := f - 1;
    }
  }

  lemma WfListFacts(c: Compound)
    requires WfCompound(c)
    ensures c.While? ==> WfList(c.guard) && WfList(c.body) && c.guard != [] && c.body != []
    ensures c.For? ==> WfWords(c.words) && WfList(c.body) && c.body != []
    ensures c.CFor? ==> WfList(c.body) && c.body != [] && WfGroup(c.init) && WfGroup(c.test) && WfGroup(c.step)
    ensures c.If? ==> c.clauses != [] && WfClauses(c.clauses) && (c.otherwise != [] ==> WfList(c.otherwise))
    ensures c.Case? ==> WfWord(c.word) && WfArms(c.arms)
  {
  }

  /** for_expr over a word list or the positional parameters. */
  method ForExpr(ctx: NodeStream, sh: Shell, w: World, ghost c: Compound, ghost n: nat) returns (o: Outcome)
    requires c.For? && WfCompound(c) && Holds(ctx.tokens, ctx.cursor, CompoundTree(c)) && sh.On(ctx.tokens)
    requires ExecCompound(w, c, sh.Abs(), n).Some?
    modifies ctx, sh, sh.tab, sh.funs
    ensures sh.On(ctx.tokens) && sh.asts == old(sh.asts)
    ensures ExecCompound(w, c, old(sh.Abs()), n) == Some(Run(o, sh.Abs()))
    ensures o == Normal ==> ctx.cursor == old(ctx.cursor) + Size(CompoundTree(c))
    decreases n, 6, c, 0
  {
    hide FunctionTable.Valid, Holds, HoldsAll, Size, SizeAll, Scan, CompoundTree, ListTree, WordTrees, WfList,
         WfWords, WfCompound, EvalForWords, ForLoop, StarValues, ExecCompound;
    WfListFacts(c);
    LoopMeaning(w, c, sh.Abs(), n);
    ForTokens(ctx.tokens, ctx.cursor, c.name, c.words, c.body);
    ctx.Seek(ctx.cursor + 2);
    var name := ctx.LA(1).text;
    ctx.Consume();
    var inArray, values;
    o, inArray, values := ForValues(ctx, sh, w, c.words, n);
    if o != Normal { return; }
    if values == [] && inArray {
      ctx.SeekToNextTree();
      sh.SetStatus(0);
    } else {
      if !inArray { values := Parameters(sh); }
      o := ForBody(ctx, sh, w, name, values, c.body, n);
      if o != Normal { return; }
      ctx.SeekToNextTree();
    }
    ctx.Consume();
  }

  /** resolve_array of `*`. */
  method Parameters(sh: Shell) returns (values: seq<string>)
    ensures values == StarValues(sh.Abs())
  {
    var v := Resolve(sh.tab.st, "*");
    values := if v.Some? then AllValues(v.value.values) else [];
  }

  method ForValues(ctx: NodeStream, sh: Shell, w: World, ghost ws: seq<Word>, ghost n: nat)
    returns (o: Outcome, inArray: bool, values: seq<string>)
    requires WfWords(ws) && HoldsAll(ctx.tokens, ctx.cursor, WordTrees(ws)) && sh.On(ctx.tokens)
    requires !KindAt(ctx.tokens, ctx.cursor + SizeAll(WordTrees(ws)), STRING)
    requires ws != [] ==> EvalForWords(w, ws, sh.Abs(), n).Some?
    modifies ctx, sh, sh.tab, sh.funs
    ensures sh.On(ctx.tokens) && sh.asts == old(sh.asts)
    ensures inArray <==> ws != []
    ensures ws != [] ==> Gives(EvalForWords(w, ws, old(sh.Abs()), n), o, values, sh.Abs())
    ensures ws == [] ==> o == Normal && values == [] && sh.Abs() == old(sh.Abs())
    ensures o == Normal ==> ctx.cursor == old(ctx.cursor) + SizeAll(WordTrees(ws))
    decreases n, 2, 0
  {
    hide FunctionTable.Valid, Holds, HoldsAll, Size, SizeAll, Scan, WordTree, WordTrees, WfWord, EvalWord, Ifs,
         ForWords;
    o, inArray, values := Normal, false, [];
    ghost var k := 0;
    ghost var end := ctx.cursor + SizeAll(WordTrees(ws));
    assert ws[0..] == ws;
    WordsStep(ctx.tokens, ctx.cursor, ws);
    while ctx.Sees(STRING)
      invariant 0 <= k <= |ws| && sh.On(ctx.tokens) && sh.asts == old(sh.asts)
      invariant HoldsAll(ctx.tokens, ctx.cursor, WordTrees(ws[k..])) && ctx.cursor + SizeAll(WordTrees(ws[k..])) == end
      invariant ctx.Sees(STRING) <==> k < |ws|
      invariant k == |ws| ==> ctx.cursor == end
      invariant inArray <==> k > 0
      invariant k == 0 ==> sh.Abs() == old(sh.Abs()) && values == []
      invariant o == Normal
      invariant ws != [] ==> Continues(EvalForWords(w, ws, old(sh.Abs()), n), values, EvalForWords(w, ws[k..], sh.Abs(), n))
      decreases |ws| - k
    {
      WordsStep(ctx.tokens, ctx.cursor, ws[k..]);
      assert ws[k..][0] == ws[k] && ws[k..][1..] == ws[k + 1..];
      ghost var st := sh.Abs();
      var v, quoted;
      inArray := true;
      o, v, quoted := StringExpr(ctx, sh, w, ws[k], n);
      if o != Normal { return; }
      var more := ForWords(w, v, quoted, sh.tab.st);
      ContinuesNext(EvalForWords(w, ws, old(sh.Abs()), n), values, EvalForWords(w, ws[k..], st, n),
                    more, EvalForWords(w, ws[k + 1..], sh.Abs(), n));
      values := values + more;
      k := k + 1;
      WordsStep(ctx.tokens, ctx.cursor, ws[k..]);
    }
    assert ws[k..] == [] && values + [] == values;
  }

  /** The loop proper; it ends with the cursor back on the body. */
  method ForBody(ctx: NodeStream, sh: Shell, w: World, name: string, values: seq<string>, ghost body: seq<Logic>, ghost n: nat)
    returns (o: Outcome)
    requires WfList(body) && Holds(ctx.tokens, ctx.cursor, ListTree(body)) && sh.On(ctx.tokens)
    requires ForLoop(w, name, values, body, sh.Abs(), n).Some?
    modifies ctx, sh, sh.tab, sh.funs
    ensures sh.On(ctx.tokens) && sh.asts == old(sh.asts)
    ensures ForLoop(w, name, values, body, old(sh.Abs()), n) == Some(Run(o, sh.Abs()))
    ensures o == Normal ==> ctx.cursor == old(ctx.cursor)
    decreases n, 6, body, 2
  {
    hide FunctionTable.Valid, Holds, Size, ListTree, WfList, ExecList, SetValue;
    var commandsIndex := ctx.cursor;
    ghost var f: nat := n;
    ghost var result := ForLoop(w, name, values, body, sh.Abs(), n);
    var i := 0;
    assert values[0..] == values;
    while i < |values|
      invariant i <= |values| && ctx.cursor == commandsIndex && sh.On(ctx.tokens) && sh.asts == old(sh.asts)
      invariant f <= n && ForLoop(w, name, values[i..], body, sh.Abs(), f) == result
      decreases f
    {
      assert values[i..][0] == values[i] && values[i..][1..] == values[i + 1..];
      var r := SetValue(sh.tab.st, name, Str(values[i]), 0);
      if r.None? { return Fail; }
      sh.tab.st := r.value;
      o := CommandList(ctx, sh, w, body, f - 1);
      if o.Continue? || o.Break? {
        var isBreak := o.Break?;
        var caught, rethrown := RethrowUnlessCorrectFrame(o);
        if !caught { return rethrown; }
        if isBreak {
          ctx.Seek(commandsIndex);
          return Normal;
        }
      } else if o != Normal {
        return;
      }
      ctx.Seek(commandsIndex);
      i := i + 1;
      f := f - 1;
    }
    assert values[i..] == [];
    o := Normal;
  }

  /** A FOR_INIT, FOR_COND or FOR_MOD node: its expression. */
  method ForExpression(ctx: NodeStream, sh: Shell, w: World, ghost items: seq<Arith>, ghost k: Kind, ghost n: nat)
    returns (ok: bool, v: int)
    requires items != [] && WfGroup(items) && OptionalAt(ctx.tokens, ctx.cursor, k, items)
    requires EvalGroup(w.arith, items, sh.tab.st, n).Some?
    modifies ctx, sh.tab
    ensures EvalGroup(w.arith, items, old(sh.tab.st), n) == Some(Result(ok, v, sh.tab.st))
    ensures ok ==> ctx.cursor == old(ctx.cursor) + OptionalSize(items)
  {
    hide FunctionTable.Valid, HoldsAll, SizeAll, Scan, GroupTrees, WfGroup, EvalGroup;
    ctx.Seek(ctx.cursor + 2);
    GroupEnd(ctx.tokens, ctx.cursor, items);
    ok, v := ArithmeticParts(ctx, sh.tab, w.arith, items, n);
    if ok { ctx.Consume(); }
  }

  /** The initialization or the modification, when there is one. */
  method OptionalExpression(ctx: NodeStream, sh: Shell, w: World, ghost items: seq<Arith>, k: Kind, ghost n: nat)
    returns (o: Outcome)
    requires WfGroup(items) && OptionalAt(ctx.tokens, ctx.cursor, k, items) && sh.On(ctx.tokens)
    requires ExecExpression(w, items, sh.Abs(), n).Some?
    modifies ctx, sh.tab
    ensures sh.On(ctx.tokens)
    ensures ExecExpression(w, items, old(sh.Abs()), n) == Some(Run(o, sh.Abs()))
    ensures o == Normal ==> ctx.cursor == old(ctx.cursor) + OptionalSize(items)
  {
    hide FunctionTable.Valid, OptionalAt, OptionalSize, WfGroup, EvalGroup;
    OptionalSees(ctx.tokens, ctx.cursor, k, items);
    o := Normal;
    if ctx.Sees(k) {
      var ok, v := ForExpression(ctx, sh, w, items, k, n);
      if !ok { o := Fail; }
    } else {
      NoExpression(w, sh.Abs(), n);
    }
  }

  /** for_expr in C style: finds condition, body and modification by skipping, then jumps between them. */
  method CForExpr(ctx: NodeStream, sh: Shell, w: World, ghost c: Compound, ghost n: nat) returns (o: Outcome)
    requires c.CFor? && WfCompound(c) && Holds(ctx.tokens, ctx.cursor, CompoundTree(c)) && sh.On(ctx.tokens)
    requires ExecCompound(w, c, sh.Abs(), n).Some?
    modifies ctx, sh, sh.tab, sh.funs
    ensures sh.On(ctx.tokens) && sh.asts == old(sh.asts)
    ensures ExecCompound(w, c, old(sh.Abs()), n) == Some(Run(o, sh.Abs()))
    ensures o == Normal ==> ctx.cursor == old(ctx.cursor) + Size(CompoundTree(c))
    decreases n, 6, c, 0
  {
    hide FunctionTable.Valid, Holds, Size, Scan, CompoundTree, ListTree, WfList, WfGroup, WfCompound, CForLoop,
         EvalGroup, OptionalAt, OptionalSize, ExecCompound;
    WfListFacts(c);
    LoopMeaning(w, c, sh.Abs(), n);
    CForTokens(ctx.tokens, ctx.cursor, c.init, c.test, c.body, c.step);
    ctx.Seek(ctx.cursor + 1);
    ctx.Seek(ctx.cursor + 1);
    o := OptionalExpression(ctx, sh, w, c.init, FOR_INIT, n);
    if o != Normal { return; }
    o := CForParts(ctx, sh, w, c.test, c.body, c.step, n);
    if o != Normal { return; }
    ctx.Seek(ctx.cursor + 1);
  }

  /** Condition, body and modification are found by skipping; behind the loop the body and the
      modification are skipped again. */
  method CForParts(ctx: NodeStream, sh: Shell, w: World, ghost test: seq<Arith>, ghost body: seq<Logic>,
                   ghost step: seq<Arith>, ghost n: nat)
    returns (o: Outcome)
    requires WfList(body) && WfGroup(test) && WfGroup(step) && sh.On(ctx.tokens)
    requires OptionalAt(ctx.tokens, ctx.cursor, FOR_COND, test)
    requires Holds(ctx.tokens, ctx.cursor + OptionalSize(test), ListTree(body))
    requires var b := ctx.cursor + OptionalSize(test); Scan(ctx.tokens, b + 3, 1) == Some(b + Size(ListTree(body)))
    requires OptionalAt(ctx.tokens, ctx.cursor + OptionalSize(test) + Size(ListTree(body)), FOR_MOD, step)
    requires CForLoop(w, test, body, step, sh.Abs(), n).Some?
    modifies ctx, sh, sh.tab, sh.funs
    ensures sh.On(ctx.tokens) && sh.asts == old(sh.asts)
    ensures CForLoop(w, test, body, step, old(sh.Abs()), n) == Some(Run(o, sh.Abs()))
    ensures o == Normal ==>
      ctx.cursor == old(ctx.cursor) + OptionalSize(test) + Size(ListTree(body)) + OptionalSize(step)
    decreases n, 6, body, 3
  {
    hide FunctionTable.Valid, Holds, Size, Scan, ListTree, WfList, WfGroup, CForLoop, EvalGroup, OptionalAt,
         OptionalSize;
    var conditionIndex := ctx.cursor;
    OptionalSees(ctx.tokens, ctx.cursor, FOR_COND, test);
    var hasCondition := ctx.Sees(FOR_COND);
    if hasCondition { ctx.SeekToNextTree(); }
    ctx.SeekToNextTree();
    OptionalSees(ctx.tokens, ctx.cursor, FOR_MOD, step);
    var hasModification := ctx.Sees(FOR_MOD);
    var modificationIndex := ctx.cursor;
    ctx.Seek(conditionIndex);
    o := CForBody(ctx, sh, w, hasCondition, hasModification, modificationIndex, test, body, step, n);
    if o != Normal { return; }
    ctx.SeekToNextTree();
    if ctx.Sees(FOR_MOD) { ctx.SeekToNextTree(); }
  }

  lemma OptionalSees(s: seq<Token>, c: nat, k: Kind, items: seq<Arith>)
    requires OptionalAt(s, c, k, items)
    ensures KindAt(s, c, k) <==> items != []
    ensures items == [] ==> OptionalSize(items) == 0
    ensures items != [] ==> Scan(s, c + 3, 1) == Some(c + OptionalSize(items))
  {
  }

  lemma NoExpression(w: World, st: State, n: nat)
    ensures EvalGroup(w.arith, [], st.vars, n) == Some(Val(0, st.vars))
    ensures ExecExpression(w, [], st, n) == Some(Run(Normal, st))
  {
  }

  /** The loop proper; it ends with the cursor right behind the condition, on the body. */
  method CForBody(ctx: NodeStream, sh: Shell, w: World, hasCondition: bool, hasModification: bool, modificationIndex: nat,
                  ghost test: seq<Arith>, ghost body: seq<Logic>, ghost step: seq<Arith>, ghost n: nat) returns (o: Outcome)
    requires WfList(body) && WfGroup(test) && WfGroup(step) && sh.On(ctx.tokens)
    requires hasCondition == (test != []) && hasModification == (step != [])
    requires OptionalAt(ctx.tokens, ctx.cursor, FOR_COND, test)
    requires Holds(ctx.tokens, ctx.cursor + OptionalSize(test), ListTree(body))
    requires modificationIndex == ctx.cursor + OptionalSize(test) + Size(ListTree(body))
    requires OptionalAt(ctx.tokens, modificationIndex, FOR_MOD, step)
    requires CForLoop(w, test, body, step, sh.Abs(), n).Some?
    modifies ctx, sh, sh.tab, sh.funs
    ensures sh.On(ctx.tokens) && sh.asts == old(sh.asts)
    ensures CForLoop(w, test, body, step, old(sh.Abs()), n) == Some(Run(o, sh.Abs()))
    ensures o == Normal ==> ctx.cursor == old(ctx.cursor) + OptionalSize(test)
    decreases n, 6, body, 2
  {
    hide FunctionTable.Valid, Holds, Size, Scan, ListTree, WfList, WfGroup, ExecList, EvalGroup, OptionalAt,
         OptionalSize;
    var conditionIndex := ctx.cursor;
    OptionalSees(ctx.tokens, conditionIndex, FOR_COND, test);
    ghost var f: nat := n;
    ghost var result := CForLoop(w, test, body, step, sh.Abs(), n);
    while true
      invariant ctx.cursor == conditionIndex && sh.On(ctx.tokens) && sh.asts == old(sh.asts)
      invariant f <= n && CForLoop(w, test, body, step, sh.Abs(), f) == result
      decreases f
    {
      if hasCondition {
        var ok, v := ForExpression(ctx, sh, w, test, FOR_COND, f - 1);
        if !ok { return Fail; }
        if v == 0 { return Normal; }
      } else {
        NoExpression(w, sh.Abs(), f - 1);
      }
      var commandIndex := ctx.cursor;
      o := CommandList(ctx, sh, w, body, f - 1);
      if o.Continue? || o.Break? {
        var isBreak := o.Break?;
        var caught, rethrown := RethrowUnlessCorrectFrame(o);
        if !caught { return rethrown; }
        if isBreak {
          ctx.Seek(commandIndex);
          return Normal;
        }
        ctx.Seek(modificationIndex);
      } else if o != Normal {
        return;
      }
      if hasModification {
        o := OptionalExpression(ctx, sh, w, step, FOR_MOD, f - 1);
        if o != Normal { return; }
      } else {
        NoExpression(w, sh.Abs(), f - 1);
      }
      ctx.Seek(conditionIndex);
      f := f - 1;
    }
  }

  // ---- if and case ----

  /** if_expr: IF nodes are tried until one matches, the others are skipped as trees. */
  method IfExpr(ctx: NodeStream, sh: Shell, w: World, ghost c: Compound, ghost n: nat) returns (o: Outcome)
    requires c.If? && WfCompound(c) && Holds(ctx.tokens, ctx.cursor, CompoundTree(c)) && sh.On(ctx.tokens)
    requires ExecCompound(w, c, sh.Abs(), n).Some?
    modifies ctx, sh, sh.tab, sh.funs
    ensures sh.On(ctx.tokens) && sh.asts == old(sh.asts)
    ensures ExecCompound(w, c, old(sh.Abs()), n) == Some(Run(o, sh.Abs()))
    ensures o == Normal ==> ctx.cursor == old(ctx.cursor) + Size(CompoundTree(c))
    decreases n, 6, c, 0
  {
    hide FunctionTable.Valid, Holds, HoldsAll, Size, SizeAll, Scan, CompoundTree, ListTree, ClauseTrees, WfList,
         WfClauses, WfCompound, ExecList, ExecClauses, ExecCompound;
    WfListFacts(c);
    BranchMeaning(w, c, sh.Abs(), n);
    IfTokens(ctx.tokens, ctx.cursor, c.clauses, c.otherwise);
    ctx.Seek(ctx.cursor + 2);
    var matched;
    o, matched := IfClauses(ctx, sh, w, c.clauses, n);
    if o != Normal { return; }
    if ctx.Sees(ELSE) {
      if !matched {
        ctx.Seek(ctx.cursor + 2);
        o := CommandList(ctx, sh, w, c.otherwise, n);
        if o != Normal { return; }
        ctx.Seek(ctx.cursor + 1);
      } else {
        ctx.SeekToNextTree();
      }
    } else {
      EmptyList(w, sh.Abs(), n);
    }
    ctx.Seek(ctx.cursor + 1);
  }

  lemma EmptyList(w: World, st: State, n: nat)
    ensures ExecList(w, [], st, n) == Some(Run(Normal, st))
  {
  }

  method IfClauses(ctx: NodeStream, sh: Shell, w: World, ghost cs: seq<Clause>, ghost n: nat)
    returns (o: Outcome, matched: bool)
    requires WfClauses(cs) && HoldsAll(ctx.tokens, ctx.cursor, ClauseTrees(cs)) && sh.On(ctx.tokens)
    requires !KindAt(ctx.tokens, ctx.cursor + SizeAll(ClauseTrees(cs)), IF)
    requires ExecClauses(w, cs, sh.Abs(), n).Some?
    modifies ctx, sh, sh.tab, sh.funs
    ensures sh.On(ctx.tokens) && sh.asts == old(sh.asts)
    ensures Gives(ExecClauses(w, cs, old(sh.Abs()), n), o, matched, sh.Abs())
    ensures o == Normal ==> ctx.cursor == old(ctx.cursor) + SizeAll(ClauseTrees(cs))
    decreases n, 6, cs, 0
  {
    hide FunctionTable.Valid, Holds, HoldsAll, Size, SizeAll, Scan, ListTree, ClauseTrees, WfList, WfClauses,
         ExecClause;
    o, matched := Normal, false;
    ghost var k := 0;
    ghost var end := ctx.cursor + SizeAll(ClauseTrees(cs));
    ghost var result := ExecClauses(w, cs, sh.Abs(), n);
    assert cs[0..] == cs;
    ClausesStep(ctx.tokens, ctx.cursor, cs);
    while ctx.Sees(IF)
      invariant 0 <= k <= |cs| && WfClauses(cs[k..]) && sh.On(ctx.tokens) && sh.asts == old(sh.asts)
      invariant HoldsAll(ctx.tokens, ctx.cursor, ClauseTrees(cs[k..])) && ctx.cursor + SizeAll(ClauseTrees(cs[k..])) == end
      invariant ctx.Sees(IF) <==> k < |cs|
      invariant k == |cs| ==> ctx.cursor == end
      invariant o == Normal
      invariant if matched then Gives(result, Normal, true, sh.Abs()) else ExecClauses(w, cs[k..], sh.Abs(), n) == result
      decreases |cs| - k
    {
      ClausesStep(ctx.tokens, ctx.cursor, cs[k..]);
      assert cs[k..][0] == cs[k] && cs[k..][1..] == cs[k + 1..];
      if matched {
        ctx.SeekToNextTree();
      } else {
        o, matched := ElifExpr(ctx, sh, w, cs[k], n);
        if o != Normal { return; }
      }
      k := k + 1;
      ClausesStep(ctx.tokens, ctx.cursor, cs[k..]);
    }
    assert cs[k..] == [];
  }

  /** elif_expr: one IF node. */
  method ElifExpr(ctx: NodeStream, sh: Shell, w: World, ghost c: Clause, ghost n: nat)
    returns (o: Outcome, matched: bool)
    requires WfList(c.cond) && WfList(c.body) && sh.On(ctx.tokens)
    requires Holds(ctx.tokens, ctx.cursor + 2, ListTree(c.cond))
    requires Holds(ctx.tokens, ctx.cursor + 2 + Size(ListTree(c.cond)), ListTree(c.body))
    requires ExecClause(w, c, sh.Abs(), n).Some?
    modifies ctx, sh, sh.tab, sh.funs
    ensures sh.On(ctx.tokens) && sh.asts == old(sh.asts)
    ensures Gives(ExecClause(w, c, old(sh.Abs()), n), o, matched, sh.Abs())
    ensures o == Normal ==> ctx.cursor == old(ctx.cursor) + 3 + Size(ListTree(c.cond)) + Size(ListTree(c.body))
    decreases n, 6, c, 0
  {
    hide FunctionTable.Valid, Holds, Size, Scan, ListTree, WfLogics, ExecList;
    ListSkip(ctx.tokens, ctx.cursor + 2 + Size(ListTree(c.cond)), c.body);
    matched := false;
    ctx.Seek(ctx.cursor + 2);
    o := CommandList(ctx, sh, w, c.cond, n);
    if o != Normal { return; }
    if sh.status == 0 {
      matched := true;
      o := CommandList(ctx, sh, w, c.body, n);
      if o != Normal { return; }
    } else {
      ctx.SeekToNextTree();
    }
    ctx.Seek(ctx.cursor + 1);
  }

  /** case_expr: arms are tried in order; behind the one that matches all others are skipped. */
  method CaseExpr(ctx: NodeStream, sh: Shell, w: World, ghost c: Compound, ghost n: nat) returns (o: Outcome)
    requires c.Case? && WfCompound(c) && Holds(ctx.tokens, ctx.cursor, CompoundTree(c)) && sh.On(ctx.tokens)
    requires ExecCompound(w, c, sh.Abs(), n).Some?
    modifies ctx, sh, sh.tab, sh.funs
    ensures sh.On(ctx.tokens) && sh.asts == old(sh.asts)
    ensures ExecCompound(w, c, old(sh.Abs()), n) == Some(Run(o, sh.Abs()))
    ensures o == Normal ==> ctx.cursor == old(ctx.cursor) + Size(CompoundTree(c))
    decreases n, 6, c, 0
  {
    hide FunctionTable.Valid, Holds, HoldsAll, Size, SizeAll, Scan, CompoundTree, WordTree, ArmTrees, WfWord, WfArms,
         WfCompound, EvalWord, ExecArms, ExecCompound;
    WfListFacts(c);
    BranchMeaning(w, c, sh.Abs(), n);
    CaseTokens(ctx.tokens, ctx.cursor, c.word, c.arms);
    ctx.Seek(ctx.cursor + 2);
    var target, quoted;
    o, target, quoted := StringExpr(ctx, sh, w, c.word, n);
    if o != Normal { return; }
    if ctx.LA(2) != Down {
      NoArms(w, target, c.arms, ctx.tokens, ctx.cursor, sh.Abs(), n);
      ctx.Consume();
    } else {
      o := CaseClauses(ctx, sh, w, target, c.arms, n);
      if o != Normal { return; }
    }
    ctx.Consume();
  }

  lemma NoArms(w: World, target: string, arms: seq<Arm>, s: seq<Token>, c: nat, st: State, n: nat)
    requires arms != [] ==> WfArms(arms) && HoldsAll(s, c, ArmTrees(arms))
    requires !(c + 1 < |s| && s[c + 1] == Down)
    ensures arms == [] && ExecArms(w, target, arms, st, n) == Some(Run(Normal, st))
  {
    if arms != [] { ArmsStep(s, c, arms); }
  }

  method CaseClauses(ctx: NodeStream, sh: Shell, w: World, target: string, ghost arms: seq<Arm>, ghost n: nat)
    returns (o: Outcome)
    requires arms != [] && WfArms(arms) && HoldsAll(ctx.tokens, ctx.cursor, ArmTrees(arms)) && sh.On(ctx.tokens)
    requires !KindAt(ctx.tokens, ctx.cursor + SizeAll(ArmTrees(arms)), CASE_PATTERN)
    requires ExecArms(w, target, arms, sh.Abs(), n).Some?
    modifies ctx, sh, sh.tab, sh.funs
    ensures sh.On(ctx.tokens) && sh.asts == old(sh.asts)
    ensures ExecArms(w, target, arms, old(sh.Abs()), n) == Some(Run(o, sh.Abs()))
    ensures o == Normal ==> ctx.cursor == old(ctx.cursor) + SizeAll(ArmTrees(arms))
    decreases n, 6, arms, 0
  {
    hide FunctionTable.Valid, Holds, HoldsAll, Size, SizeAll, Scan, ArmTree, ArmTrees, WfArm, WfArms, ExecArm;
    o := Normal;
    var matched := false;
    ghost var k := 0;
    ghost var end := ctx.cursor + SizeAll(ArmTrees(arms));
    ghost var result := ExecArms(w, target, arms, sh.Abs(), n);
    assert arms[0..] == arms;
    ArmsStep(ctx.tokens, ctx.cursor, arms);
    while ctx.Sees(CASE_PATTERN)
      invariant 0 <= k <= |arms| && WfArms(arms[k..]) && sh.On(ctx.tokens) && sh.asts == old(sh.asts)
      invariant HoldsAll(ctx.tokens, ctx.cursor, ArmTrees(arms[k..])) && ctx.cursor + SizeAll(ArmTrees(arms[k..])) == end
      invariant ctx.Sees(CASE_PATTERN) <==> k < |arms|
      invariant k == |arms| ==> ctx.cursor == end
      invariant o == Normal
      invariant if matched then result == Some(Run(Normal, sh.Abs())) else ExecArms(w, target, arms[k..], sh.Abs(), n) == result
      decreases |arms| - k
    {
      ArmsStep(ctx.tokens, ctx.cursor, arms[k..]);
      assert arms[k..][0] == arms[k] && arms[k..][1..] == arms[k + 1..];
      if matched {
        ctx.SeekToNextTree();
      } else {
        o, matched := CaseClause(ctx, sh, w, target, arms[k], n);
        if o != Normal { return; }
      }
      k := k + 1;
      ArmsStep(ctx.tokens, ctx.cursor, arms[k..]);
    }
    assert arms[k..] == [];
  }

  method CaseClause(ctx: NodeStream, sh: Shell, w: World, target: string, ghost a: Arm, ghost n: nat)
    returns (o: Outcome, matched: bool)
    requires WfArm(a) && Holds(ctx.tokens, ctx.cursor, ArmTree(a)) && sh.On(ctx.tokens)
    requires ExecArm(w, target, a, sh.Abs(), n).Some?
    modifies ctx, sh, sh.tab, sh.funs
    ensures sh.On(ctx.tokens) && sh.asts == old(sh.asts)
    ensures Gives(ExecArm(w, target, a, old(sh.Abs()), n), o, matched, sh.Abs())
    ensures o == Normal ==> ctx.cursor == old(ctx.cursor) + Size(ArmTree(a))
    decreases n, 6, a, 0
  {
    hide FunctionTable.Valid, Holds, HoldsAll, Size, SizeAll, Scan, ArmTree, BranchTrees, ListTree, WfArm, WfBranches,
         WfList, EvalBranches, ExecList;
    ArmNode(a);
    ArmLists(a);
    ArmTokens(ctx.tokens, ctx.cursor, a);
    ctx.Seek(ctx.cursor + 2);
    var pattern;
    matched := false;
    o, pattern := CompositePattern(ctx, sh, w, a.patterns, n);
    if o != Normal { return; }
    if w.matches(target, pattern) {
      if ctx.Sees(CASE_COMMAND) {
        ctx.Seek(ctx.cursor + 1);
        o := CommandList(ctx, sh, w, a.body, n);
        if o != Normal { return; }
      } else {
        EmptyList(w, sh.Abs(), n);
      }
      matched := true;
    } else if ctx.Sees(CASE_COMMAND) {
      ctx.SeekToNextTree();
    }
    ctx.Consume();
  }

  lemma ArmLists(a: Arm)
    requires WfArm(a)
    ensures WfBranches(a.patterns) && (a.body != [] ==> WfList(a.body))
  {
  }

  method CompositePattern(ctx: NodeStream, sh: Shell, w: World, ghost bs: seq<seq<PatItem>>, ghost n: nat)
    returns (o: Outcome, pattern: seq<seq<Glob>>)
    requires WfBranches(bs) && HoldsAll(ctx.tokens, ctx.cursor, BranchTrees(bs)) && sh.On(ctx.tokens)
    requires !KindAt(ctx.tokens, ctx.cursor + SizeAll(BranchTrees(bs)), BRANCH)
    requires EvalBranches(w, bs, sh.Abs(), n).Some?
    modifies ctx, sh, sh.tab, sh.funs
    ensures sh.On(ctx.tokens) && sh.asts == old(sh.asts)
    ensures Gives(EvalBranches(w, bs, old(sh.Abs()), n), o, pattern, sh.Abs())
    ensures o == Normal ==> ctx.cursor == old(ctx.cursor) + SizeAll(BranchTrees(bs))
    decreases n, 3, 0
  {
    hide FunctionTable.Valid, Holds, HoldsAll, Size, SizeAll, Scan, BranchTrees, PatTrees, WfPat, EvalBranch;
    o, pattern := Normal, [];
    ghost var k := 0;
    ghost var end := ctx.cursor + SizeAll(BranchTrees(bs));
    assert bs[0..] == bs;
    BranchesStep(ctx.tokens, ctx.cursor, bs);
    while ctx.Sees(BRANCH)
      invariant 0 <= k <= |bs| && sh.On(ctx.tokens) && sh.asts == old(sh.asts)
      invariant HoldsAll(ctx.tokens, ctx.cursor, BranchTrees(bs[k..])) && ctx.cursor + SizeAll(BranchTrees(bs[k..])) == end
      invariant ctx.Sees(BRANCH) <==> k < |bs|
      invariant k == |bs| ==> ctx.cursor == end
      invariant o == Normal && Continues(EvalBranches(w, bs, old(sh.Abs()), n), pattern, EvalBranches(w, bs[k..], sh.Abs(), n))
      decreases |bs| - k
    {
      BranchesStep(ctx.tokens, ctx.cursor, bs[k..]);
      assert bs[k..][0] == bs[k] && bs[k..][1..] == bs[k + 1..] && WfBranch(bs[k]);
      ghost var st := sh.Abs();
      ctx.Seek(ctx.cursor + 2);
      var branch;
      o, branch := BasicPatterns(ctx, sh, w, bs[k], n);
      if o != Normal { return; }
      ctx.Consume();
      ContinuesNext(EvalBranches(w, bs, old(sh.Abs()), n), pattern, EvalBranches(w, bs[k..], st, n),
                    [branch], EvalBranches(w, bs[k + 1..], sh.Abs(), n));
      pattern := pattern + [branch];
      k := k + 1;
      BranchesStep(ctx.tokens, ctx.cursor, bs[k..]);
    }
    assert bs[k..] == [] && pattern + [] == pattern;
  }

  method BasicPatterns(ctx: NodeStream, sh: Shell, w: World, ghost b: seq<PatItem>, ghost n: nat)
    returns (o: Outcome, branch: seq<Glob>)
    requires WfBranch(b) && HoldsAll(ctx.tokens, ctx.cursor, PatTrees(b)) && sh.On(ctx.tokens)
    requires var e := ctx.cursor + SizeAll(PatTrees(b)); e < |ctx.tokens| && ctx.tokens[e] == Up
    requires EvalBranch(w, b, sh.Abs(), n).Some?
    modifies ctx, sh, sh.tab, sh.funs
    ensures sh.On(ctx.tokens) && sh.asts == old(sh.asts)
    ensures Gives(EvalBranch(w, b, old(sh.Abs()), n), o, branch, sh.Abs())
    ensures o == Normal ==> ctx.cursor == old(ctx.cursor) + SizeAll(PatTrees(b))
    decreases n, 2, 0
  {
    hide FunctionTable.Valid, Holds, HoldsAll, Size, SizeAll, Scan, PatTree, PatTrees, WfPart, EvalPat;
    o, branch := Normal, [];
    ghost var k := 0;
    ghost var end := ctx.cursor + SizeAll(PatTrees(b));
    assert b[0..] == b;
    PatsStep(ctx.tokens, ctx.cursor, b);
    while ctx.LA(1) != Up
      invariant 0 <= k <= |b| && sh.On(ctx.tokens) && sh.asts == old(sh.asts)
      invariant HoldsAll(ctx.tokens, ctx.cursor, PatTrees(b[k..])) && ctx.cursor + SizeAll(PatTrees(b[k..])) == end
      invariant k < |b| ==> ctx.LA(1).Tok?
      invariant k == |b| ==> ctx.cursor == end
      invariant o == Normal && Continues(EvalBranch(w, b, old(sh.Abs()), n), branch, EvalBranch(w, b[k..], sh.Abs(), n))
      decreases |b| - k
    {
      PatsStep(ctx.tokens, ctx.cursor, b[k..]);
      assert b[k..][0] == b[k] && b[k..][1..] == b[k + 1..] && WfPat(b[k]);
      ghost var st := sh.Abs();
      var item;
      o, item := BasicPattern(ctx, sh, w, b[k], n);
      if o != Normal { return; }
      ContinuesNext(EvalBranch(w, b, old(sh.Abs()), n), branch, EvalBranch(w, b[k..], st, n),
                    [item], EvalBranch(w, b[k + 1..], sh.Abs(), n));
      branch := branch + [item];
      k := k + 1;
      PatsStep(ctx.tokens, ctx.cursor, b[k..]);
    }
    assert b[k..] == [] && branch + [] == branch;
  }

  method BasicPattern(ctx: NodeStream, sh: Shell, w: World, ghost p: PatItem, ghost n: nat)
    returns (o: Outcome, item: Glob)
    requires WfPat(p) && Holds(ctx.tokens, ctx.cursor, PatTree(p)) && sh.On(ctx.tokens)
    requires EvalPat(w, p, sh.Abs(), n).Some?
    modifies ctx, sh, sh.tab, sh.funs
    ensures sh.On(ctx.tokens) && sh.asts == old(sh.asts)
    ensures Gives(EvalPat(w, p, old(sh.Abs()), n), o, item, sh.Abs())
    ensures o == Normal ==> ctx.cursor == old(ctx.cursor) + Size(PatTree(p))
    decreases n, 1, 1
  {
    hide FunctionTable.Valid, Holds, Size, Scan, PatTree, PartTree, WfPart, EvalPart;
    PatRoot(ctx.tokens, ctx.cursor, p);
    o, item := Normal, AnyString;
    if ctx.Sees(MATCH_ALL) {
      ctx.Consume();
    } else if ctx.Sees(MATCH_ONE) {
      item := AnyChar;
      ctx.Consume();
    } else {
      var v, quoted;
      o, v, quoted := StringPart(ctx, sh, w, p.p, n);
      item := Exactly(v);
    }
  }

  lemma PatRoot(s: seq<Token>, c: nat, p: PatItem)
    requires Holds(s, c, PatTree(p))
    ensures c < |s| && s[c].Tok?
    ensures (p.PatAny? <==> s[c].kind == MATCH_ALL) && (p.PatOne? <==> s[c].kind == MATCH_ONE)
    ensures p.PatText? ==> PatTree(p) == PartTree(p.p)
    ensures !p.PatText? ==> Size(PatTree(p)) == 1
  {
  }
}
