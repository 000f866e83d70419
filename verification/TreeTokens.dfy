/** Where the tokens of each command form stand in the stream: what a rule may rely on when it moves
    the cursor by hand. */
module TreeTokens {
  import opened Text
  import opened TokenStream
  import opened ArithmeticSyntax
  import opened ShellSyntax

  /** A node with at least one child, around `inside`. */
  ghost predicate Frame(s: seq<Token>, c: nat, t: Tree, inside: nat) {
    && c + Size(t) <= |s| && Size(t) == inside + 3
    && s[c] == Tok(t.kind, t.text) && s[c + 1] == Down && s[c + 2 + inside] == Up
    && Scan(s, c + 3, 1) == Some(c + Size(t))
  }

  lemma Framed(s: seq<Token>, c: nat, t: Tree)
    requires Holds(s, c, t) && t.children != []
    ensures Frame(s, c, t, SizeAll(t.children)) && HoldsAll(s, c + 2, t.children)
  {
    hide Holds, HoldsAll, Size, SizeAll, Scan;
    NodeTokens(s, c, t);
    SkipTree(s, c, t);
  }

  lemma Framed1(s: seq<Token>, c: nat, t: Tree, a: Tree)
    requires Holds(s, c, t) && t.children == [a]
    ensures Frame(s, c, t, Size(a)) && Holds(s, c + 2, a)
  {
    hide Holds, HoldsAll, Size, SizeAll, Frame;
    Framed(s, c, t);
    OneTree(s, c + 2, a);
  }

  lemma FramedHead(s: seq<Token>, c: nat, t: Tree, a: Tree, rest: seq<Tree>)
    requires Holds(s, c, t) && t.children == [a] + rest
    ensures Frame(s, c, t, Size(a) + SizeAll(rest)) && Holds(s, c + 2, a) && HoldsAll(s, c + 2 + Size(a), rest)
  {
    hide Holds, HoldsAll, Size, SizeAll, Frame;
    Framed(s, c, t);
    FirstTree(s, c + 2, a, rest);
  }

  lemma Framed2(s: seq<Token>, c: nat, t: Tree, a: Tree, b: Tree)
    requires Holds(s, c, t) && t.children == [a] + [b]
    ensures Frame(s, c, t, Size(a) + Size(b)) && Holds(s, c + 2, a) && Holds(s, c + 2 + Size(a), b)
  {
    hide Holds, HoldsAll, Size, SizeAll, Frame;
    FramedHead(s, c, t, a, [b]);
    OneTree(s, c + 2 + Size(a), b);
  }

  /** The root token of a tree, and that a tree is at least that. */
  lemma Root(s: seq<Token>, c: nat, t: Tree)
    requires Holds(s, c, t)
    ensures c < |s| && s[c] == Tok(t.kind, t.text) && c + Size(t) <= |s|
    ensures t.children == [] ==> Size(t) == 1
  {
    NodeTokens(s, c, t);
  }

  /** Stepping through siblings. */
  lemma Sibling(s: seq<Token>, c: nat, ts: seq<Tree>)
    requires HoldsAll(s, c, ts)
    ensures ts == [] ==> SizeAll(ts) == 0
    ensures ts != [] ==>
      && Holds(s, c, ts[0]) && HoldsAll(s, c + Size(ts[0]), ts[1..])
      && SizeAll(ts) == Size(ts[0]) + SizeAll(ts[1..])
      && c < |s| && s[c] == Tok(ts[0].kind, ts[0].text)
  {
    if ts != [] { NodeTokens(s, c, ts[0]); }
  }

  // ---- Words ----

  lemma WordTokens(s: seq<Token>, c: nat, ps: Word)
    requires WfWord(ps) && Holds(s, c, WordTree(ps))
    ensures Frame(s, c, WordTree(ps), SizeAll(PartTrees(ps))) && HoldsAll(s, c + 2, PartTrees(ps))
    ensures KindAt(s, c, STRING)
  {
    hide Holds, HoldsAll, Size, SizeAll, Scan, PartTrees;
    Framed(s, c, WordTree(ps));
  }

  lemma PartsStep(s: seq<Token>, c: nat, ps: Word)
    requires HoldsAll(s, c, PartTrees(ps))
    ensures ps == [] ==> SizeAll(PartTrees(ps)) == 0
    ensures ps != [] ==>
      && Holds(s, c, PartTree(ps[0])) && HoldsAll(s, c + Size(PartTree(ps[0])), PartTrees(ps[1..]))
      && SizeAll(PartTrees(ps)) == Size(PartTree(ps[0])) + SizeAll(PartTrees(ps[1..]))
      && c < |s| && s[c].Tok?
  {
    hide PartTree;
    Sibling(s, c, PartTrees(ps));
  }

  /** Where the pieces of a word part stand, and that its root token tells the form. */
  lemma PartTokens(s: seq<Token>, c: nat, p: Part)
    requires Holds(s, c, PartTree(p))
    ensures c < |s| && s[c].Tok?
    ensures p.Plain? ==> s[c] == Tok(WORD_PART, p.text) && Size(PartTree(p)) == 1
    ensures p.Quoted? ==> Frame(s, c, PartTree(p), 1) && s[c].kind == SINGLE_QUOTED_STRING && s[c + 2] == Tok(WORD_PART, p.text)
    ensures p.SubPart? ==> Frame(s, c, PartTree(p), 1) && s[c].kind == COMMAND_SUB && s[c + 2] == Tok(WORD_PART, p.raw)
    ensures p.ArgPart? ==> Frame(s, c, PartTree(p), 1) && s[c].kind == VAR_REF && s[c + 2] == Tok(NUMBER, Digits(p.i))
    ensures p.VarPart? ==> Frame(s, c, PartTree(p), Size(NameTree(p.v))) && s[c].kind == VAR_REF && Holds(s, c + 2, NameTree(p.v))
    ensures p.ArithPart? && p.items != [] ==>
      && Frame(s, c, PartTree(p), SizeAll(GroupTrees(p.items))) && s[c].kind == ARITHMETIC_EXPRESSION
      && HoldsAll(s, c + 2, GroupTrees(p.items))
  {
    hide Holds, HoldsAll, Size, SizeAll, GroupTrees, NameTree, Scan;
    var t := PartTree(p);
    Root(s, c, t);
    match p
    case Plain(_) =>
    case Quoted(x) => LeafInside(s, c, t, Leaf(WORD_PART, x));
    case SubPart(x) => LeafInside(s, c, t, Leaf(WORD_PART, x));
    case ArgPart(i) => LeafInside(s, c, t, Leaf(NUMBER, Digits(i)));
    case VarPart(v) => Framed1(s, c, t, NameTree(v));
    case ArithPart(items) =>
      if items != [] { Framed(s, c, t); }
  }

  lemma LeafInside(s: seq<Token>, c: nat, t: Tree, leaf: Tree)
    requires Holds(s, c, t) && t.children == [leaf] && leaf.children == []
    ensures Frame(s, c, t, 1) && s[c + 2] == Tok(leaf.kind, leaf.text)
  {
    hide Holds, HoldsAll, Size, SizeAll;
    Framed1(s, c, t, leaf);
    Root(s, c + 2, leaf);
  }

  /** A name token is followed by Down exactly when it has a subscript. */
  lemma NameTokens(s: seq<Token>, c: nat, v: Name)
    requires Holds(s, c, NameTree(v))
    ensures c < |s| && s[c] == Tok(NAME, v.base) && c + Size(NameTree(v)) <= |s|
    ensures v.index == [] ==> Size(NameTree(v)) == 1
    ensures v.index != [] ==> c + 1 < |s| && s[c + 1] == Down
  {
    assert v.index == [] <==> GroupTrees(v.index) == [];
    hide Holds, HoldsAll, Size, SizeAll, GroupTrees;
    NodeTokens(s, c, NameTree(v));
  }

  lemma WordsStep(s: seq<Token>, c: nat, ws: seq<Word>)
    requires HoldsAll(s, c, WordTrees(ws))
    ensures ws == [] ==> SizeAll(WordTrees(ws)) == 0
    ensures ws != [] ==>
      && Holds(s, c, WordTree(ws[0])) && HoldsAll(s, c + Size(WordTree(ws[0])), WordTrees(ws[1..]))
      && SizeAll(WordTrees(ws)) == Size(WordTree(ws[0])) + SizeAll(WordTrees(ws[1..]))
      && KindAt(s, c, STRING)
  {
    hide PartTrees;
    Sibling(s, c, WordTrees(ws));
  }

  // ---- Definitions, redirections, conditions ----

  lemma DefTokens(s: seq<Token>, c: nat, d: Def)
    requires Holds(s, c, DefTree(d))
    ensures KindAt(s, c, EQUALS) && Holds(s, c + 2, NameTree(d.v))
    ensures var k := Size(NameTree(d.v));
            && (d.value.None? ==> Frame(s, c, DefTree(d), k))
            && (d.value.Some? ==> Frame(s, c, DefTree(d), k + Size(WordTree(d.value.value)))
                                  && Holds(s, c + 2 + k, WordTree(d.value.value)) && KindAt(s, c + 2 + k, STRING))
    ensures d.v.index == [] ==> s[c + 3] != Down
  {
    hide Holds, HoldsAll, Size, SizeAll, NameTree, PartTrees, Scan;
    var t, name := DefTree(d), NameTree(d.v);
    Root(s, c, t);
    if d.value.Some? {
      Framed2(s, c, t, name, WordTree(d.value.value));
      Root(s, c + 2 + Size(name), WordTree(d.value.value));
    } else {
      assert [name] + [] == [name];
      Framed1(s, c, t, name);
    }
    NameTokens(s, c + 2, d.v);
  }

  lemma DefsStep(s: seq<Token>, c: nat, ds: seq<Def>)
    requires HoldsAll(s, c, DefTrees(ds))
    ensures ds == [] ==> SizeAll(DefTrees(ds)) == 0
    ensures ds != [] ==>
      && Holds(s, c, DefTree(ds[0])) && HoldsAll(s, c + Size(DefTree(ds[0])), DefTrees(ds[1..]))
      && SizeAll(DefTrees(ds)) == Size(DefTree(ds[0])) + SizeAll(DefTrees(ds[1..]))
      && KindAt(s, c, EQUALS)
  {
    hide PartTrees, NameTree;
    Sibling(s, c, DefTrees(ds));
  }

  lemma RedirectTokens(s: seq<Token>, c: nat, r: Redirect)
    requires Holds(s, c, RedirectTree(r))
    ensures Frame(s, c, RedirectTree(r), 1 + Size(WordTree(r.target)))
    ensures KindAt(s, c + 2, if r.input then LESS_THAN else GREATER_THAN) && Holds(s, c + 3, WordTree(r.target))
  {
    hide Holds, HoldsAll, Size, SizeAll, WordTree, Scan;
    var op := Leaf(if r.input then LESS_THAN else GREATER_THAN, "");
    Framed2(s, c, RedirectTree(r), op, WordTree(r.target));
    Root(s, c + 2, op);
  }

  lemma RedirectsStep(s: seq<Token>, c: nat, rs: seq<Redirect>)
    requires HoldsAll(s, c, RedirectTrees(rs))
    ensures rs == [] ==> SizeAll(RedirectTrees(rs)) == 0
    ensures rs != [] ==>
      && Holds(s, c, RedirectTree(rs[0])) && HoldsAll(s, c + Size(RedirectTree(rs[0])), RedirectTrees(rs[1..]))
      && SizeAll(RedirectTrees(rs)) == Size(RedirectTree(rs[0])) + SizeAll(RedirectTrees(rs[1..]))
      && KindAt(s, c, REDIR)
  {
    hide PartTrees, WordTree;
    Sibling(s, c, RedirectTrees(rs));
  }

  /** A condition's root token; a condition always has children, so it can be skipped as a tree. */
  lemma CondTokens(s: seq<Token>, c: nat, keyword: bool, e: Cond)
    requires WfCond(e) && Holds(s, c, CondTree(keyword, e))
    ensures c < |s| && s[c].Tok? && Scan(s, c + 3, 1) == Some(c + Size(CondTree(keyword, e)))
    ensures e.Either? || e.Both? ==>
      && s[c].kind == (if keyword then (if e.Either? then LOGICOR else LOGICAND)
                       else if e.Either? then BUILTIN_LOGIC_OR else BUILTIN_LOGIC_AND)
      && Frame(s, c, CondTree(keyword, e), Size(CondTree(keyword, e.l)) + Size(CondTree(keyword, e.r)))
      && Holds(s, c + 2, CondTree(keyword, e.l))
      && Holds(s, c + 2 + Size(CondTree(keyword, e.l)), CondTree(keyword, e.r))
    ensures e.Negate? ==>
      && s[c].kind == NEGATION && Frame(s, c, CondTree(keyword, e), Size(CondTree(keyword, e.c)))
      && Holds(s, c + 2, CondTree(keyword, e.c))
    ensures e.Basic? ==>
      && Holds(s, c, PrimTree(keyword, e.p)) && CondTree(keyword, e) == PrimTree(keyword, e.p)
      && s[c].kind !in {LOGICOR, LOGICAND, BUILTIN_LOGIC_OR, BUILTIN_LOGIC_AND, NEGATION}
  {
    hide Holds, HoldsAll, Size, SizeAll, WordTree, Scan;
    var t := CondTree(keyword, e);
    Root(s, c, t);
    match e
    case Either(l, r) => Framed2(s, c, t, CondTree(keyword, l), CondTree(keyword, r));
    case Both(l, r) => Framed2(s, c, t, CondTree(keyword, l), CondTree(keyword, r));
    case Negate(x) => Framed1(s, c, t, CondTree(keyword, x));
    case Basic(p) =>
      PrimRoot(keyword, p);
      hide PrimTree;
      Framed(s, c, t);
  }

  lemma PrimRoot(keyword: bool, p: Prim)
    requires WfPrim(p)
    ensures PrimTree(keyword, p).children != []
    ensures PrimTree(keyword, p).kind !in {LOGICOR, LOGICAND, BUILTIN_LOGIC_OR, BUILTIN_LOGIC_AND, NEGATION}
  {
  }

  lemma PrimTokens(s: seq<Token>, c: nat, keyword: bool, p: Prim)
    requires Holds(s, c, PrimTree(keyword, p))
    ensures c < |s| && s[c].Tok?
    ensures p.NonEmpty? ==> s[c].kind == STRING
    ensures p.IsEmpty? ==>
      && s[c] == Tok(LETTER, if p.negated then "n" else "z")
      && Frame(s, c, PrimTree(keyword, p), Size(WordTree(p.w))) && Holds(s, c + 2, WordTree(p.w))
    ensures p.Compare? ==>
      && CompareRoot(keyword, p.op) == (s[c].kind, s[c].text)
      && Frame(s, c, PrimTree(keyword, p), Size(WordTree(p.l)) + Size(WordTree(p.r)))
      && Holds(s, c + 2, WordTree(p.l)) && Holds(s, c + 2 + Size(WordTree(p.l)), WordTree(p.r))
  {
    hide Holds, HoldsAll, Size, SizeAll, PartTrees, Scan, CompareRoot;
    var t := PrimTree(keyword, p);
    Root(s, c, t);
    match p
    case NonEmpty(_) =>
    case IsEmpty(_, x) => Framed1(s, c, t, WordTree(x));
    case Compare(_, l, r) => Framed2(s, c, t, WordTree(l), WordTree(r));
  }

  // ---- Lists and commands ----

  lemma ListTokens(s: seq<Token>, c: nat, items: seq<Logic>)
    requires items != [] && Holds(s, c, ListTree(items))
    ensures Frame(s, c, ListTree(items), SizeAll(LogicTrees(items))) && HoldsAll(s, c + 2, LogicTrees(items))
    ensures KindAt(s, c, LIST)
  {
    hide Holds, HoldsAll, Size, SizeAll, Scan, LogicTrees;
    Framed(s, c, ListTree(items));
  }

  lemma LogicsStep(s: seq<Token>, c: nat, items: seq<Logic>)
    requires HoldsAll(s, c, LogicTrees(items))
    ensures items == [] ==> SizeAll(LogicTrees(items)) == 0
    ensures items != [] ==>
      && Holds(s, c, LogicTree(items[0])) && HoldsAll(s, c + Size(LogicTree(items[0])), LogicTrees(items[1..]))
      && SizeAll(LogicTrees(items)) == Size(LogicTree(items[0])) + SizeAll(LogicTrees(items[1..]))
      && c < |s| && s[c].Tok?
  {
    hide LogicTree;
    Sibling(s, c, LogicTrees(items));
  }

  lemma CommandChildren(c: Command)
    requires WfCommand(c)
    ensures c.atom.Simple? ==> c.atom.words != []
    ensures AtomTrees(c.atom) != [] && CommandTree(c).kind == COMMAND && CommandTree(c).children != []
    ensures CommandTree(c).children == RedirectTrees(c.redirects) + AtomTrees(c.atom)
  {
    hide WordTree, CompoundTree, NamePieces, DefTree, RedirectTree, WfCompound, WfWord, WfDef;
    match c.atom
    case Defs(_, _) =>
    case FunDef(_, _) =>
    case Simple(_, _, _) =>
    case Comp(_) =>
  }

  lemma LogicTokens(s: seq<Token>, c: nat, l: Logic)
    requires WfLogic(l) && Holds(s, c, LogicTree(l))
    ensures c < |s| && s[c].Tok? && WfCommand(l.c)
    ensures l.Single? ==> s[c].kind == COMMAND && LogicTree(l) == CommandTree(l.c)
    ensures !l.Single? ==>
      && s[c].kind == (if l.AndThen? then LOGICAND else LOGICOR) && WfLogic(l.left)
      && Frame(s, c, LogicTree(l), Size(LogicTree(l.left)) + Size(CommandTree(l.c)))
      && Holds(s, c + 2, LogicTree(l.left)) && Holds(s, c + 2 + Size(LogicTree(l.left)), CommandTree(l.c))
      && Scan(s, c + 2 + Size(LogicTree(l.left)) + 3, 1) == Some(c + 2 + Size(LogicTree(l.left)) + Size(CommandTree(l.c)))
  {
    hide Holds, HoldsAll, Size, SizeAll, Scan, CommandTree, WfCommand;
    var t := LogicTree(l);
    Root(s, c, t);
    CommandChildren(l.c);
    if !l.Single? {
      Framed2(s, c, t, LogicTree(l.left), CommandTree(l.c));
      SkipTree(s, c + 2 + Size(LogicTree(l.left)), CommandTree(l.c));
    }
  }

  lemma CommandTokens(s: seq<Token>, c: nat, cmd: Command)
    requires WfCommand(cmd) && Holds(s, c, CommandTree(cmd))
    ensures var k := SizeAll(RedirectTrees(cmd.redirects));
            && Frame(s, c, CommandTree(cmd), k + SizeAll(AtomTrees(cmd.atom)))
            && HoldsAll(s, c + 2, RedirectTrees(cmd.redirects)) && HoldsAll(s, c + 2 + k, AtomTrees(cmd.atom))
            && !KindAt(s, c + 2 + k, REDIR)
  {
    hide Holds, HoldsAll, Size, SizeAll, Scan, CommandTree, RedirectTrees, AtomTrees, WfCommand, KindAt;
    CommandChildren(cmd);
    Framed(s, c, CommandTree(cmd));
    HoldsAllSplit(s, c + 2, RedirectTrees(cmd.redirects), AtomTrees(cmd.atom));
    AtomRoot(s, c + 2 + SizeAll(RedirectTrees(cmd.redirects)), cmd.atom);
  }

  function CompoundKinds(): set<Kind> {
    {CURRENT_SHELL, COMPOUND_COND, ARITHMETIC_EXPRESSION, FOR, CFOR, WHILE, UNTIL, IF_STATEMENT, CASE}
  }

  lemma CompoundRoot(c: Compound)
    ensures CompoundTree(c).kind in CompoundKinds()
  {
    hide ListTree, CondTree, GroupTrees, WordTrees, WordTree, ClauseTrees, ArmTrees;
  }

  /** The first token of a command's own part decides which rule applies. */
  lemma AtomRoot(s: seq<Token>, c: nat, a: Atom)
    requires AtomTrees(a) != [] && HoldsAll(s, c, AtomTrees(a)) && (a.Simple? ==> a.words != [])
    ensures c < |s| && s[c].Tok? && !KindAt(s, c, REDIR)
    ensures a.Defs? ==> s[c].kind == VARIABLE_DEFINITIONS
    ensures a.FunDef? ==> s[c].kind == FUNCTION
    ensures a.Simple? ==> s[c].kind == STRING
    ensures a.Comp? ==> s[c].kind in CompoundKinds()
  {
    if a.Comp? { CompoundRoot(a.c); }
    hide Holds, HoldsAll, Size, SizeAll, Scan, CompoundTree, PartTrees, NamePieces, DefTrees;
    Sibling(s, c, AtomTrees(a));
  }

  lemma CompoundNode(c: Compound)
    requires WfCompound(c)
    ensures CompoundTree(c).children != []
  {
    hide ListTree, CondTree, WordTrees, WordTree, WfList, WfWord, WfCond;
    match c
    case Arithmetic(_) =>
    case If(clauses, _) => assert ClauseTrees(clauses) != [];
    case _ =>
  }

  lemma DefsNode(s: seq<Token>, c: nat, local: bool, defs: seq<Def>)
    requires defs != [] && HoldsAll(s, c, AtomTrees(Defs(local, defs)))
    ensures var k := if local then 1 else 0;
            && c + 3 + k + SizeAll(DefTrees(defs)) <= |s|
            && SizeAll(AtomTrees(Defs(local, defs))) == 3 + k + SizeAll(DefTrees(defs))
            && s[c + 1] == Down && HoldsAll(s, c + 2 + k, DefTrees(defs)) && s[c + 2 + k + SizeAll(DefTrees(defs))] == Up
            && KindAt(s, c + 2, if local then LOCAL else EQUALS)
  {
    hide Holds, HoldsAll, Size, SizeAll, Scan, DefTrees;
    var inner := (if local then [Leaf(LOCAL, "")] else []) + DefTrees(defs);
    var t := Node(VARIABLE_DEFINITIONS, "", inner);
    OneTree(s, c, t);
    Framed(s, c, t);
    if local {
      FirstTree(s, c + 2, Leaf(LOCAL, ""), DefTrees(defs));
      Root(s, c + 2, Leaf(LOCAL, ""));
      DefsStep(s, c + 3, defs);
    } else {
      assert inner == DefTrees(defs);
      DefsStep(s, c + 2, defs);
    }
  }

  /** The name's pieces, then the body, which is skipped when the function is defined. */
  lemma FunctionNode(s: seq<Token>, c: nat, name: seq<string>, body: Compound)
    requires name != [] && WfCompound(body) && HoldsAll(s, c, AtomTrees(FunDef(name, body)))
    ensures var k := SizeAll(NamePieces(name)); var b := c + 5 + k;
            && b + Size(CompoundTree(body)) < |s|
            && SizeAll(AtomTrees(FunDef(name, body))) == 6 + k + Size(CompoundTree(body))
            && s[c + 1] == Down && s[c + 3] == Down && HoldsAll(s, c + 4, NamePieces(name)) && s[c + 4 + k] == Up
            && Holds(s, b, CompoundTree(body)) && Scan(s, b + 3, 1) == Some(b + Size(CompoundTree(body)))
            && s[b + Size(CompoundTree(body))] == Up
  {
    hide Holds, HoldsAll, Size, SizeAll, Scan, NamePieces, CompoundTree, WfCompound;
    var ns := Node(STRING, "", NamePieces(name));
    var t := Node(FUNCTION, "", [ns] + [CompoundTree(body)]);
    assert AtomTrees(FunDef(name, body)) == [t];
    OneTree(s, c, t);
    Framed2(s, c, t, ns, CompoundTree(body));
    Framed(s, c + 2, ns);
    CompoundNode(body);
    SkipTree(s, c + 2 + Size(ns), CompoundTree(body));
  }

  lemma PiecesStep(s: seq<Token>, c: nat, ss: seq<string>)
    requires HoldsAll(s, c, NamePieces(ss))
    ensures ss == [] ==> SizeAll(NamePieces(ss)) == 0
    ensures ss != [] ==>
      && c < |s| && s[c] == Tok(WORD_PART, ss[0]) && HoldsAll(s, c + 1, NamePieces(ss[1..]))
      && SizeAll(NamePieces(ss)) == 1 + SizeAll(NamePieces(ss[1..]))
  {
    Sibling(s, c, NamePieces(ss));
    if ss != [] { Root(s, c, NamePieces(ss)[0]); }
  }

  /** A simple command's words, definitions and `!` follow each other among its siblings. */
  lemma SimpleTokens(s: seq<Token>, c: nat, words: seq<Word>, locals: seq<Def>, bang: bool)
    requires HoldsAll(s, c, AtomTrees(Simple(words, locals, bang)))
    requires var e := c + SizeAll(AtomTrees(Simple(words, locals, bang))); e < |s| && s[e] == Up
    ensures var d := c + SizeAll(WordTrees(words)); var b := d + SizeAll(DefTrees(locals));
            && HoldsAll(s, c, WordTrees(words)) && HoldsAll(s, d, DefTrees(locals))
            && b + (if bang then 1 else 0) == c + SizeAll(AtomTrees(Simple(words, locals, bang)))
            && (KindAt(s, b, BANG) <==> bang)
            && !KindAt(s, d, STRING) && !KindAt(s, b, EQUALS)
  {
    hide Holds, HoldsAll, Size, SizeAll, Scan, WordTrees, DefTrees;
    var tail := if bang then [Leaf(BANG, "")] else [];
    HoldsAllSplit(s, c, WordTrees(words), DefTrees(locals) + tail);
    var d := c + SizeAll(WordTrees(words));
    HoldsAllSplit(s, d, DefTrees(locals), tail);
    DefsStep(s, d, locals);
    BangTokens(s, d + SizeAll(DefTrees(locals)), bang);
  }

  lemma BangTokens(s: seq<Token>, b: nat, bang: bool)
    requires HoldsAll(s, b, if bang then [Leaf(BANG, "")] else [])
    ensures SizeAll(if bang then [Leaf(BANG, "")] else []) == (if bang then 1 else 0)
    ensures bang ==> KindAt(s, b, BANG)
  {
    if bang {
      OneTree(s, b, Leaf(BANG, ""));
      Root(s, b, Leaf(BANG, ""));
    }
  }

  // ---- Compound commands ----

  /** A list in the body of a compound: where it stands and that it can be skipped. */
  lemma ListSkip(s: seq<Token>, c: nat, items: seq<Logic>)
    requires items != [] && Holds(s, c, ListTree(items))
    ensures KindAt(s, c, LIST) && Scan(s, c + 3, 1) == Some(c + Size(ListTree(items)))
    ensures c + Size(ListTree(items)) <= |s|
  {
    hide Holds, HoldsAll, Size, SizeAll, Scan, LogicTrees;
    ListTokens(s, c, items);
  }

  lemma WhileTokens(s: seq<Token>, c: nat, until: bool, guard: seq<Logic>, body: seq<Logic>)
    requires guard != [] && body != [] && Holds(s, c, CompoundTree(While(until, guard, body)))
    ensures var g, b := Size(ListTree(guard)), Size(ListTree(body));
            && Frame(s, c, CompoundTree(While(until, guard, body)), g + b) && KindAt(s, c, if until then UNTIL else WHILE)
            && Holds(s, c + 2, ListTree(guard)) && Holds(s, c + 2 + g, ListTree(body))
            && Scan(s, c + 2 + g + 3, 1) == Some(c + 2 + g + b)
  {
    hide Holds, HoldsAll, Size, SizeAll, Scan, ListTree;
    Framed2(s, c, CompoundTree(While(until, guard, body)), ListTree(guard), ListTree(body));
    ListSkip(s, c + 2 + Size(ListTree(guard)), body);
  }

  lemma ForTokens(s: seq<Token>, c: nat, name: string, words: seq<Word>, body: seq<Logic>)
    requires body != [] && Holds(s, c, CompoundTree(For(name, words, body)))
    ensures var k, b := SizeAll(WordTrees(words)), Size(ListTree(body));
            && Frame(s, c, CompoundTree(For(name, words, body)), 1 + k + b)
            && s[c + 2] == Tok(NAME, name) && HoldsAll(s, c + 3, WordTrees(words)) && Holds(s, c + 3 + k, ListTree(body))
            && KindAt(s, c + 3 + k, LIST) && Scan(s, c + 3 + k + 3, 1) == Some(c + 3 + k + b)
  {
    hide Holds, HoldsAll, Size, SizeAll, Scan, ListTree, WordTrees;
    var leaf, k := Leaf(NAME, name), SizeAll(WordTrees(words));
    FramedHead(s, c, CompoundTree(For(name, words, body)), leaf, WordTrees(words) + [ListTree(body)]);
    Root(s, c + 2, leaf);
    HoldsAllSplit(s, c + 3, WordTrees(words), [ListTree(body)]);
    OneTree(s, c + 3 + k, ListTree(body));
    ListSkip(s, c + 3 + k, body);
  }

  function OptionalSize(items: seq<Arith>): nat { if items == [] then 0 else 3 + SizeAll(GroupTrees(items)) }

  /** An optional expression of a C-style loop stands at c, and can be skipped; otherwise some other
      token stands there. */
  ghost predicate OptionalAt(s: seq<Token>, c: nat, k: Kind, items: seq<Arith>) {
    if items == [] then !KindAt(s, c, k)
    else
      && KindAt(s, c, k) && c + OptionalSize(items) <= |s|
      && s[c + 1] == Down && HoldsAll(s, c + 2, GroupTrees(items)) && s[c + 2 + SizeAll(GroupTrees(items))] == Up
      && Scan(s, c + 3, 1) == Some(c + OptionalSize(items))
  }

  lemma OptionalHere(s: seq<Token>, c: nat, k: Kind, items: seq<Arith>)
    requires HoldsAll(s, c, OptionalPart(k, items)) && (items == [] ==> !KindAt(s, c, k))
    ensures OptionalAt(s, c, k, items) && SizeAll(OptionalPart(k, items)) == OptionalSize(items)
  {
    hide Holds, HoldsAll, Size, Scan, GroupTrees;
    if items != [] {
      var t := Node(k, "", GroupTrees(items));
      OneTree(s, c, t);
      Framed(s, c, t);
    }
  }

  lemma CForTokens(s: seq<Token>, c: nat, init: seq<Arith>, test: seq<Arith>, body: seq<Logic>, step: seq<Arith>)
    requires body != [] && Holds(s, c, CompoundTree(CFor(init, test, body, step)))
    ensures var i, t, b := OptionalSize(init), OptionalSize(test), Size(ListTree(body));
            && Frame(s, c, CompoundTree(CFor(init, test, body, step)), i + t + b + OptionalSize(step))
            && OptionalAt(s, c + 2, FOR_INIT, init)
            && OptionalAt(s, c + 2 + i, FOR_COND, test)
            && Holds(s, c + 2 + i + t, ListTree(body)) && Scan(s, c + 2 + i + t + 3, 1) == Some(c + 2 + i + t + b)
            && OptionalAt(s, c + 2 + i + t + b, FOR_MOD, step)
  {
    hide Holds, HoldsAll, Size, SizeAll, Scan, ListTree, OptionalPart, OptionalAt, OptionalSize;
    var x := CompoundTree(CFor(init, test, body, step));
    CompoundNode2(init, test, body, step);
    Framed(s, c, x);
    HoldsAllSplit(s, c + 2, OptionalPart(FOR_INIT, init), OptionalPart(FOR_COND, test) + ([ListTree(body)] + OptionalPart(FOR_MOD, step)));
    CForRest(s, c + 2 + SizeAll(OptionalPart(FOR_INIT, init)), test, body, step);
    NothingThere(FOR_INIT, init);
    OptionalHere(s, c + 2, FOR_INIT, init);
  }

  lemma CompoundNode2(init: seq<Arith>, test: seq<Arith>, body: seq<Logic>, step: seq<Arith>)
    ensures var x := CompoundTree(CFor(init, test, body, step));
            && x.children == OptionalPart(FOR_INIT, init) +
                             (OptionalPart(FOR_COND, test) + ([ListTree(body)] + OptionalPart(FOR_MOD, step)))
            && x.children != []
  {
    hide ListTree, OptionalPart;
  }

  lemma CForRest(s: seq<Token>, c: nat, test: seq<Arith>, body: seq<Logic>, step: seq<Arith>)
    requires body != [] && HoldsAll(s, c, OptionalPart(FOR_COND, test) + ([ListTree(body)] + OptionalPart(FOR_MOD, step)))
    requires var e := c + SizeAll(OptionalPart(FOR_COND, test) + ([ListTree(body)] + OptionalPart(FOR_MOD, step)));
             e < |s| && s[e] == Up
    ensures var t, b := OptionalSize(test), Size(ListTree(body));
            && SizeAll(OptionalPart(FOR_COND, test) + ([ListTree(body)] + OptionalPart(FOR_MOD, step))) == t + b + OptionalSize(step)
            && OptionalAt(s, c, FOR_COND, test) && !KindAt(s, c, FOR_INIT)
            && Holds(s, c + t, ListTree(body)) && Scan(s, c + t + 3, 1) == Some(c + t + b)
            && OptionalAt(s, c + t + b, FOR_MOD, step)
  {
    hide Holds, HoldsAll, Size, SizeAll, Scan, ListTree, OptionalPart, OptionalSize, OptionalAt;
    HoldsAllSplit(s, c, OptionalPart(FOR_COND, test), [ListTree(body)] + OptionalPart(FOR_MOD, step));
    CForEnd(s, c + SizeAll(OptionalPart(FOR_COND, test)), body, step);
    NothingThere(FOR_COND, test);
    OptionalHere(s, c, FOR_COND, test);
    OptionalStarts(s, c, FOR_COND, test);
  }

  /** The body and the modification. */
  lemma CForEnd(s: seq<Token>, d: nat, body: seq<Logic>, step: seq<Arith>)
    requires body != [] && HoldsAll(s, d, [ListTree(body)] + OptionalPart(FOR_MOD, step))
    requires var e := d + SizeAll([ListTree(body)] + OptionalPart(FOR_MOD, step)); e < |s| && s[e] == Up
    ensures var b := Size(ListTree(body));
            && SizeAll([ListTree(body)] + OptionalPart(FOR_MOD, step)) == b + OptionalSize(step)
            && KindAt(s, d, LIST) && Holds(s, d, ListTree(body)) && Scan(s, d + 3, 1) == Some(d + b)
            && OptionalAt(s, d + b, FOR_MOD, step)
  {
    hide Holds, HoldsAll, Size, SizeAll, Scan, ListTree, OptionalPart, OptionalSize, OptionalAt;
    FirstTree(s, d, ListTree(body), OptionalPart(FOR_MOD, step));
    ListSkip(s, d, body);
    NothingThere(FOR_MOD, step);
    OptionalHere(s, d + Size(ListTree(body)), FOR_MOD, step);
  }

  lemma OptionalStarts(s: seq<Token>, c: nat, k: Kind, items: seq<Arith>)
    requires OptionalAt(s, c, k, items)
    ensures items != [] ==> KindAt(s, c, k)
  {
    hide Holds, HoldsAll, Size, Scan, GroupTrees;
  }

  lemma NothingThere(k: Kind, items: seq<Arith>)
    ensures items == [] ==> SizeAll(OptionalPart(k, items)) == 0
  {
  }

  lemma ClausesHead(cs: seq<Clause>)
    requires cs != []
    ensures ClauseTrees(cs) == [Node(IF, "", [ListTree(cs[0].cond)] + [ListTree(cs[0].body)])] + ClauseTrees(cs[1..])
  {
  }

  /** An IF node and the siblings after it. */
  lemma ClausesStep(s: seq<Token>, c: nat, cs: seq<Clause>)
    requires WfClauses(cs) && HoldsAll(s, c, ClauseTrees(cs))
    ensures cs == [] ==> SizeAll(ClauseTrees(cs)) == 0
    ensures cs != [] ==>
      var g, b := Size(ListTree(cs[0].cond)), Size(ListTree(cs[0].body));
      && KindAt(s, c, IF) && c + 3 + g + b <= |s| && s[c + 1] == Down && s[c + 2 + g + b] == Up
      && WfList(cs[0].cond) && WfList(cs[0].body) && WfClauses(cs[1..])
      && Holds(s, c + 2, ListTree(cs[0].cond)) && Holds(s, c + 2 + g, ListTree(cs[0].body))
      && Scan(s, c + 2 + g + 3, 1) == Some(c + 2 + g + b)
      && Scan(s, c + 3, 1) == Some(c + 3 + g + b)
      && HoldsAll(s, c + 3 + g + b, ClauseTrees(cs[1..]))
      && SizeAll(ClauseTrees(cs)) == 3 + g + b + SizeAll(ClauseTrees(cs[1..]))
  {
    hide Holds, HoldsAll, Size, SizeAll, Scan, ListTree, ClauseTrees, WfLogics;
    Sibling(s, c, ClauseTrees(cs));
    if cs != [] {
      ClausesHead(cs);
      var t := Node(IF, "", [ListTree(cs[0].cond)] + [ListTree(cs[0].body)]);
      assert ClauseTrees(cs)[0] == t && ClauseTrees(cs)[1..] == ClauseTrees(cs[1..]);
      Framed2(s, c, t, ListTree(cs[0].cond), ListTree(cs[0].body));
      ListSkip(s, c + 2 + Size(ListTree(cs[0].cond)), cs[0].body);
    }
  }

  lemma IfTokens(s: seq<Token>, c: nat, clauses: seq<Clause>, otherwise: seq<Logic>)
    requires clauses != [] && Holds(s, c, CompoundTree(If(clauses, otherwise)))
    ensures var k := SizeAll(ClauseTrees(clauses));
            var o := if otherwise == [] then 0 else 3 + Size(ListTree(otherwise));
            && Frame(s, c, CompoundTree(If(clauses, otherwise)), k + o)
            && HoldsAll(s, c + 2, ClauseTrees(clauses)) && !KindAt(s, c + 2 + k, IF)
            && (otherwise == [] ==> !KindAt(s, c + 2 + k, ELSE))
            && (otherwise != [] ==>
                  && KindAt(s, c + 2 + k, ELSE) && s[c + 3 + k] == Down && Holds(s, c + 4 + k, ListTree(otherwise))
                  && s[c + 4 + k + Size(ListTree(otherwise))] == Up
                  && Scan(s, c + 2 + k + 3, 1) == Some(c + 2 + k + o))
  {
    hide Holds, HoldsAll, Size, SizeAll, Scan, ListTree, ClauseTrees;
    var t, k := CompoundTree(If(clauses, otherwise)), SizeAll(ClauseTrees(clauses));
    var tail := if otherwise != [] then [Node(ELSE, "", [ListTree(otherwise)])] else [];
    Framed(s, c, t);
    HoldsAllSplit(s, c + 2, ClauseTrees(clauses), tail);
    ElseTokens(s, c + 2 + k, otherwise);
  }

  lemma ElseTokens(s: seq<Token>, e: nat, otherwise: seq<Logic>)
    requires HoldsAll(s, e, if otherwise != [] then [Node(ELSE, "", [ListTree(otherwise)])] else [])
    ensures SizeAll(if otherwise != [] then [Node(ELSE, "", [ListTree(otherwise)])] else []) ==
            if otherwise == [] then 0 else 3 + Size(ListTree(otherwise))
    ensures otherwise != [] ==>
      && e + 3 + Size(ListTree(otherwise)) <= |s|
      && KindAt(s, e, ELSE) && s[e + 1] == Down && Holds(s, e + 2, ListTree(otherwise))
      && s[e + 2 + Size(ListTree(otherwise))] == Up && Scan(s, e + 3, 1) == Some(e + 3 + Size(ListTree(otherwise)))
  {
    if otherwise != [] {
      var t := Node(ELSE, "", [ListTree(otherwise)]);
      OneTree(s, e, t);
      Framed1(s, e, t, ListTree(otherwise));
    }
  }

  // ---- case ----

  lemma CaseTokens(s: seq<Token>, c: nat, word: Word, arms: seq<Arm>)
    requires Holds(s, c, CompoundTree(Case(word, arms)))
    ensures var k := Size(WordTree(word)); var a := if arms == [] then 1 else SizeAll(ArmTrees(arms));
            && Frame(s, c, CompoundTree(Case(word, arms)), k + a) && Holds(s, c + 2, WordTree(word))
            && (arms == [] ==> KindAt(s, c + 2 + k, CASE_PATTERN) && s[c + 3 + k] == Up)
            && (arms != [] ==> HoldsAll(s, c + 2 + k, ArmTrees(arms)))
  {
    hide Holds, HoldsAll, Size, SizeAll, Scan, WordTree, ArmTrees;
    var t := CompoundTree(Case(word, arms));
    FramedHead(s, c, t, WordTree(word), if arms == [] then [Leaf(CASE_PATTERN, "")] else ArmTrees(arms));
    if arms == [] {
      OneTree(s, c + 2 + Size(WordTree(word)), Leaf(CASE_PATTERN, ""));
      Root(s, c + 2 + Size(WordTree(word)), Leaf(CASE_PATTERN, ""));
    }
  }

  lemma ArmsStep(s: seq<Token>, c: nat, arms: seq<Arm>)
    requires WfArms(arms) && HoldsAll(s, c, ArmTrees(arms))
    ensures arms == [] ==> SizeAll(ArmTrees(arms)) == 0
    ensures arms != [] ==>
      && WfArm(arms[0]) && WfArms(arms[1..])
      && Holds(s, c, ArmTree(arms[0])) && HoldsAll(s, c + Size(ArmTree(arms[0])), ArmTrees(arms[1..]))
      && SizeAll(ArmTrees(arms)) == Size(ArmTree(arms[0])) + SizeAll(ArmTrees(arms[1..]))
      && KindAt(s, c, CASE_PATTERN) && c + 1 < |s| && s[c + 1] == Down
      && Scan(s, c + 3, 1) == Some(c + Size(ArmTree(arms[0])))
  {
    hide BranchTrees, ListTree, WfBranches, WfLogics, Scan;
    Sibling(s, c, ArmTrees(arms));
    if arms != [] {
      ArmNode(arms[0]);
      Framed(s, c, ArmTree(arms[0]));
    }
  }

  lemma ArmNode(a: Arm)
    requires WfArm(a)
    ensures a.patterns != [] && BranchTrees(a.patterns) != [] && ArmTree(a).children != []
    ensures ArmTree(a).children == BranchTrees(a.patterns) +
              if a.body != [] then [Leaf(CASE_COMMAND, "")] + [ListTree(a.body)] else []
  {
    hide ListTree, PatTrees;
  }

  /** The branches of an arm, and behind them its commands, which can be skipped together with their
      CASE_COMMAND marker. */
  lemma ArmTokens(s: seq<Token>, c: nat, a: Arm)
    requires WfArm(a) && Holds(s, c, ArmTree(a))
    ensures var k := SizeAll(BranchTrees(a.patterns)); var b := if a.body == [] then 0 else 1 + Size(ListTree(a.body));
            && Frame(s, c, ArmTree(a), k + b) && HoldsAll(s, c + 2, BranchTrees(a.patterns))
            && !KindAt(s, c + 2 + k, BRANCH)
            && (a.body == [] ==> !KindAt(s, c + 2 + k, CASE_COMMAND))
            && (a.body != [] ==>
                  && KindAt(s, c + 2 + k, CASE_COMMAND) && Holds(s, c + 3 + k, ListTree(a.body))
                  && Scan(s, c + 2 + k + 3, 1) == Some(c + 2 + k + b))
  {
    hide Holds, HoldsAll, Size, SizeAll, Scan, BranchTrees, ListTree, ArmTree, WfArm;
    ArmNode(a);
    var k := SizeAll(BranchTrees(a.patterns));
    var tail := if a.body != [] then [Leaf(CASE_COMMAND, "")] + [ListTree(a.body)] else [];
    Framed(s, c, ArmTree(a));
    HoldsAllSplit(s, c + 2, BranchTrees(a.patterns), tail);
    ArmBodyTokens(s, c + 2 + k, a.body);
  }

  lemma ArmBodyTokens(s: seq<Token>, e: nat, body: seq<Logic>)
    requires HoldsAll(s, e, if body != [] then [Leaf(CASE_COMMAND, "")] + [ListTree(body)] else [])
    ensures SizeAll(if body != [] then [Leaf(CASE_COMMAND, "")] + [ListTree(body)] else []) ==
            if body == [] then 0 else 1 + Size(ListTree(body))
    ensures body != [] ==>
      && KindAt(s, e, CASE_COMMAND) && Holds(s, e + 1, ListTree(body)) && e + 1 + Size(ListTree(body)) <= |s|
      && Scan(s, e + 3, 1) == Some(e + 1 + Size(ListTree(body)))
  {
    if body != [] {
      var leaf, list := Leaf(CASE_COMMAND, ""), ListTree(body);
      assert LogicTrees(body) != [];
      hide Holds, HoldsAll, Size, SizeAll, Scan, ListTree, LogicTrees;
      assert [leaf, list] == [leaf] + [list];
      FirstTree(s, e, leaf, [list]);
      OneTree(s, e + 1, list);
      Root(s, e, leaf);
      Root(s, e + 1, list);
      SkipLeafThenTree(s, e, leaf, list);
    }
  }

  lemma BranchesStep(s: seq<Token>, c: nat, bs: seq<seq<PatItem>>)
    requires HoldsAll(s, c, BranchTrees(bs))
    ensures bs == [] ==> SizeAll(BranchTrees(bs)) == 0
    ensures bs != [] ==>
      && KindAt(s, c, BRANCH)
      && (bs[0] != [] ==>
            && c + 3 + SizeAll(PatTrees(bs[0])) <= |s|
            && s[c + 1] == Down && HoldsAll(s, c + 2, PatTrees(bs[0])) && s[c + 2 + SizeAll(PatTrees(bs[0]))] == Up
            && HoldsAll(s, c + 3 + SizeAll(PatTrees(bs[0])), BranchTrees(bs[1..]))
            && SizeAll(BranchTrees(bs)) == 3 + SizeAll(PatTrees(bs[0])) + SizeAll(BranchTrees(bs[1..])))
  {
    hide PatTrees, Scan;
    Sibling(s, c, BranchTrees(bs));
    if bs != [] && bs[0] != [] { Framed(s, c, BranchTrees(bs)[0]); }
  }

  lemma PatsStep(s: seq<Token>, c: nat, ps: seq<PatItem>)
    requires HoldsAll(s, c, PatTrees(ps))
    ensures ps == [] ==> SizeAll(PatTrees(ps)) == 0
    ensures ps != [] ==>
      && Holds(s, c, PatTree(ps[0])) && HoldsAll(s, c + Size(PatTree(ps[0])), PatTrees(ps[1..]))
      && SizeAll(PatTrees(ps)) == Size(PatTree(ps[0])) + SizeAll(PatTrees(ps[1..]))
      && c < |s| && s[c].Tok?
      && (ps[0].PatAny? <==> s[c].kind == MATCH_ALL) && (ps[0].PatOne? <==> s[c].kind == MATCH_ONE)
      && (!ps[0].PatText? ==> Size(PatTree(ps[0])) == 1)
  {
    Sibling(s, c, PatTrees(ps));
  }

  lemma GroupTokens(s: seq<Token>, c: nat, body: seq<Logic>)
    requires Holds(s, c, CompoundTree(Group(body)))
    ensures Frame(s, c, CompoundTree(Group(body)), Size(ListTree(body))) && Holds(s, c + 2, ListTree(body))
  {
    hide Holds, HoldsAll, Size, SizeAll, Scan, ListTree;
    Framed1(s, c, CompoundTree(Group(body)), ListTree(body));
  }

  lemma TestTokens(s: seq<Token>, c: nat, keyword: bool, e: Cond)
    requires Holds(s, c, CompoundTree(Test(keyword, e)))
    ensures Frame(s, c, CompoundTree(Test(keyword, e)), Size(CondTree(keyword, e)) + 3)
    ensures KindAt(s, c + 2, if keyword then KEYWORD_TEST else BUILTIN_TEST) && s[c + 3] == Down
    ensures Holds(s, c + 4, CondTree(keyword, e)) && s[c + 4 + Size(CondTree(keyword, e))] == Up
  {
    hide Holds, HoldsAll, Size, SizeAll, Scan, CondTree;
    var t := Node(if keyword then KEYWORD_TEST else BUILTIN_TEST, "", [CondTree(keyword, e)]);
    Framed1(s, c, CompoundTree(Test(keyword, e)), t);
    Framed1(s, c + 2, t, CondTree(keyword, e));
  }

  lemma ArithmeticTokens(s: seq<Token>, c: nat, items: seq<Arith>)
    requires items != [] && Holds(s, c, CompoundTree(Arithmetic(items)))
    ensures Frame(s, c, CompoundTree(Arithmetic(items)), SizeAll(GroupTrees(items))) && HoldsAll(s, c + 2, GroupTrees(items))
  {
    hide Holds, HoldsAll, Size, SizeAll, Scan, GroupTrees;
    Framed(s, c, CompoundTree(Arithmetic(items)));
  }
}
