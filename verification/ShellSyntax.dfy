/** Command trees as the parser builds them, and their shape in the node stream. */
module ShellSyntax {
  import opened Text
  import opened TokenStream
  import opened ArithmeticSyntax
  import opened ArithmeticSemantics

  /** A piece of a word. SubPart is a command substitution with its delimiters. */
  datatype Part =
    | Plain(text: string)
    | Quoted(text: string)
    | VarPart(v: Name)
    | ArgPart(i: nat)
    | ArithPart(items: seq<Arith>)
    | SubPart(raw: string)

  type Word = seq<Part>

  datatype Def = Def(v: Name, value: Option<Word>)

  datatype CompareOp = Same | Differs | Before | After | NumEq | NumNe | NumLt | NumLe | NumGt | NumGe

  datatype Prim =
    | Compare(op: CompareOp, l: Word, r: Word)
    | IsEmpty(negated: bool, w: Word)
    | NonEmpty(w: Word)

  datatype Cond = Either(l: Cond, r: Cond) | Both(l: Cond, r: Cond) | Negate(c: Cond) | Basic(p: Prim)

  datatype Redirect = Redirect(input: bool, target: Word)

  datatype PatItem = PatText(p: Part) | PatAny | PatOne

  datatype Arm = Arm(patterns: seq<seq<PatItem>>, body: seq<Logic>)

  datatype Clause = Clause(cond: seq<Logic>, body: seq<Logic>)

  /** A list of commands joined by `&&` and `||`, left-associative. */
  datatype Logic = Single(c: Command) | AndThen(left: Logic, c: Command) | OrElse(left: Logic, c: Command)

  datatype Command = Command(redirects: seq<Redirect>, atom: Atom)

  datatype Atom =
    | Defs(local: bool, defs: seq<Def>)
    | FunDef(name: seq<string>, fbody: Compound)
    | Simple(words: seq<Word>, locals: seq<Def>, bang: bool)
    | Comp(c: Compound)

  /** An empty list means that the part is absent: CFor's three expressions, the `else`, the commands
      of a `case` arm. */
  datatype Compound =
    | Group(body: seq<Logic>)
    | Test(keyword: bool, cond: Cond)
    | Arithmetic(items: seq<Arith>)
    | For(name: string, words: seq<Word>, body: seq<Logic>)
    | CFor(init: seq<Arith>, test: seq<Arith>, body: seq<Logic>, step: seq<Arith>)
    | While(until: bool, guard: seq<Logic>, body: seq<Logic>)
    | If(clauses: seq<Clause>, otherwise: seq<Logic>)
    | Case(word: Word, arms: seq<Arm>)

  // ---- Trees ----

  function Leaf(k: Kind, text: string): Tree { Node(k, text, []) }

  function PartTree(p: Part): (t: Tree) {
    match p
    case Plain(s) => Leaf(WORD_PART, s)
    case Quoted(s) => Node(SINGLE_QUOTED_STRING, "", [Leaf(WORD_PART, s)])
    case VarPart(v) => Node(VAR_REF, "", [NameTree(v)])
    case ArgPart(i) => Node(VAR_REF, "", [Leaf(NUMBER, Digits(i))])
    case ArithPart(items) => Node(ARITHMETIC_EXPRESSION, "", GroupTrees(items))
    case SubPart(raw) => Node(COMMAND_SUB, "", [Leaf(WORD_PART, raw)])
  }

  function PartTrees(ps: seq<Part>): (ts: seq<Tree>)
    ensures |ts| == |ps|
  {
    if ps == [] then [] else [PartTree(ps[0])] + PartTrees(ps[1..])
  }

  function WordTree(w: Word): Tree { Node(STRING, "", PartTrees(w)) }

  function WordTrees(ws: seq<Word>): (ts: seq<Tree>)
    ensures |ts| == |ws|
  {
    if ws == [] then [] else [WordTree(ws[0])] + WordTrees(ws[1..])
  }

  function DefTree(d: Def): Tree {
    Node(EQUALS, "", [NameTree(d.v)] + if d.value.Some? then [WordTree(d.value.value)] else [])
  }

  function DefTrees(ds: seq<Def>): (ts: seq<Tree>)
    ensures |ts| == |ds|
  {
    if ds == [] then [] else [DefTree(ds[0])] + DefTrees(ds[1..])
  }

  /** `<` and `>` are escaped in `[ ]`; the numeric tests are NAME nodes that carry their operator. */
  function CompareRoot(keyword: bool, op: CompareOp): (Kind, string) {
    match op
    case Same => (EQUALS, "")
    case Differs => (NOT_EQUALS, "")
    case Before => (if keyword then LESS_THAN else ESC_LT, "")
    case After => (if keyword then GREATER_THAN else ESC_GT, "")
    case NumEq => (NAME, "eq") case NumNe => (NAME, "ne")
    case NumLt => (NAME, "lt") case NumLe => (NAME, "le")
    case NumGt => (NAME, "gt") case NumGe => (NAME, "ge")
  }

  function PrimTree(keyword: bool, p: Prim): Tree {
    match p
    case Compare(op, l, r) =>
      var root := CompareRoot(keyword, op);
      Node(root.0, root.1, [WordTree(l)] + [WordTree(r)])
    case IsEmpty(negated, w) => Node(LETTER, if negated then "n" else "z", [WordTree(w)])
    case NonEmpty(w) => WordTree(w)
  }

  function CondTree(keyword: bool, c: Cond): Tree {
    match c
    case Either(l, r) => Node(if keyword then LOGICOR else BUILTIN_LOGIC_OR, "", [CondTree(keyword, l)] + [CondTree(keyword, r)])
    case Both(l, r) => Node(if keyword then LOGICAND else BUILTIN_LOGIC_AND, "", [CondTree(keyword, l)] + [CondTree(keyword, r)])
    case Negate(e) => Node(NEGATION, "", [CondTree(keyword, e)])
    case Basic(p) => PrimTree(keyword, p)
  }

  function RedirectTree(r: Redirect): Tree {
    Node(REDIR, "", [Leaf(if r.input then LESS_THAN else GREATER_THAN, "")] + [WordTree(r.target)])
  }

  function RedirectTrees(rs: seq<Redirect>): (ts: seq<Tree>)
    ensures |ts| == |rs|
  {
    if rs == [] then [] else [RedirectTree(rs[0])] + RedirectTrees(rs[1..])
  }

  function NamePieces(ss: seq<string>): (ts: seq<Tree>)
    ensures |ts| == |ss|
  {
    if ss == [] then [] else [Leaf(WORD_PART, ss[0])] + NamePieces(ss[1..])
  }

  function PatTree(p: PatItem): Tree {
    match p
    case PatText(part) => PartTree(part)
    case PatAny => Leaf(MATCH_ALL, "")
    case PatOne => Leaf(MATCH_ONE, "")
  }

  function PatTrees(ps: seq<PatItem>): (ts: seq<Tree>)
    ensures |ts| == |ps|
  {
    if ps == [] then [] else [PatTree(ps[0])] + PatTrees(ps[1..])
  }

  function BranchTrees(bs: seq<seq<PatItem>>): (ts: seq<Tree>)
    ensures |ts| == |bs|
  {
    if bs == [] then [] else [Node(BRANCH, "", PatTrees(bs[0]))] + BranchTrees(bs[1..])
  }

  function ListTree(items: seq<Logic>): Tree
    decreases items, 1
  {
    Node(LIST, "", LogicTrees(items))
  }

  function LogicTrees(items: seq<Logic>): (ts: seq<Tree>)
    ensures |ts| == |items|
    decreases items, 0
  {
    if items == [] then [] else [LogicTree(items[0])] + LogicTrees(items[1..])
  }

  function LogicTree(l: Logic): Tree
    decreases l
  {
    match l
    case Single(c) => CommandTree(c)
    case AndThen(left, c) => Node(LOGICAND, "", [LogicTree(left)] + [CommandTree(c)])
    case OrElse(left, c) => Node(LOGICOR, "", [LogicTree(left)] + [CommandTree(c)])
  }

  function CommandTree(c: Command): Tree
    decreases c
  {
    Node(COMMAND, "", RedirectTrees(c.redirects) + AtomTrees(c.atom))
  }

  /** A simple command is spread over siblings: its words, its local definitions and the `!`. */
  function AtomTrees(a: Atom): seq<Tree>
    decreases a
  {
    match a
    case Defs(local, defs) => [Node(VARIABLE_DEFINITIONS, "", (if local then [Leaf(LOCAL, "")] else []) + DefTrees(defs))]
    case FunDef(name, body) => [Node(FUNCTION, "", [Node(STRING, "", NamePieces(name))] + [CompoundTree(body)])]
    case Simple(words, locals, bang) => WordTrees(words) + (DefTrees(locals) + if bang then [Leaf(BANG, "")] else [])
    case Comp(c) => [CompoundTree(c)]
  }

  function OptionalPart(k: Kind, items: seq<Arith>): seq<Tree> {
    if items == [] then [] else [Node(k, "", GroupTrees(items))]
  }

  function CompoundTree(c: Compound): Tree
    decreases c, 1
  {
    match c
    case Group(body) => Node(CURRENT_SHELL, "", [ListTree(body)])
    case Test(keyword, cond) =>
      Node(COMPOUND_COND, "", [Node(if keyword then KEYWORD_TEST else BUILTIN_TEST, "", [CondTree(keyword, cond)])])
    case Arithmetic(items) => Node(ARITHMETIC_EXPRESSION, "", GroupTrees(items))
    case For(name, words, body) => Node(FOR, "", [Leaf(NAME, name)] + (WordTrees(words) + [ListTree(body)]))
    case CFor(init, test, body, step) =>
      Node(CFOR, "", OptionalPart(FOR_INIT, init) +
                     (OptionalPart(FOR_COND, test) + ([ListTree(body)] + OptionalPart(FOR_MOD, step))))
    case While(until, guard, body) => Node(if until then UNTIL else WHILE, "", [ListTree(guard)] + [ListTree(body)])
    case If(clauses, otherwise) =>
      Node(IF_STATEMENT, "", ClauseTrees(clauses) +
                             if otherwise != [] then [Node(ELSE, "", [ListTree(otherwise)])] else [])
    case Case(word, arms) =>
      Node(CASE, "", [WordTree(word)] + if arms == [] then [Leaf(CASE_PATTERN, "")] else ArmTrees(arms))
  }

  function ClauseTrees(cs: seq<Clause>): (ts: seq<Tree>)
    ensures |ts| == |cs|
    decreases cs
  {
    if cs == [] then []
    else [Node(IF, "", [ListTree(cs[0].cond)] + [ListTree(cs[0].body)])] + ClauseTrees(cs[1..])
  }

  function ArmTrees(arms: seq<Arm>): (ts: seq<Tree>)
    ensures |ts| == |arms|
    decreases arms
  {
    if arms == [] then [] else [ArmTree(arms[0])] + ArmTrees(arms[1..])
  }

  function ArmTree(a: Arm): Tree
    decreases a
  {
    Node(CASE_PATTERN, "", BranchTrees(a.patterns) +
                           if a.body != [] then [Leaf(CASE_COMMAND, "")] + [ListTree(a.body)] else [])
  }

  // ---- Well-formedness: nothing that the grammar requires to be non-empty is empty ----

  predicate WfPart(p: Part) {
    match p
    case VarPart(v) => WfName(v)
    case ArithPart(items) => items != [] && WfGroup(items)
    case _ => true
  }

  predicate WfWord(w: Word) { w != [] && forall i | 0 <= i < |w| :: WfPart(w[i]) }

  predicate WfWords(ws: seq<Word>) { forall i | 0 <= i < |ws| :: WfWord(ws[i]) }

  predicate WfDef(d: Def) { WfName(d.v) && (d.value.Some? ==> WfWord(d.value.value)) }

  predicate WfDefs(ds: seq<Def>) { forall i | 0 <= i < |ds| :: WfDef(ds[i]) }

  predicate WfPrim(p: Prim) {
    match p
    case Compare(_, l, r) => WfWord(l) && WfWord(r)
    case IsEmpty(_, w) => WfWord(w)
    case NonEmpty(w) => WfWord(w)
  }

  predicate WfCond(c: Cond) {
    match c
    case Either(l, r) => WfCond(l) && WfCond(r)
    case Both(l, r) => WfCond(l) && WfCond(r)
    case Negate(e) => WfCond(e)
    case Basic(p) => WfPrim(p)
  }

  predicate WfRedirects(rs: seq<Redirect>) { forall i | 0 <= i < |rs| :: WfWord(rs[i].target) }

  predicate WfPat(p: PatItem) { p.PatText? ==> WfPart(p.p) }

  predicate WfBranch(b: seq<PatItem>) { b != [] && forall i | 0 <= i < |b| :: WfPat(b[i]) }

  predicate WfBranches(bs: seq<seq<PatItem>>) { bs != [] && forall i | 0 <= i < |bs| :: WfBranch(bs[i]) }

  predicate WfList(items: seq<Logic>)
    decreases items, 1
  {
    items != [] && WfLogics(items)
  }

  predicate WfLogics(items: seq<Logic>)
    decreases items, 0
  {
    items != [] ==> WfLogic(items[0]) && WfLogics(items[1..])
  }

  predicate WfLogic(l: Logic)
    decreases l
  {
    WfCommand(l.c) && (!l.Single? ==> WfLogic(l.left))
  }

  predicate WfCommand(c: Command)
    decreases c
  {
    WfRedirects(c.redirects) && WfAtom(c.atom)
  }

  predicate WfAtom(a: Atom)
    decreases a
  {
    match a
    case Defs(_, defs) => defs != [] && WfDefs(defs)
    case FunDef(name, body) => name != [] && WfCompound(body)
    case Simple(words, locals, _) => words != [] && WfWords(words) && WfDefs(locals)
    case Comp(c) => WfCompound(c)
  }

  predicate WfCompound(c: Compound)
    decreases c, 1
  {
    match c
    case Group(body) => WfList(body)
    case Test(_, cond) => WfCond(cond)
    case Arithmetic(items) => items != [] && WfGroup(items)
    case For(_, words, body) => WfWords(words) && WfList(body)
    case CFor(init, test, body, step) => WfGroup(init) && WfGroup(test) && WfList(body) && WfGroup(step)
    case While(_, guard, body) => WfList(guard) && WfList(body)
    case If(clauses, otherwise) => clauses != [] && WfClauses(clauses) && WfLogics(otherwise)
    case Case(word, arms) => WfWord(word) && WfArms(arms)
  }

  predicate WfClauses(cs: seq<Clause>)
    decreases cs
  {
    cs != [] ==> WfList(cs[0].cond) && WfList(cs[0].body) && WfClauses(cs[1..])
  }

  predicate WfArms(arms: seq<Arm>)
    decreases arms
  {
    arms != [] ==> WfArm(arms[0]) && WfArms(arms[1..])
  }

  predicate WfArm(a: Arm)
    decreases a
  {
    WfBranches(a.patterns) && WfLogics(a.body)
  }
}
