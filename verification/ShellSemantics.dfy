/** Commands as a recursive interpreter over the tree. Loops, calls and nested scripts need not end:
    `n` bounds them, and None means that the bound was too small. Exceptions are outcomes. */
module ShellSemantics {
  import opened Text
  import opened VariableStore
  import opened ArithmeticSyntax
  import opened ArithmeticSemantics
  import opened ShellSyntax
  import opened Arrays
  import opened Backtick
  import Echo

  /** A parsed script. */
  type Script = items: seq<Logic> | WfList(items) witness [Single(Command([], Simple([[Plain(":")]], [], false)))]

  /** A pattern after expansion. */
  datatype Glob = Exactly(s: string) | AnyString | AnyChar

  /** What the interpreter takes from outside: the parsers, word splitting and pattern matching. */
  datatype World = World(
    arith: ArithParser,
    script: string -> Option<Script>,
    locals: string -> Option<Script>,
    split: (string, string) -> seq<string>,
    matches: (string, seq<seq<Glob>>) -> bool)

  datatype Outcome = Normal | Break(count: int) | Continue(count: int) | Return | Fail

  /** `texts` holds what was written to every stream opened so far; out, err and inp say which of them
      are current. */
  datatype State = State(vars: Store, bodies: map<string, Compound>, status: int,
                         texts: seq<string>, out: nat, err: nat, inp: nat)

  datatype Got<+T> = Got(out: Outcome, v: T, st: State)

  datatype Run = Run(out: Outcome, st: State)

  // ---- Loop signals ----

  datatype Signal = Again | Stop(out: Outcome)

  /** What a loop does with the outcome of its body: `rethrow_unless_correct_frame` lets a count other
      than 1 out, one smaller. */
  function LoopSignal(out: Outcome): Signal {
    match out
    case Normal => Again
    case Continue(k) => if k == 1 then Again else Stop(Continue(k - 1))
    case Break(k) => if k == 1 then Stop(Normal) else Stop(Break(k - 1))
    case Return => Stop(Return)
    case Fail => Stop(Fail)
  }

  // ---- Streams ----

  function TextAt(st: State, i: nat): string { if i < |st.texts| then st.texts[i] else "" }

  function WriteOut(st: State, s: string): State {
    if st.out < |st.texts| then st.(texts := st.texts[st.out := st.texts[st.out] + s]) else st
  }

  /** current_streams: whatever happened, the three streams are those of `before`. */
  function WithStreamsOf(st: State, before: State): State {
    st.(out := before.out, err := before.err, inp := before.inp)
  }

  function OpenStream(st: State): State { st.(texts := st.texts + [""]) }

  // ---- Words ----

  function ArithResult(r: Res, st: State): Got<string> {
    if r.Val? then Got(Normal, FromInt(r.v), st.(vars := r.st)) else Got(Fail, "", st.(vars := r.st))
  }

  /** Subscripted or not, the value of a variable as text. */
  function NameText(v: Name, r: Res, st: State): Got<string> {
    if r.Val? && r.v >= 0 then Got(Normal, ResolveString(r.st, v.base, r.v), st.(vars := r.st))
    else Got(Fail, "", st.(vars := r.st))
  }

  function EvalPart(w: World, p: Part, st: State, n: nat): Option<Got<string>>
    decreases n, 1, 0
  {
    match p
    case Plain(s) => Some(Got(Normal, s, st))
    case Quoted(s) => Some(Got(Normal, s, st))
    case VarPart(v) =>
      var r :- EvalIndex(w.arith, v, st.vars, n);
      Some(NameText(v, r, st))
    case ArgPart(i) => Some(Got(Normal, ResolveString(st.vars, if i != 0 then "*" else "0", i), st))
    case ArithPart(items) =>
      var r :- EvalGroup(w.arith, items, st.vars, n);
      Some(ArithResult(r, st))
    case SubPart(raw) => RunSub(w, raw, st, n)
  }

  /** The text between the delimiters of a command substitution. */
  function Inner(raw: string): string {
    if raw != "" && raw[0] == '`' then Unescaped(if |raw| >= 2 then raw[1..|raw| - 1] else "")
    else if |raw| >= 3 then raw[2..|raw| - 1]
    else ""
  }

  /** A command substitution runs its script with the output going to a stream of its own. */
  function RunSub(w: World, raw: string, st: State, n: nat): Option<Got<string>>
    decreases n, 0
  {
    if n == 0 then None
    else match w.script(Inner(raw))
      case None => Some(Got(Fail, "", WithStreamsOf(OpenStream(st), st)))
      case Some(items) =>
        var r :- ExecList(w, items, OpenStream(st).(out := |st.texts|), n - 1);
        Some(Got(r.out, if r.out.Normal? then TrimEols(TextAt(r.st, |st.texts|)) else "", WithStreamsOf(r.st, st)))
  }

  function EvalWord(w: World, ps: Word, st: State, n: nat): Option<Got<string>>
    decreases n, 1, |ps| + 1
  {
    if ps == [] then Some(Got(Normal, "", st))
    else
      var g :- EvalPart(w, ps[0], st, n);
      if g.out != Normal then Some(g)
      else
        var rest :- EvalWord(w, ps[1..], g.st, n);
        Some(rest.(v := g.v + rest.v))
  }

  /** Only the last piece decides whether a word counts as quoted. */
  predicate IsQuoted(ps: Word) { ps == [] || ps[|ps| - 1].Quoted? }

  /** What one argument adds to the list: nothing if empty, itself if quoted or not split. */
  function ArgumentWords(w: World, s: string, keep: bool, vars: Store): seq<string> {
    if s == "" then [] else if keep then [s] else w.split(s, Ifs(vars))
  }

  function EvalArguments(w: World, args: seq<Word>, split: bool, st: State, n: nat): Option<Got<seq<string>>>
    decreases n, 2, |args|
  {
    if args == [] then Some(Got(Normal, [], st))
    else
      var g :- EvalWord(w, args[0], st, n);
      if g.out != Normal then Some(Got(g.out, [], g.st))
      else
        var rest :- EvalArguments(w, args[1..], split, g.st, n);
        Some(rest.(v := ArgumentWords(w, g.v, IsQuoted(args[0]) || !split, g.st.vars) + rest.v))
  }

  /** A quoted word of a `for` is kept even when empty. */
  function ForWords(w: World, s: string, quoted: bool, vars: Store): seq<string> {
    if quoted then [s] else w.split(s, Ifs(vars))
  }

  function EvalForWords(w: World, words: seq<Word>, st: State, n: nat): Option<Got<seq<string>>>
    decreases n, 2, |words|
  {
    if words == [] then Some(Got(Normal, [], st))
    else
      var g :- EvalWord(w, words[0], st, n);
      if g.out != Normal then Some(Got(g.out, [], g.st))
      else
        var rest :- EvalForWords(w, words[1..], g.st, n);
        Some(rest.(v := ForWords(w, g.v, IsQuoted(words[0]), g.st.vars) + rest.v))
  }

  // ---- Definitions and redirections ----

  function AssignText(local: bool, base: string, index: nat, s: string, st: State): Run {
    var r := if local then DefineLocal(st.vars, base, Var(map[index := Str(s)], false))
             else SetValue(st.vars, base, Str(s), index);
    match r case Some(vars) => Run(Normal, st.(vars := vars)) case None => Run(Fail, st)
  }

  function ExecDef(w: World, d: Def, local: bool, st: State, n: nat): Option<Run>
    decreases n, 2, 0
  {
    var i :- EvalIndex(w.arith, d.v, st.vars, n);
    var st1 := st.(vars := i.st);
    if i.Exc? then Some(Run(Fail, st1))
    else
      var g :- EvalWord(w, if d.value.Some? then d.value.value else [], st1, n);
      Some(if g.out != Normal then Run(g.out, g.st) else AssignText(local, d.v.base, i.v, g.v, g.st))
  }

  function ExecDefs(w: World, ds: seq<Def>, local: bool, st: State, n: nat): Option<Run>
    decreases n, 2, |ds| + 1
  {
    if ds == [] then Some(Run(Normal, st))
    else
      var r :- ExecDef(w, ds[0], local, st, n);
      if r.out != Normal then Some(r) else ExecDefs(w, ds[1..], local, r.st, n)
  }

  function ExecRedirect(w: World, r: Redirect, st: State, n: nat): Option<Run>
    decreases n, 2, 0
  {
    var g :- EvalWord(w, r.target, st, n);
    var o := OpenStream(g.st);
    var id := |g.st.texts|;
    Some(if g.out != Normal then Run(g.out, g.st)
         else Run(Normal, if r.input then o.(inp := id) else o.(out := id)))
  }

  function ExecRedirects(w: World, rs: seq<Redirect>, st: State, n: nat): Option<Run>
    decreases n, 2, |rs| + 1
  {
    if rs == [] then Some(Run(Normal, st))
    else
      var r :- ExecRedirect(w, rs[0], st, n);
      if r.out != Normal then Some(r) else ExecRedirects(w, rs[1..], r.st, n)
  }

  // ---- Conditions ----

  function CompareTexts(op: CompareOp, l: string, r: string): bool {
    match op
    case Same => l == r
    case Differs => l != r
    case Before => Less(l, r)
    case _ => Less(r, l)
  }

  function CompareNumbers(op: CompareOp, l: int, r: int): bool {
    match op
    case NumEq => l == r case NumNe => l != r
    case NumLt => l < r case NumLe => l <= r
    case NumGt => l > r case _ => l >= r
  }

  predicate Numeric(op: CompareOp) { op in {NumEq, NumNe, NumLt, NumLe, NumGt, NumGe} }

  /** A numeric test evaluates both texts as expressions. */
  function TestNumbers(w: World, op: CompareOp, l: string, r: string, st: State, n: nat): Option<Got<bool>> {
    var x :- EvalText(w.arith, l, st.vars, n);
    if x.Exc? then Some(Got(Fail, false, st.(vars := x.st)))
    else
      var y :- EvalText(w.arith, r, x.st, n);
      Some(if y.Exc? then Got(Fail, false, st.(vars := y.st))
           else Got(Normal, CompareNumbers(op, x.v, y.v), st.(vars := y.st)))
  }

  function EvalCompare(w: World, op: CompareOp, l: Word, r: Word, st: State, n: nat): Option<Got<bool>>
    decreases n, 2, 0
  {
    var x :- EvalWord(w, l, st, n);
    if x.out != Normal then Some(Got(x.out, false, x.st))
    else
      var y :- EvalWord(w, r, x.st, n);
      if y.out != Normal then Some(Got(y.out, false, y.st))
      else if Numeric(op) then TestNumbers(w, op, x.v, y.v, y.st, n)
      else Some(Got(Normal, CompareTexts(op, x.v, y.v), y.st))
  }

  function EvalPrim(w: World, p: Prim, st: State, n: nat): Option<Got<bool>>
    decreases n, 2, 1
  {
    match p
    case Compare(op, l, r) => EvalCompare(w, op, l, r, st, n)
    case IsEmpty(negated, x) =>
      var g :- EvalWord(w, x, st, n);
      Some(Got(g.out, (g.v == "") != negated, g.st))
    case NonEmpty(x) =>
      var g :- EvalWord(w, x, st, n);
      Some(Got(g.out, g.v != "", g.st))
  }

  /** `[[ ]]` (keyword) stops at a deciding left operand; `[ ]` always evaluates both. */
  function EvalCond(w: World, keyword: bool, c: Cond, st: State, n: nat): Option<Got<bool>>
    decreases n, 3, c
  {
    match c
    case Basic(p) => EvalPrim(w, p, st, n)
    case Negate(e) =>
      var g :- EvalCond(w, keyword, e, st, n);
      Some(g.(v := !g.v))
    case _ =>
      var x :- EvalCond(w, keyword, c.l, st, n);
      if x.out != Normal || (keyword && x.v == c.Either?) then Some(x)
      else
        var y :- EvalCond(w, keyword, c.r, x.st, n);
        Some(y.(v := if c.Either? then x.v || y.v else x.v && y.v))
  }

  // ---- Commands ----

  function ExecList(w: World, items: seq<Logic>, st: State, n: nat): Option<Run>
    decreases n, 6, items, 0
  {
    if items == [] then Some(Run(Normal, st))
    else
      var r :- ExecLogic(w, items[0], st, n);
      if r.out != Normal then Some(r) else ExecList(w, items[1..], r.st, n)
  }

  function ExecLogic(w: World, l: Logic, st: State, n: nat): Option<Run>
    decreases n, 6, l, 0
  {
    if l.Single? then ExecCommand(w, l.c, st, n)
    else
      var r :- ExecLogic(w, l.left, st, n);
      if r.out != Normal || ((r.st.status == 0) != l.AndThen?) then Some(r) else ExecCommand(w, l.c, r.st, n)
  }

  function ExecCommand(w: World, c: Command, st: State, n: nat): Option<Run>
    decreases n, 6, c, 0
  {
    var r :- ExecRedirects(w, c.redirects, st, n);
    if r.out != Normal then Some(r.(st := WithStreamsOf(r.st, st)))
    else
      var a :- ExecAtom(w, c.atom, r.st, n);
      Some(a.(st := WithStreamsOf(a.st, st)))
  }

  function ExecAtom(w: World, a: Atom, st: State, n: nat): Option<Run>
    decreases n, 6, a, 0
  {
    match a
    case Defs(local, defs) => ExecDefs(w, defs, local, st, n)
    case FunDef(name, body) => Some(DefineFunction(Concat(name), body, st))
    case Simple(words, locals, bang) => ExecSimple(w, words, locals, bang, st, n)
    case Comp(c) => ExecCompound(w, c, st, n)
  }

  // ---- Functions ----

  function Concat(ss: seq<string>): string { if ss == [] then "" else ss[0] + Concat(ss[1..]) }

  predicate Special(c: char) { c in {'$', '\'', '"', '(', ')', ' ', '\n', '\r'} }

  /** check_function_name: an optional digit, one character that is neither digit nor special, then
      no special ones. */
  predicate IsFunctionName(s: string) {
    var t := if s != "" && IsDigit(s[0]) then s[1..] else s;
    t != "" && !IsDigit(t[0]) && forall i | 0 <= i < |t| :: !Special(t[i])
  }

  /** `insert` keeps a function that is already defined. */
  function DefineFunction(name: string, body: Compound, st: State): Run {
    if !IsFunctionName(name) then Run(Fail, st)
    else if name in st.bodies then Run(Normal, st)
    else Run(Normal, st.(bodies := st.bodies[name := body]))
  }

  /** Names that run without a scope of their own. */
  predicate OwnScope(name: string) { name !in {"local", "set", "declare", "eval"} }

  predicate SplitsArguments(name: string) { name !in {"local", "export", "declare"} }

  function ExecSimple(w: World, words: seq<Word>, locals: seq<Def>, bang: bool, st: State, n: nat): Option<Run>
    decreases n, 5
  {
    if words == [] then Some(Run(Normal, st))
    else
      var g :- EvalWord(w, words[0], st, n);
      if g.out != Normal then Some(Run(g.out, g.st))
      else
        var a :- EvalArguments(w, words[1..], SplitsArguments(g.v), g.st, n);
        if a.out != Normal then Some(Run(a.out, a.st))
        else ExecNamed(w, g.v, a.v, locals, bang, a.st, n)
  }

  /** execute_command: a local scope around the definitions, the function or builtin and the `!`. */
  function ExecNamed(w: World, name: string, args: seq<string>, locals: seq<Def>, bang: bool, st: State, n: nat): Option<Run>
    decreases n, 4
  {
    var r :- ExecInScope(w, name, args, locals, bang, if OwnScope(name) then EnterScope(st) else st, n);
    Some(if OwnScope(name) then Run(r.out, LeaveScope(r.st)) else r)
  }

  function EnterScope(st: State): State { st.(vars := PushScope(st.vars)) }

  function LeaveScope(st: State): State { if st.vars.frames == [] then st else st.(vars := PopScope(st.vars)) }

  function ExecInScope(w: World, name: string, args: seq<string>, locals: seq<Def>, bang: bool, st: State, n: nat): Option<Run>
    decreases n, 3
  {
    var d :- ExecDefs(w, locals, true, st, n);
    if d.out != Normal then Some(d)
    else
      var r :- Dispatch(w, if name == "" then ":" else name, args, d.st, n);
      Some(if r.out == Normal && bang then r.(st := r.st.(status := if r.st.status == 0 then 1 else 0)) else r)
  }

  /** A function first, then a builtin; anything else is an error with status 1. */
  function Dispatch(w: World, name: string, args: seq<string>, st: State, n: nat): Option<Run>
    decreases n, 2, 0
  {
    if name in st.bodies then Call(w, name, args, st, n)
    else if name in NestingBuiltins() then NestedScript(w, name, args, st, n)
    else Some(Builtin(name, args, st))
  }

  function NestingBuiltins(): set<string> { {"eval", "local"} }

  /** The arguments become `*` of the innermost frame; `return` ends the call normally. */
  function Call(w: World, name: string, args: seq<string>, st: State, n: nat): Option<Run>
    requires name in st.bodies
    decreases n, 1
  {
    if n == 0 then None
    else match DefineLocal(st.vars, "*", Var(Positional(args), false))
      case None => Some(Run(Fail, st))
      case Some(vars) =>
        var r :- ExecCompound(w, st.bodies[name], st.(vars := vars), n - 1);
        Some(if r.out == Return then Run(Normal, r.st) else r)
  }

  /** eval runs its arguments joined by blanks; local parses them as local definitions, unjoined. */
  function NestedScript(w: World, name: string, args: seq<string>, st: State, n: nat): Option<Run>
    decreases n, 1
  {
    if n == 0 then None
    else match if name == "eval" then w.script(Join(args, " ")) else w.locals(Concat(args))
      case None => Some(Run(Fail, st))
      case Some(items) =>
        var r :- ExecList(w, items, st, n - 1);
        Some(if r.out == Normal && name == "local" then Run(Normal, r.st.(status := 0)) else r)
  }

  /** The count of break and continue: one by default, at least one. */
  function LoopCount(args: seq<string>): Option<int> {
    if args == [] then Some(1)
    else if |args| > 1 then None
    else match ToInt(args[0])
      case Some(k) => if k >= 1 then Some(k) else None
      case None => None
  }

  function WithStatus(st: State, status: int): Run { Run(Normal, st.(status := status)) }

  function Builtin(name: string, args: seq<string>, st: State): Run {
    if name in {":", "true"} then WithStatus(st, 0)
    else if name == "false" then WithStatus(st, 1)
    else if name == "echo" then
      (match Echo.Output(args) case Some(text) => WithStatus(WriteOut(st, text), 0) case None => Run(Fail, st))
    else if name == "break" then (match LoopCount(args) case Some(k) => Run(Break(k), st) case None => Run(Fail, st))
    else if name == "continue" then (match LoopCount(args) case Some(k) => Run(Continue(k), st) case None => Run(Fail, st))
    else if name == "return" then ReturnBuiltin(args, st)
    else if name == "shift" then ShiftBuiltin(args, st)
    else if name == "set" then SetBuiltin(args, st)
    else Run(Fail, st.(status := 1))
  }

  function ReturnBuiltin(args: seq<string>, st: State): Run {
    if args == [] then Run(Return, st)
    else if |args| > 1 then Run(Fail, st)
    else match ToInt(args[0])
      case Some(k) => Run(Return, st.(status := k))
      case None => Run(Fail, st)
  }

  function ShiftBuiltin(args: seq<string>, st: State): Run {
    if |args| > 1 then Run(Fail, st)
    else match if args == [] then Some(1) else ToInt(args[0])
      case None => Run(Fail, st)
      case Some(k) =>
        match ShiftStar(st.vars, k)
        case None => Run(Fail, st)
        case Some((status, vars)) => WithStatus(st.(vars := vars), status)
  }

  /** Only `set --`. */
  function SetBuiltin(args: seq<string>, st: State): Run {
    if args == [] || !("--" <= args[0]) then Run(Fail, st)
    else WithStatus(st.(vars := SetPositional(st.vars, args[1..])), 0)
  }

  // ---- Compound commands ----

  function ExecCompound(w: World, c: Compound, st: State, n: nat): Option<Run>
    decreases n, 6, c, 1
  {
    match c
    case Group(body) => ExecList(w, body, st, n)
    case Test(keyword, cond) =>
      var g :- EvalCond(w, keyword, cond, st, n);
      Some(if g.out == Normal then WithStatus(g.st, if g.v then 0 else 1) else Run(g.out, g.st))
    case Arithmetic(items) =>
      var r :- EvalGroup(w.arith, items, st.vars, n);
      Some(Run(if r.Val? then Normal else Fail, st.(vars := r.st)))
    case For(name, words, body) => ExecFor(w, name, words, body, st, n)
    case CFor(init, test, body, step) =>
      var r :- ExecExpression(w, init, st, n);
      if r.out != Normal then Some(r) else CForLoop(w, test, body, step, r.st, n)
    case While(until, guard, body) => WhileLoop(w, until, guard, body, st, n)
    case If(clauses, otherwise) =>
      var g :- ExecClauses(w, clauses, st, n);
      if g.out != Normal || g.v then Some(Run(g.out, g.st)) else ExecList(w, otherwise, g.st, n)
    case Case(word, arms) =>
      var g :- EvalWord(w, word, st, n);
      if g.out != Normal then Some(Run(g.out, g.st)) else ExecArms(w, g.v, arms, g.st, n)
  }

  lemma LoopMeaning(w: World, c: Compound, st: State, n: nat)
    ensures c.While? ==> ExecCompound(w, c, st, n) == WhileLoop(w, c.until, c.guard, c.body, st, n)
    ensures c.For? ==> ExecCompound(w, c, st, n) == ExecFor(w, c.name, c.words, c.body, st, n)
    ensures c.CFor? ==>
      ExecCompound(w, c, st, n) == (var r :- ExecExpression(w, c.init, st, n);
       if r.out != Normal then Some(r) else CForLoop(w, c.test, c.body, c.step, r.st, n))
  {
  }

  lemma BranchMeaning(w: World, c: Compound, st: State, n: nat)
    ensures c.If? ==>
      ExecCompound(w, c, st, n) == (var g :- ExecClauses(w, c.clauses, st, n);
       if g.out != Normal || g.v then Some(Run(g.out, g.st)) else ExecList(w, c.otherwise, g.st, n))
    ensures c.Case? ==>
      ExecCompound(w, c, st, n) == (var g :- EvalWord(w, c.word, st, n);
       if g.out != Normal then Some(Run(g.out, g.st)) else ExecArms(w, g.v, c.arms, g.st, n))
    ensures c.Test? ==>
      ExecCompound(w, c, st, n) == (var g :- EvalCond(w, c.keyword, c.cond, st, n);
       Some(if g.out == Normal then WithStatus(g.st, if g.v then 0 else 1) else Run(g.out, g.st)))
  {
  }

  /** A clause matches when its condition ends with status 0; then its commands run. */
  function ExecClause(w: World, c: Clause, st: State, n: nat): Option<Got<bool>>
    decreases n, 6, c, 0
  {
    var r :- ExecList(w, c.cond, st, n);
    if r.out != Normal || r.st.status != 0 then Some(Got(r.out, false, r.st))
    else
      var b :- ExecList(w, c.body, r.st, n);
      Some(Got(b.out, true, b.st))
  }

  /** Only the first clause that matches runs. */
  function ExecClauses(w: World, clauses: seq<Clause>, st: State, n: nat): Option<Got<bool>>
    decreases n, 6, clauses, 0
  {
    if clauses == [] then Some(Got(Normal, false, st))
    else
      var g :- ExecClause(w, clauses[0], st, n);
      if g.out != Normal || g.v then Some(g) else ExecClauses(w, clauses[1..], g.st, n)
  }

  /** An arm's patterns are expanded, and its commands run if one of them matches. */
  function ExecArm(w: World, target: string, a: Arm, st: State, n: nat): Option<Got<bool>>
    decreases n, 6, a, 0
  {
    var g :- EvalBranches(w, a.patterns, st, n);
    if g.out != Normal || !w.matches(target, g.v) then Some(Got(g.out, false, g.st))
    else
      var r :- ExecList(w, a.body, g.st, n);
      Some(Got(r.out, true, r.st))
  }

  /** Arms are tried in order up to the one that matches. */
  function ExecArms(w: World, target: string, arms: seq<Arm>, st: State, n: nat): Option<Run>
    decreases n, 6, arms, 0
  {
    if arms == [] then Some(Run(Normal, st))
    else
      var g :- ExecArm(w, target, arms[0], st, n);
      if g.out != Normal || g.v then Some(Run(g.out, g.st)) else ExecArms(w, target, arms[1..], g.st, n)
  }

  function EvalPat(w: World, p: PatItem, st: State, n: nat): Option<Got<Glob>>
    decreases n, 1, 1
  {
    match p
    case PatText(part) =>
      var g :- EvalPart(w, part, st, n);
      Some(Got(g.out, Exactly(g.v), g.st))
    case PatAny => Some(Got(Normal, AnyString, st))
    case PatOne => Some(Got(Normal, AnyChar, st))
  }

  function EvalBranch(w: World, b: seq<PatItem>, st: State, n: nat): Option<Got<seq<Glob>>>
    decreases n, 2, |b|
  {
    if b == [] then Some(Got(Normal, [], st))
    else
      var g :- EvalPat(w, b[0], st, n);
      if g.out != Normal then Some(Got(g.out, [], g.st))
      else
        var rest :- EvalBranch(w, b[1..], g.st, n);
        Some(rest.(v := [g.v] + rest.v))
  }

  function EvalBranches(w: World, bs: seq<seq<PatItem>>, st: State, n: nat): Option<Got<seq<seq<Glob>>>>
    decreases n, 3, |bs|
  {
    if bs == [] then Some(Got(Normal, [], st))
    else
      var g :- EvalBranch(w, bs[0], st, n);
      if g.out != Normal then Some(Got(g.out, [], g.st))
      else
        var rest :- EvalBranches(w, bs[1..], g.st, n);
        Some(rest.(v := [g.v] + rest.v))
  }

  // ---- Loops ----

  /** `while` stops on a guard status of exactly 1, `until` on 0. */
  function WhileLoop(w: World, until: bool, guard: seq<Logic>, body: seq<Logic>, st: State, n: nat): Option<Run>
    decreases n, 1
  {
    if n == 0 then None
    else
      var g :- ExecList(w, guard, st, n - 1);
      if g.out != Normal || g.st.status == (if until then 0 else 1) then Some(g)
      else
        var r :- ExecList(w, body, g.st, n - 1);
        match LoopSignal(r.out)
        case Again => WhileLoop(w, until, guard, body, r.st, n - 1)
        case Stop(out) => Some(Run(out, r.st))
  }

  /** All positional parameters when there is no word list; an empty one sets status 0. */
  function ExecFor(w: World, name: string, words: seq<Word>, body: seq<Logic>, st: State, n: nat): Option<Run>
    decreases n, 3, 0
  {
    if words == [] then ForLoop(w, name, StarValues(st), body, st, n)
    else
      var g :- EvalForWords(w, words, st, n);
      if g.out != Normal then Some(Run(g.out, g.st))
      else if g.v == [] then Some(WithStatus(g.st, 0))
      else ForLoop(w, name, g.v, body, g.st, n)
  }

  function StarValues(st: State): seq<string> {
    match Resolve(st.vars, "*") case Some(v) => AllValues(v.values) case None => []
  }

  function ForLoop(w: World, name: string, values: seq<string>, body: seq<Logic>, st: State, n: nat): Option<Run>
    decreases n, 1
  {
    if values == [] then Some(Run(Normal, st))
    else if n == 0 then None
    else match SetValue(st.vars, name, Str(values[0]), 0)
      case None => Some(Run(Fail, st))
      case Some(vars) =>
        var r :- ExecList(w, body, st.(vars := vars), n - 1);
        match LoopSignal(r.out)
        case Again => ForLoop(w, name, values[1..], body, r.st, n - 1)
        case Stop(out) => Some(Run(out, r.st))
  }

  /** An absent expression does nothing. */
  function ExecExpression(w: World, items: seq<Arith>, st: State, n: nat): Option<Run> {
    var r :- EvalGroup(w.arith, items, st.vars, n);
    Some(Run(if r.Val? then Normal else Fail, st.(vars := r.st)))
  }

  /** The modification runs after `continue` as after a normal end of the body. */
  function CForLoop(w: World, test: seq<Arith>, body: seq<Logic>, step: seq<Arith>, st: State, n: nat): Option<Run>
    decreases n, 1
  {
    if n == 0 then None
    else
      var t :- EvalGroup(w.arith, test, st.vars, n - 1);
      var st1 := st.(vars := t.st);
      if t.Exc? then Some(Run(Fail, st1))
      else if test != [] && t.v == 0 then Some(Run(Normal, st1))
      else
        var r :- ExecList(w, body, st1, n - 1);
        match LoopSignal(r.out)
        case Stop(out) => Some(Run(out, r.st))
        case Again =>
          var m :- ExecExpression(w, step, r.st, n - 1);
          if m.out != Normal then Some(m) else CForLoop(w, test, body, step, m.st, n - 1)
  }
}
