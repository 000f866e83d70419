/** break and continue inside nested loops: a command stands at some place in a nest of loops of any
    kinds, reached after any number of finished turns of each of them, and its signal travels out. */
module LoopControl {
  import opened Text
  import opened ArithmeticSyntax
  import opened ArithmeticSemantics
  import opened VariableStore
  import opened Arrays
  import opened ShellSyntax
  import opened ShellSemantics
  import opened ShellFacts

  datatype LoopKind =
    | AWhile(until: bool, guard: seq<Logic>)
    | AFor(name: string, words: seq<Word>)
    | ACFor(init: seq<Arith>, test: seq<Arith>, step: seq<Arith>)

  /** A place for a command inside a command. `turn` counts the finished turns of a loop. A call and a
      nested script lead on into the function's body and the script that the words evaluate to. */
  datatype Context =
    | Hole
    | InGroup(at: Items)
    | InCond(earlier: seq<Clause>, at: Items, body: seq<Logic>, later: seq<Clause>, otherwise: seq<Logic>)
    | InClause(earlier: seq<Clause>, cond: seq<Logic>, at: Items, later: seq<Clause>, otherwise: seq<Logic>)
    | InElse(clauses: seq<Clause>, at: Items)
    | InCase(word: Word, before: seq<Arm>, patterns: seq<seq<PatItem>>, at: Items, behind: seq<Arm>)
    | InGuard(until: bool, at: Items, body: seq<Logic>, turn: nat)
    | InLoop(kind: LoopKind, at: Items, turn: nat)
    | InScript(words: seq<Word>, locals: seq<Def>, bang: bool, at: Items)
    | InCall(words: seq<Word>, locals: seq<Def>, bang: bool, called: Context)

  /** A place inside a list: somewhere in a chain of `&&` and `||`. */
  datatype Items = Items(before: seq<Logic>, lead: Option<Lead>, redirects: seq<Redirect>, inner: Context,
                         chain: seq<Link>, after: seq<Logic>)

  datatype Lead = Lead(and: bool, left: Logic)

  datatype Link = Link(and: bool, c: Command)

  function LoopOf(k: LoopKind, body: seq<Logic>): Compound {
    match k
    case AWhile(until, guard) => While(until, guard, body)
    case AFor(name, words) => For(name, words, body)
    case ACFor(init, test, step) => CFor(init, test, body, step)
  }

  /** The command with `a` in the place. A call shows nothing of the body. */
  function Plug(x: Context, a: Atom): Atom
    decreases x
  {
    match x
    case Hole => a
    case InGroup(at) => Comp(Group(PlugItems(at, a)))
    case InCond(earlier, at, body, later, otherwise) =>
      Comp(If(earlier + ([Clause(PlugItems(at, a), body)] + later), otherwise))
    case InClause(earlier, cond, at, later, otherwise) =>
      Comp(If(earlier + ([Clause(cond, PlugItems(at, a))] + later), otherwise))
    case InElse(clauses, at) => Comp(If(clauses, PlugItems(at, a)))
    case InCase(word, before, patterns, at, behind) =>
      Comp(Case(word, before + ([Arm(patterns, PlugItems(at, a))] + behind)))
    case InGuard(until, at, body, _) => Comp(While(until, PlugItems(at, a), body))
    case InLoop(kind, at, _) => Comp(LoopOf(kind, PlugItems(at, a)))
    case InScript(words, locals, bang, _) => Simple(words, locals, bang)
    case InCall(words, locals, bang, _) => Simple(words, locals, bang)
  }

  function PlugItems(i: Items, a: Atom): seq<Logic>
    decreases i
  {
    i.before + ([Chained(Item(i.lead, Command(i.redirects, Plug(i.inner, a))), i.chain)] + i.after)
  }

  function Item(lead: Option<Lead>, c: Command): Logic {
    match lead
    case None => Single(c)
    case Some(l) => if l.and then AndThen(l.left, c) else OrElse(l.left, c)
  }

  function Chained(l: Logic, chain: seq<Link>): Logic
    decreases |chain|
  {
    if chain == [] then l
    else Chained(if chain[0].and then AndThen(l, chain[0].c) else OrElse(l, chain[0].c), chain[1..])
  }

  /** One step inwards. */
  function Inner(x: Context): (y: Context)
    requires !x.Hole?
    ensures y < x
  {
    if x.InCall? then x.called else x.at.inner
  }

  /** The number of loops around the place. A guard is outside its loop: what it throws is not caught
      there. */
  function Loops(x: Context): nat
    decreases x
  {
    if x.Hole? then 0 else (if x.InLoop? then 1 else 0) + Loops(Inner(x))
  }

  /** Whether the place is in the body of a function called from here, which `return` ends. */
  predicate InFunction(x: Context)
    decreases x
  {
    !x.Hole? && (x.InCall? || InFunction(Inner(x)))
  }

  // ---- A loop at the start of a turn ----

  datatype Loop =
    | WhileL(until: bool, guard: seq<Logic>)
    | ForL(name: string, values: seq<string>)
    | CForL(test: seq<Arith>, step: seq<Arith>)

  /** A loop about to start a turn. */
  datatype Head = Head(l: Loop, st: State, n: nat)

  function RunLoop(w: World, h: Head, body: seq<Logic>): Option<Run> {
    match h.l
    case WhileL(until, guard) => WhileLoop(w, until, guard, body, h.st, h.n)
    case ForL(name, values) => ForLoop(w, name, values, body, h.st, h.n)
    case CForL(test, step) => CForLoop(w, test, body, step, h.st, h.n)
  }

  /** The head of the first turn, if the loop gets that far. */
  function Start(w: World, k: LoopKind, st: State, n: nat): Option<Head> {
    match k
    case AWhile(until, guard) => Some(Head(WhileL(until, guard), st, n))
    case AFor(name, words) =>
      if words == [] then Some(Head(ForL(name, StarValues(st)), st, n))
      else
        var g :- EvalForWords(w, words, st, n);
        if g.out != Normal || g.v == [] then None else Some(Head(ForL(name, g.v), g.st, n))
    case ACFor(init, test, step) =>
      var r :- ExecExpression(w, init, st, n);
      if r.out != Normal then None else Some(Head(CForL(test, step), r.st, n))
  }

  /** The state in which the turn's body starts, if the loop does not end first. */
  function Enter(w: World, h: Head): Option<State> {
    if h.n == 0 then None
    else match h.l
      case WhileL(until, guard) =>
        var g :- ExecList(w, guard, h.st, h.n - 1);
        if g.out != Normal || g.st.status == (if until then 0 else 1) then None else Some(g.st)
      case ForL(name, values) =>
        if values == [] then None
        else
          var vars :- SetValue(h.st.vars, name, Str(values[0]), 0);
          Some(h.st.(vars := vars))
      case CForL(test, step) =>
        var t :- EvalGroup(w.arith, test, h.st.vars, h.n - 1);
        if t.Exc? || (test != [] && t.v == 0) then None else Some(h.st.(vars := t.st))
  }

  /** What follows a turn whose body ended in st: the modification of a C-style loop runs, then the
      next turn starts. */
  function GoOn(w: World, h: Head, body: seq<Logic>, st: State): Option<Run>
    requires h.n > 0
  {
    match h.l
    case WhileL(_, _) => RunLoop(w, Head(h.l, st, h.n - 1), body)
    case ForL(name, values) => if values == [] then None else RunLoop(w, Head(ForL(name, values[1..]), st, h.n - 1), body)
    case CForL(_, step) =>
      var m :- ExecExpression(w, step, st, h.n - 1);
      if m.out != Normal then Some(m) else RunLoop(w, Head(h.l, m.st, h.n - 1), body)
  }

  /** The head of the next turn after a body that ended in st. */
  function Next(w: World, h: Head, st: State): Option<Head>
    requires h.n > 0
  {
    match h.l
    case WhileL(_, _) => Some(Head(h.l, st, h.n - 1))
    case ForL(name, values) => if values == [] then None else Some(Head(ForL(name, values[1..]), st, h.n - 1))
    case CForL(_, step) =>
      var m :- ExecExpression(w, step, st, h.n - 1);
      if m.out != Normal then None else Some(Head(h.l, m.st, h.n - 1))
  }

  /** The head after `turn` whole turns. */
  function HeadAt(w: World, h: Head, body: seq<Logic>, turn: nat): Option<Head>
    decreases turn
  {
    if turn == 0 then Some(h)
    else
      var inside :- Enter(w, h);
      var r :- ExecList(w, body, inside, h.n - 1);
      if LoopSignal(r.out) != Again then None
      else
        var next :- Next(w, h, r.st);
        HeadAt(w, next, body, turn - 1)
  }

  /** One turn: the body's outcome decides. */
  lemma Turn(w: World, h: Head, body: seq<Logic>, inside: State, r: Run)
    requires Enter(w, h) == Some(inside) && ExecList(w, body, inside, h.n - 1) == Some(r)
    ensures h.n > 0
    ensures RunLoop(w, h, body) == (match LoopSignal(r.out) case Stop(out) => Some(Run(out, r.st)) case Again => GoOn(w, h, body, r.st))
  {
    hide ExecList, EvalGroup, SetValue;
  }

  lemma EnterKeeps(w: World, h: Head, inside: State)
    requires Enter(w, h) == Some(inside)
    ensures Kept(h.st, inside)
  {
    hide ExecList, EvalGroup;
    match h.l
    case WhileL(until, guard) => ListFacts(w, guard, h.st, h.n - 1, h.n - 1);
    case ForL(name, values) =>
    case CForL(test, step) => GroupMore(w.arith, test, h.st.vars, h.n - 1, h.n - 1);
  }

  lemma NextKeeps(w: World, h: Head, st: State, next: Head)
    requires h.n > 0 && Next(w, h, st) == Some(next)
    ensures Kept(st, next.st)
  {
    hide EvalGroup;
    if h.l.CForL? { GroupMore(w.arith, h.l.step, st.vars, h.n - 1, h.n - 1); }
  }

  lemma StartKeeps(w: World, k: LoopKind, st: State, n: nat, h: Head)
    requires Start(w, k, st, n) == Some(h)
    ensures Kept(st, h.st)
  {
    hide EvalGroup, EvalForWords;
    match k
    case AWhile(_, _) =>
    case AFor(_, words) => if words != [] { ForWordFacts(w, words, st, n, n); }
    case ACFor(init, _, _) => GroupMore(w.arith, init, st.vars, n, n);
  }

  /** A loop that gets to the head of a later turn goes on from there. */
  lemma {:induction false} LaterTurn(w: World, h: Head, body: seq<Logic>, turn: nat, later: Head)
    requires HeadAt(w, h, body, turn) == Some(later)
    ensures RunLoop(w, h, body) == RunLoop(w, later, body)
    ensures Kept(h.st, later.st)
    decreases turn
  {
    hide RunLoop, ExecList, Enter;
    if turn > 0 {
      var inside := Enter(w, h).value;
      var r := ExecList(w, body, inside, h.n - 1).value;
      EnterKeeps(w, h, inside);
      Turn(w, h, body, inside, r);
      ListFacts(w, body, inside, h.n - 1, h.n - 1);
      var next := Next(w, h, r.st).value;
      NextKeeps(w, h, r.st, next);
      LaterTurn(w, next, body, turn - 1, later);
    }
  }

  lemma LoopStarts(w: World, k: LoopKind, body: seq<Logic>, st: State, n: nat, h: Head)
    requires Start(w, k, st, n) == Some(h)
    ensures ExecAtom(w, Comp(LoopOf(k, body)), st, n) == RunLoop(w, h, body)
  {
    hide EvalGroup, EvalForWords, WhileLoop, ForLoop, CForLoop, ExecCompound;
    LoopMeaning(w, LoopOf(k, body), st, n);
  }

  // ---- Reaching the place ----

  datatype At = At(st: State, n: nat)

  function ReachLead(w: World, lead: Option<Lead>, st: State, n: nat): Option<State> {
    match lead
    case None => Some(st)
    case Some(l) =>
      var r :- ExecLogic(w, l.left, st, n);
      if r.out != Normal || ((r.st.status == 0) != l.and) then None else Some(r.st)
  }

  /** The state and bound with which the command in the place runs, if it does. */
  function ReachItems(w: World, i: Items, a: Atom, st: State, n: nat): Option<At>
    decreases i
  {
    var r :- ExecList(w, i.before, st, n);
    if r.out != Normal then None
    else
      var left :- ReachLead(w, i.lead, r.st, n);
      var d :- ExecRedirects(w, i.redirects, left, n);
      if d.out != Normal then None else Reach(w, i.inner, a, d.st, n)
  }

  function Reach(w: World, x: Context, a: Atom, st: State, n: nat): Option<At>
    decreases x
  {
    match x
    case Hole => Some(At(st, n))
    case InGroup(at) => ReachItems(w, at, a, st, n)
    case InCond(earlier, at, _, _, _) =>
      var s :- NoClause(w, earlier, st, n);
      ReachItems(w, at, a, s, n)
    case InClause(earlier, cond, at, _, _) =>
      var s :- ReachClause(w, earlier, cond, st, n);
      ReachItems(w, at, a, s, n)
    case InElse(clauses, at) =>
      var s :- NoClause(w, clauses, st, n);
      ReachItems(w, at, a, s, n)
    case InCase(word, before, patterns, at, _) =>
      var s :- ReachArm(w, word, before, patterns, st, n);
      ReachItems(w, at, a, s, n)
    case InGuard(until, at, body, turn) =>
      var h :- HeadAt(w, Head(WhileL(until, PlugItems(at, a)), st, n), body, turn);
      if h.n == 0 then None else ReachItems(w, at, a, h.st, h.n - 1)
    case InLoop(kind, at, turn) =>
      var h :- ReachTurn(w, kind, PlugItems(at, a), turn, st, n);
      var inside :- Enter(w, h);
      ReachItems(w, at, a, inside, if h.n > 0 then h.n - 1 else 0)
    case InScript(words, locals, _, at) =>
      var s :- ReachScript(w, words, locals, PlugItems(at, a), st, n);
      ReachItems(w, at, a, s, if n > 0 then n - 1 else 0)
    case InCall(words, locals, _, called) =>
      var s :- ReachBody(w, words, locals, Plug(called, a), st, n);
      Reach(w, called, a, s, if n > 0 then n - 1 else 0)
  }

  /** The state behind clauses of which none matches. */
  function NoClause(w: World, clauses: seq<Clause>, st: State, n: nat): Option<State> {
    var g :- ExecClauses(w, clauses, st, n);
    if g.out != Normal || g.v then None else Some(g.st)
  }

  /** The state behind a condition that holds. */
  function ReachClause(w: World, earlier: seq<Clause>, cond: seq<Logic>, st: State, n: nat): Option<State> {
    var s :- NoClause(w, earlier, st, n);
    var r :- ExecList(w, cond, s, n);
    if r.out != Normal || r.st.status != 0 then None else Some(r.st)
  }

  /** The state behind arms of which none matches. */
  function NoArm(w: World, target: string, arms: seq<Arm>, st: State, n: nat): Option<State>
    decreases |arms|
  {
    if arms == [] then Some(st)
    else
      var g :- ExecArm(w, target, arms[0], st, n);
      if g.out != Normal || g.v then None else NoArm(w, target, arms[1..], g.st, n)
  }

  /** The state behind patterns of which one matches. */
  function ReachArm(w: World, word: Word, before: seq<Arm>, patterns: seq<seq<PatItem>>, st: State, n: nat): Option<State> {
    var g :- EvalWord(w, word, st, n);
    if g.out != Normal then None
    else
      var s :- NoArm(w, g.v, before, g.st, n);
      var p :- EvalBranches(w, patterns, s, n);
      if p.out != Normal || !w.matches(g.v, p.v) then None else Some(p.st)
  }

  /** A simple command about to run: its name, its arguments, and the state behind its definitions. */
  datatype Ready = Ready(name: string, args: seq<string>, st: State)

  function ReachNamed(w: World, words: seq<Word>, locals: seq<Def>, st: State, n: nat): Option<Ready> {
    if words == [] then None
    else
      var g :- EvalWord(w, words[0], st, n);
      if g.out != Normal then None
      else
        var args :- EvalArguments(w, words[1..], SplitsArguments(g.v), g.st, n);
        if args.out != Normal then None
        else
          var d :- ExecDefs(w, locals, true, if OwnScope(g.v) then EnterScope(args.st) else args.st, n);
          if d.out != Normal then None else Some(Ready(if g.v == "" then ":" else g.v, args.v, d.st))
  }

  /** The state in which the script that the command nests starts, if it is the given one. */
  function ReachScript(w: World, words: seq<Word>, locals: seq<Def>, script: seq<Logic>, st: State, n: nat): Option<State> {
    var r :- ReachNamed(w, words, locals, st, n);
    if n == 0 || r.name in r.st.bodies || r.name !in NestingBuiltins() then None
    else
      var items :- if r.name == "eval" then w.script(Join(r.args, " ")) else w.locals(Concat(r.args));
      if items != script then None else Some(r.st)
  }

  /** The state in which the body of the function that the command calls starts, if it is the given one. */
  function ReachBody(w: World, words: seq<Word>, locals: seq<Def>, body: Atom, st: State, n: nat): Option<State> {
    var r :- ReachNamed(w, words, locals, st, n);
    if n == 0 || r.name !in r.st.bodies || Comp(r.st.bodies[r.name]) != body then None
    else
      var vars :- DefineLocal(r.st.vars, "*", Var(Positional(r.args), false));
      Some(r.st.(vars := vars))
  }

  /** The head of the turn in which the loop is. */
  function ReachTurn(w: World, kind: LoopKind, body: seq<Logic>, turn: nat, st: State, n: nat): Option<Head> {
    var h :- Start(w, kind, st, n);
    HeadAt(w, h, body, turn)
  }

  // ---- A signal on its way out ----

  /** What is left of a signal after d loops. */
  function Passed(o: Outcome, d: nat): Outcome {
    match o
    case Break(k) => Break(k - d)
    case Continue(k) => Continue(k - d)
    case _ => o
  }

  /** The signal is meant for no loop around the place: break and continue for one further out, return
      for a function further out, an error for none. */
  predicate Leaves(o: Outcome, x: Context) {
    match o
    case Normal => false
    case Break(k) => k > Loops(x)
    case Continue(k) => k > Loops(x)
    case Return => !InFunction(x)
    case Fail => true
  }

  /** The state s unwound to where st was: deeper scopes are gone, and the streams are those of st. */
  function BackTo(s: State, st: State): State {
    var d := if |st.vars.frames| <= |s.vars.frames| then |st.vars.frames| else |s.vars.frames|;
    WithStreamsOf(s.(vars := s.vars.(frames := s.vars.frames[..d])), st)
  }

  predicate SameDepth(a: State, b: State) { |a.vars.frames| == |b.vars.frames| }

  predicate SameStreams(a: State, b: State) { (a.out, a.err, a.inp) == (b.out, b.err, b.inp) }

  lemma BackToAgain(s: State, mid: State, st: State)
    ensures SameDepth(mid, st) ==> WithStreamsOf(BackTo(s, mid), st) == BackTo(s, st)
    ensures SameDepth(mid, st) && SameStreams(mid, st) ==> BackTo(s, mid) == BackTo(s, st)
    ensures SameDepth(s, st) && SameStreams(s, st) ==> BackTo(s, st) == s
  {
    if SameDepth(s, st) { assert s.vars.frames[..|st.vars.frames|] == s.vars.frames; }
  }

  lemma {:induction false} ListPrefix(w: World, before: seq<Logic>, rest: seq<Logic>, st: State, n: nat)
    requires ExecList(w, before, st, n).Some? && ExecList(w, before, st, n).value.out == Normal
    ensures ExecList(w, before + rest, st, n) == ExecList(w, rest, ExecList(w, before, st, n).value.st, n)
    decreases |before|
  {
    hide ExecLogic;
    if before == [] {
      assert before + rest == rest;
    } else {
      assert (before + rest)[0] == before[0] && (before + rest)[1..] == before[1..] + rest;
      ListPrefix(w, before[1..], rest, ExecLogic(w, before[0], st, n).value.st, n);
    }
  }

  lemma ListStops(w: World, item: Logic, after: seq<Logic>, st: State, n: nat)
    requires ExecLogic(w, item, st, n).Some? && ExecLogic(w, item, st, n).value.out != Normal
    ensures ExecList(w, [item] + after, st, n) == ExecLogic(w, item, st, n)
  {
    hide ExecLogic;
    assert ([item] + after)[0] == item;
  }

  lemma LeadKeeps(w: World, lead: Option<Lead>, c: Command, st: State, n: nat, left: State)
    requires ReachLead(w, lead, st, n) == Some(left)
    ensures Kept(st, left)
    ensures ExecLogic(w, Item(lead, c), st, n) == ExecCommand(w, c, left, n)
  {
    hide ExecCommand;
    if lead.Some? { LogicFacts(w, lead.value.left, st, n, n); }
  }

  lemma {:induction false} ChainStops(w: World, l: Logic, chain: seq<Link>, st: State, n: nat)
    requires ExecLogic(w, l, st, n).Some? && ExecLogic(w, l, st, n).value.out != Normal
    ensures ExecLogic(w, Chained(l, chain), st, n) == ExecLogic(w, l, st, n)
    decreases |chain|
  {
    hide ExecCommand;
    if chain != [] {
      ChainStops(w, if chain[0].and then AndThen(l, chain[0].c) else OrElse(l, chain[0].c), chain[1..], st, n);
    }
  }

  /** A signal that leaves the list's place ends the list. */
  lemma {:induction false} OutOfItems(w: World, i: Items, a: Atom, st: State, n: nat, h: At, r: Run)
    requires ReachItems(w, i, a, st, n) == Some(h) && ExecAtom(w, a, h.st, h.n) == Some(r)
    requires Leaves(r.out, i.inner)
    ensures ExecList(w, PlugItems(i, a), st, n) == Some(Run(Passed(r.out, Loops(i.inner)), BackTo(r.st, st)))
    decreases i
  {
    hide ExecList, ExecLogic, ExecRedirects, ExecAtom, Reach, Loops, BackTo, Chained;
    var c := Command(i.redirects, Plug(i.inner, a));
    var l := Item(i.lead, c);
    var b := ExecList(w, i.before, st, n).value;
    ListFacts(w, i.before, st, n, n);
    ListPrefix(w, i.before, [Chained(l, i.chain)] + i.after, st, n);
    var left := ReachLead(w, i.lead, b.st, n).value;
    LeadKeeps(w, i.lead, c, b.st, n, left);
    RedirectFacts(w, i.redirects, left, n, n);
    var d := ExecRedirects(w, i.redirects, left, n).value.st;
    SignalLeaves(w, i.inner, a, d, n, h, r);
    BackToAgain(r.st, d, left);
    BackToAgain(r.st, left, st);
    ChainStops(w, l, i.chain, b.st, n);
    ListStops(w, Chained(l, i.chain), i.after, b.st, n);
  }

  /** A signal that counts more loops than there are around the place leaves with the rest of its count,
      and so do return, unless a function call on the way ends it, and errors. No later turn and no later
      command runs. */
  lemma {:induction false} SignalLeaves(w: World, x: Context, a: Atom, st: State, n: nat, h: At, r: Run)
    requires Reach(w, x, a, st, n) == Some(h) && ExecAtom(w, a, h.st, h.n) == Some(r)
    requires Leaves(r.out, x)
    ensures ExecAtom(w, Plug(x, a), st, n) == Some(Run(Passed(r.out, Loops(x)), BackTo(r.st, st)))
    decreases x
  {
    hide ExecList, ExecClauses, Enter, Reach, ReachItems, ReachTurn, PlugItems, ExecCompound, ExecSimple, ExecDefs, BackTo;
    match x
    case Hole => HoleFacts(w, a, st, n, h);
    case InGroup(_) => OutOfGroup(w, x, a, st, n, h, r);
    case InCond(_, _, _, _, _) => OutOfCond(w, x, a, st, n, h, r);
    case InClause(_, _, _, _, _) => OutOfClause(w, x, a, st, n, h, r);
    case InElse(_, _) => OutOfElse(w, x, a, st, n, h, r);
    case InCase(_, _, _, _, _) => OutOfCase(w, x, a, st, n, h, r);
    case InGuard(_, _, _, _) => OutOfGuard(w, x, a, st, n, h, r);
    case InLoop(_, _, _) => OutOfLoop(w, x, a, st, n, h, r);
    case InScript(_, _, _, _) => OutOfScript(w, x, a, st, n, h, r);
    case InCall(_, _, _, _) => OutOfCall(w, x, a, st, n, h, r);
  }

  lemma HoleFacts(w: World, a: Atom, st: State, n: nat, h: At)
    requires Reach(w, Hole, a, st, n) == Some(h) && ExecAtom(w, a, h.st, h.n).Some?
    ensures h == At(st, n) && BackTo(ExecAtom(w, a, st, n).value.st, st) == ExecAtom(w, a, st, n).value.st
    ensures forall o :: Passed(o, 0) == o
  {
    hide ExecAtom, BackTo;
    AtomFacts(w, a, st, n, n);
    BackToAgain(ExecAtom(w, a, st, n).value.st, st, st);
  }

  lemma {:induction false} OutOfGroup(w: World, x: Context, a: Atom, st: State, n: nat, h: At, r: Run)
    requires x.InGroup? && Reach(w, x, a, st, n) == Some(h) && ExecAtom(w, a, h.st, h.n) == Some(r)
    requires Leaves(r.out, x)
    ensures ExecAtom(w, Plug(x, a), st, n) == Some(Run(Passed(r.out, Loops(x)), BackTo(r.st, st)))
    decreases x, 0
  {
    hide ExecList, ReachItems, PlugItems, BackTo;
    OutOfItems(w, x.at, a, st, n, h, r);
  }

  lemma {:induction false} OutOfLoop(w: World, x: Context, a: Atom, st: State, n: nat, h: At, r: Run)
    requires x.InLoop? && Reach(w, x, a, st, n) == Some(h) && ExecAtom(w, a, h.st, h.n) == Some(r)
    requires Leaves(r.out, x)
    ensures ExecAtom(w, Plug(x, a), st, n) == Some(Run(Passed(r.out, Loops(x)), BackTo(r.st, st)))
    decreases x, 0
  {
    hide ExecAtom, ExecList, Enter, ReachTurn, ReachItems, PlugItems, BackTo;
    var body := PlugItems(x.at, a);
    var head := ReachTurn(w, x.kind, body, x.turn, st, n).value;
    var inside := Enter(w, head).value;
    EnterBound(w, head);
    OutOfItems(w, x.at, a, inside, head.n - 1, h, r);
    var end := Run(Passed(r.out, Loops(x.at.inner)), BackTo(r.st, inside));
    OneMoreLoop(r.out, x);
    TurnOf(w, x.kind, body, x.turn, st, n, head, inside, end);
    BackToAgain(r.st, inside, st);
  }

  /** What a guard throws is not the loop's to catch. */
  lemma {:induction false} OutOfGuard(w: World, x: Context, a: Atom, st: State, n: nat, h: At, r: Run)
    requires x.InGuard? && Reach(w, x, a, st, n) == Some(h) && ExecAtom(w, a, h.st, h.n) == Some(r)
    requires Leaves(r.out, x)
    ensures ExecAtom(w, Plug(x, a), st, n) == Some(Run(Passed(r.out, Loops(x)), BackTo(r.st, st)))
    decreases x, 0
  {
    hide ExecAtom, ExecList, HeadAt, ReachItems, PlugItems, BackTo, RunLoop;
    var guard := PlugItems(x.at, a);
    var first := Head(WhileL(x.until, guard), st, n);
    var head := HeadAt(w, first, x.body, x.turn).value;
    OutOfItems(w, x.at, a, head.st, head.n - 1, h, r);
    LoopStarts(w, AWhile(x.until, guard), x.body, st, n, first);
    LaterTurn(w, first, x.body, x.turn, head);
    SameGuard(w, first, x.body, x.turn, head);
    GuardStops(w, head, x.body, Run(Passed(r.out, Loops(x.at.inner)), BackTo(r.st, head.st)));
    BackToAgain(r.st, head.st, st);
  }

  lemma {:induction false} SameGuard(w: World, h: Head, body: seq<Logic>, turn: nat, later: Head)
    requires h.l.WhileL? && HeadAt(w, h, body, turn) == Some(later)
    ensures later.l == h.l
    decreases turn
  {
    hide ExecList, Enter;
    if turn > 0 {
      EnterBound(w, h);
      var r := ExecList(w, body, Enter(w, h).value, h.n - 1).value;
      SameGuard(w, Next(w, h, r.st).value, body, turn - 1, later);
    }
  }

  lemma GuardStops(w: World, h: Head, body: seq<Logic>, r: Run)
    requires h.l.WhileL? && h.n > 0 && ExecList(w, h.l.guard, h.st, h.n - 1) == Some(r) && r.out != Normal
    ensures RunLoop(w, h, body) == Some(r)
  {
    hide ExecList;
  }

  lemma OneMoreLoop(o: Outcome, x: Context)
    requires x.InLoop? && Leaves(o, x)
    ensures Leaves(o, x.at.inner)
    ensures LoopSignal(Passed(o, Loops(x.at.inner))) == Stop(Passed(o, Loops(x)))
  {
  }

  lemma {:induction false} ClausesPrefix(w: World, earlier: seq<Clause>, rest: seq<Clause>, st: State, n: nat)
    requires ExecClauses(w, earlier, st, n).Some?
    requires var g := ExecClauses(w, earlier, st, n).value; g.out == Normal && !g.v
    ensures ExecClauses(w, earlier + rest, st, n) == ExecClauses(w, rest, ExecClauses(w, earlier, st, n).value.st, n)
    decreases |earlier|
  {
    hide ExecClause;
    if earlier == [] {
      assert earlier + rest == rest;
    } else {
      assert (earlier + rest)[0] == earlier[0] && (earlier + rest)[1..] == earlier[1..] + rest;
      ClausesPrefix(w, earlier[1..], rest, ExecClause(w, earlier[0], st, n).value.st, n);
    }
  }

  lemma NoClauseFacts(w: World, earlier: seq<Clause>, rest: seq<Clause>, st: State, n: nat, s: State)
    requires NoClause(w, earlier, st, n) == Some(s)
    ensures Kept(st, s) && ExecClauses(w, earlier + rest, st, n) == ExecClauses(w, rest, s, n)
  {
    hide ExecClauses;
    ClauseFacts(w, earlier, st, n, n);
    ClausesPrefix(w, earlier, rest, st, n);
  }

  lemma {:induction false} OutOfElse(w: World, x: Context, a: Atom, st: State, n: nat, h: At, r: Run)
    requires x.InElse? && Reach(w, x, a, st, n) == Some(h) && ExecAtom(w, a, h.st, h.n) == Some(r)
    requires Leaves(r.out, x)
    ensures ExecAtom(w, Plug(x, a), st, n) == Some(Run(Passed(r.out, Loops(x)), BackTo(r.st, st)))
    decreases x, 0
  {
    hide ExecList, ExecClauses, ReachItems, PlugItems, ExecCompound, BackTo;
    var s := NoClause(w, x.clauses, st, n).value;
    ClauseFacts(w, x.clauses, st, n, n);
    OutOfItems(w, x.at, a, s, n, h, r);
    BackToAgain(r.st, s, st);
    BranchMeaning(w, If(x.clauses, PlugItems(x.at, a)), st, n);
  }

  lemma {:induction false} OutOfCond(w: World, x: Context, a: Atom, st: State, n: nat, h: At, r: Run)
    requires x.InCond? && Reach(w, x, a, st, n) == Some(h) && ExecAtom(w, a, h.st, h.n) == Some(r)
    requires Leaves(r.out, x)
    ensures ExecAtom(w, Plug(x, a), st, n) == Some(Run(Passed(r.out, Loops(x)), BackTo(r.st, st)))
    decreases x, 0
  {
    hide ExecList, ExecClauses, ReachItems, PlugItems, ExecCompound, BackTo, NoClause;
    var clause := Clause(PlugItems(x.at, a), x.body);
    var s := NoClause(w, x.earlier, st, n).value;
    NoClauseFacts(w, x.earlier, [clause] + x.later, st, n, s);
    OutOfItems(w, x.at, a, s, n, h, r);
    BackToAgain(r.st, s, st);
    ClauseThrows(w, clause, x.later, s, n);
    BranchMeaning(w, If(x.earlier + ([clause] + x.later), x.otherwise), st, n);
  }

  lemma ClauseThrows(w: World, clause: Clause, later: seq<Clause>, st: State, n: nat)
    requires var t := ExecList(w, clause.cond, st, n); t.Some? && t.value.out != Normal
    ensures var t := ExecList(w, clause.cond, st, n).value;
            ExecClauses(w, [clause] + later, st, n) == Some(Got(t.out, false, t.st))
  {
    hide ExecList;
    assert ([clause] + later)[0] == clause;
  }

  lemma {:induction false} OutOfClause(w: World, x: Context, a: Atom, st: State, n: nat, h: At, r: Run)
    requires x.InClause? && Reach(w, x, a, st, n) == Some(h) && ExecAtom(w, a, h.st, h.n) == Some(r)
    requires Leaves(r.out, x)
    ensures ExecAtom(w, Plug(x, a), st, n) == Some(Run(Passed(r.out, Loops(x)), BackTo(r.st, st)))
    decreases x, 0
  {
    hide ExecList, ExecClauses, ReachItems, PlugItems, ExecCompound, BackTo, NoClause;
    var clause := Clause(x.cond, PlugItems(x.at, a));
    var s := NoClause(w, x.earlier, st, n).value;
    NoClauseFacts(w, x.earlier, [clause] + x.later, st, n, s);
    ListFacts(w, x.cond, s, n, n);
    var t := ExecList(w, x.cond, s, n).value;
    OutOfItems(w, x.at, a, t.st, n, h, r);
    BackToAgain(r.st, t.st, st);
    FirstClause(w, clause, x.later, s, n);
    BranchMeaning(w, If(x.earlier + ([clause] + x.later), x.otherwise), st, n);
  }

  lemma {:induction false} NoArmFacts(w: World, target: string, before: seq<Arm>, rest: seq<Arm>, st: State, n: nat, s: State)
    requires NoArm(w, target, before, st, n) == Some(s)
    ensures Kept(st, s) && ExecArms(w, target, before + rest, st, n) == ExecArms(w, target, rest, s, n)
    decreases |before|
  {
    hide ExecArm;
    if before == [] {
      assert before + rest == rest;
    } else {
      assert (before + rest)[0] == before[0] && (before + rest)[1..] == before[1..] + rest;
      OneArmFacts(w, target, before[0], st, n, n);
      NoArmFacts(w, target, before[1..], rest, ExecArm(w, target, before[0], st, n).value.st, n, s);
    }
  }

  lemma FirstArm(w: World, target: string, arm: Arm, behind: seq<Arm>, st: State, n: nat)
    requires var p := EvalBranches(w, arm.patterns, st, n); p.Some? && p.value.out == Normal && w.matches(target, p.value.v)
    requires ExecList(w, arm.body, EvalBranches(w, arm.patterns, st, n).value.st, n).Some?
    ensures var b := ExecList(w, arm.body, EvalBranches(w, arm.patterns, st, n).value.st, n).value;
            ExecArms(w, target, [arm] + behind, st, n) == Some(Run(b.out, b.st))
  {
    hide ExecList, EvalBranches;
    assert ([arm] + behind)[0] == arm;
  }

  lemma {:induction false} OutOfCase(w: World, x: Context, a: Atom, st: State, n: nat, h: At, r: Run)
    requires x.InCase? && Reach(w, x, a, st, n) == Some(h) && ExecAtom(w, a, h.st, h.n) == Some(r)
    requires Leaves(r.out, x)
    ensures ExecAtom(w, Plug(x, a), st, n) == Some(Run(Passed(r.out, Loops(x)), BackTo(r.st, st)))
    decreases x, 0
  {
    hide ExecList, ExecArms, EvalWord, EvalBranches, ReachItems, PlugItems, ExecCompound, BackTo, NoArm;
    var arm := Arm(x.patterns, PlugItems(x.at, a));
    var g := EvalWord(w, x.word, st, n).value;
    WordFacts(w, x.word, st, n, n);
    var s := NoArm(w, g.v, x.before, g.st, n).value;
    NoArmFacts(w, g.v, x.before, [arm] + x.behind, g.st, n, s);
    BranchesFacts(w, x.patterns, s, n, n);
    var p := EvalBranches(w, x.patterns, s, n).value;
    OutOfItems(w, x.at, a, p.st, n, h, r);
    BackToAgain(r.st, p.st, st);
    FirstArm(w, g.v, arm, x.behind, s, n);
    BranchMeaning(w, Case(x.word, x.before + ([arm] + x.behind)), st, n);
  }

  // ---- Out of functions and nested scripts ----

  /** How a simple command that gets to its name takes the outcome of what the name stands for. */
  lemma NamedRuns(w: World, words: seq<Word>, locals: seq<Def>, bang: bool, st: State, n: nat, m: Ready, r: Run)
    requires ReachNamed(w, words, locals, st, n) == Some(m) && Dispatch(w, m.name, m.args, m.st, n) == Some(r)
    requires |r.st.vars.frames| == |m.st.vars.frames|
    ensures |m.st.vars.frames| >= |st.vars.frames| && SameStreams(m.st, st)
    ensures ExecAtom(w, Simple(words, locals, bang), st, n) ==
            Some(Run(r.out, Negated(r.out == Normal && bang, Unscoped(r.st, st))))
  {
    hide EvalWord, EvalArguments, ExecDefs, Dispatch, Appended, Extends;
    var g := EvalWord(w, words[0], st, n).value;
    WordFacts(w, words[0], st, n, n);
    var args := EvalArguments(w, words[1..], SplitsArguments(g.v), g.st, n).value;
    ArgumentFacts(w, words[1..], SplitsArguments(g.v), g.st, n, n);
    var inside := if OwnScope(g.v) then EnterScope(args.st) else args.st;
    DefsFacts(w, locals, true, inside, n, n);
    assert ExecInScope(w, g.v, args.v, locals, bang, inside, n) == Some(Run(r.out, Negated(r.out == Normal && bang, r.st)));
    if OwnScope(g.v) {
      assert |r.st.vars.frames| == |st.vars.frames| + 1;
    } else {
      assert r.st.vars.frames[..|st.vars.frames|] == r.st.vars.frames;
    }
    assert ExecNamed(w, g.v, args.v, locals, bang, args.st, n) == Some(Run(r.out, Negated(r.out == Normal && bang, Unscoped(r.st, st))));
    assert ExecSimple(w, words, locals, bang, st, n) == ExecNamed(w, g.v, args.v, locals, bang, args.st, n);
  }

  /** `!` turns the status around. */
  function Negated(bang: bool, s: State): State {
    if bang then s.(status := if s.status == 0 then 1 else 0) else s
  }

  /** Scopes deeper than those of st are gone. */
  function Unscoped(s: State, st: State): State {
    if |st.vars.frames| <= |s.vars.frames| then s.(vars := s.vars.(frames := s.vars.frames[..|st.vars.frames|])) else s
  }

  lemma UnscopedBack(s: State, mid: State, st: State)
    requires |mid.vars.frames| >= |st.vars.frames| && SameStreams(mid, st)
    ensures Unscoped(BackTo(s, mid), st) == BackTo(s, st)
  {
    var d := if |mid.vars.frames| <= |s.vars.frames| then |mid.vars.frames| else |s.vars.frames|;
    var e := if |st.vars.frames| <= d then |st.vars.frames| else d;
    assert s.vars.frames[..d][..e] == s.vars.frames[..e];
  }

  lemma {:induction false} OutOfScript(w: World, x: Context, a: Atom, st: State, n: nat, h: At, r: Run)
    requires x.InScript? && Reach(w, x, a, st, n) == Some(h) && ExecAtom(w, a, h.st, h.n) == Some(r)
    requires Leaves(r.out, x)
    ensures ExecAtom(w, Plug(x, a), st, n) == Some(Run(Passed(r.out, Loops(x)), BackTo(r.st, st)))
    decreases x, 0
  {
    hide ExecAtom, ExecList, ExecCompound, ReachItems, PlugItems, BackTo, ReachNamed, Unscoped, Join, Concat;
    var m := ReachNamed(w, x.words, x.locals, st, n).value;
    var script := PlugItems(x.at, a);
    OutOfItems(w, x.at, a, m.st, n - 1, h, r);
    var end := Run(Passed(r.out, Loops(x)), BackTo(r.st, m.st));
    ListFacts(w, script, m.st, n - 1, n - 1);
    assert Dispatch(w, m.name, m.args, m.st, n) == NestedScript(w, m.name, m.args, m.st, n) == Some(end);
    NamedRuns(w, x.words, x.locals, x.bang, st, n, m, end);
    UnscopedBack(r.st, m.st, st);
  }

  lemma {:induction false} OutOfCall(w: World, x: Context, a: Atom, st: State, n: nat, h: At, r: Run)
    requires x.InCall? && Reach(w, x, a, st, n) == Some(h) && ExecAtom(w, a, h.st, h.n) == Some(r)
    requires Leaves(r.out, x)
    ensures ExecAtom(w, Plug(x, a), st, n) == Some(Run(Passed(r.out, Loops(x)), BackTo(r.st, st)))
    decreases x, 0
  {
    hide ExecAtom, ExecList, ExecCompound, BackTo, ReachNamed, Unscoped, DefineLocal, Positional;
    var m := ReachNamed(w, x.words, x.locals, st, n).value;
    var s := ReachBody(w, x.words, x.locals, Plug(x.called, a), st, n).value;
    SignalLeaves(w, x.called, a, s, n - 1, h, r);
    var end := Run(Passed(r.out, Loops(x)), BackTo(r.st, s));
    CallRuns(w, m, s, n, end);
    NamedRuns(w, x.words, x.locals, x.bang, st, n, m, end);
    UnscopedBack(r.st, s, st);
  }

  /** A call ends as its body does, but for return. */
  lemma CallRuns(w: World, m: Ready, s: State, n: nat, r: Run)
    requires n > 0 && m.name in m.st.bodies
    requires var vars := DefineLocal(m.st.vars, "*", Var(Positional(m.args), false)); vars.Some? && s == m.st.(vars := vars.value)
    requires ExecAtom(w, Comp(m.st.bodies[m.name]), s, n - 1) == Some(r) && r.out != Return
    ensures SameDepth(s, m.st) && SameStreams(s, m.st) && SameDepth(r.st, s)
    ensures Dispatch(w, m.name, m.args, m.st, n) == Some(r)
  {
    hide ExecCompound, Positional;
    AtomFacts(w, Comp(m.st.bodies[m.name]), s, n - 1, n - 1);
  }

  lemma FirstClause(w: World, clause: Clause, later: seq<Clause>, st: State, n: nat)
    requires var t := ExecList(w, clause.cond, st, n); t.Some? && t.value.out == Normal && t.value.st.status == 0
    requires ExecList(w, clause.body, ExecList(w, clause.cond, st, n).value.st, n).Some?
    ensures var b := ExecList(w, clause.body, ExecList(w, clause.cond, st, n).value.st, n).value;
            ExecClauses(w, [clause] + later, st, n) == Some(Got(b.out, true, b.st))
  {
    hide ExecList;
    assert ([clause] + later)[0] == clause;
  }

  /** How the loop in its current turn takes the outcome of its body. */
  lemma TurnOf(w: World, kind: LoopKind, body: seq<Logic>, turn: nat, st: State, n: nat, h: Head, inside: State, r: Run)
    requires ReachTurn(w, kind, body, turn, st, n) == Some(h)
    requires Enter(w, h) == Some(inside) && ExecList(w, body, inside, h.n - 1) == Some(r)
    ensures h.n > 0 && Kept(st, inside)
    ensures ExecAtom(w, Comp(LoopOf(kind, body)), st, n) ==
            (match LoopSignal(r.out) case Stop(out) => Some(Run(out, r.st)) case Again => GoOn(w, h, body, r.st))
  {
    hide ExecList, Enter, HeadAt, RunLoop, GoOn, ExecAtom, Start;
    var first := Start(w, kind, st, n).value;
    StartKeeps(w, kind, st, n, first);
    LoopStarts(w, kind, body, st, n, first);
    LaterTurn(w, first, body, turn, h);
    EnterKeeps(w, h, inside);
    Turn(w, h, body, inside, r);
  }

  /** break k under exactly k loops ends the outermost of them normally. */
  lemma BreakEnds(w: World, x: Context, a: Atom, st: State, n: nat, h: At, r: Run)
    requires x.InLoop? && Reach(w, x, a, st, n) == Some(h) && ExecAtom(w, a, h.st, h.n) == Some(r)
    requires r.out == Break(Loops(x))
    ensures ExecAtom(w, Plug(x, a), st, n) == Some(Run(Normal, BackTo(r.st, st)))
  {
    hide ExecAtom, ExecList, Enter, ReachTurn, ReachItems, PlugItems, BackTo;
    var body := PlugItems(x.at, a);
    var head := ReachTurn(w, x.kind, body, x.turn, st, n).value;
    var inside := Enter(w, head).value;
    EnterKeeps(w, head, inside);
    assert head.n > 0 by { EnterBound(w, head); }
    OutOfItems(w, x.at, a, inside, head.n - 1, h, r);
    TurnOf(w, x.kind, body, x.turn, st, n, head, inside, Run(Break(1), BackTo(r.st, inside)));
    BackToAgain(r.st, inside, st);
  }

  lemma EnterBound(w: World, h: Head)
    requires Enter(w, h).Some?
    ensures h.n > 0
  {
  }

  /** continue k under exactly k loops starts the next turn of the outermost of them: a C-style loop
      runs its modification first. */
  lemma ContinueGoesOn(w: World, x: Context, a: Atom, st: State, n: nat, h: At, r: Run)
    requires x.InLoop? && Reach(w, x, a, st, n) == Some(h) && ExecAtom(w, a, h.st, h.n) == Some(r)
    requires r.out == Continue(Loops(x))
    ensures ReachTurn(w, x.kind, PlugItems(x.at, a), x.turn, st, n).Some?
    ensures var head := ReachTurn(w, x.kind, PlugItems(x.at, a), x.turn, st, n).value;
            && head.n > 0
            && ExecAtom(w, Plug(x, a), st, n) == GoOn(w, head, PlugItems(x.at, a), BackTo(r.st, st))
            && (Next(w, head, BackTo(r.st, st)).Some? ==>
                  ReachTurn(w, x.kind, PlugItems(x.at, a), x.turn + 1, st, n) == Next(w, head, BackTo(r.st, st)))
  {
    hide ExecAtom, ExecList, Enter, ReachTurn, ReachItems, PlugItems, GoOn, Next, BackTo;
    var body := PlugItems(x.at, a);
    var head := ReachTurn(w, x.kind, body, x.turn, st, n).value;
    var inside := Enter(w, head).value;
    EnterBound(w, head);
    OutOfItems(w, x.at, a, inside, head.n - 1, h, r);
    var b := Run(Continue(1), BackTo(r.st, inside));
    TurnOf(w, x.kind, body, x.turn, st, n, head, inside, b);
    BackToAgain(r.st, inside, st);
    OneTurnLater(w, x.kind, body, x.turn, st, n, head, inside, b);
  }

  lemma OneTurnLater(w: World, kind: LoopKind, body: seq<Logic>, turn: nat, st: State, n: nat, h: Head, inside: State, r: Run)
    requires ReachTurn(w, kind, body, turn, st, n) == Some(h)
    requires h.n > 0 && Enter(w, h) == Some(inside) && ExecList(w, body, inside, h.n - 1) == Some(r) && LoopSignal(r.out) == Again
    ensures ReachTurn(w, kind, body, turn + 1, st, n) == Next(w, h, r.st)
  {
    hide ExecList, Enter, Next, HeadAt, Start;
    HeadAfter(w, Start(w, kind, st, n).value, body, turn, h, inside, r);
  }

  lemma {:induction false} HeadAfter(w: World, first: Head, body: seq<Logic>, turn: nat, h: Head, inside: State, r: Run)
    requires HeadAt(w, first, body, turn) == Some(h)
    requires h.n > 0 && Enter(w, h) == Some(inside) && ExecList(w, body, inside, h.n - 1) == Some(r) && LoopSignal(r.out) == Again
    ensures HeadAt(w, first, body, turn + 1) == Next(w, h, r.st)
    decreases turn
  {
    hide ExecList, Enter, Next;
    if turn == 0 {
      var next := Next(w, h, r.st);
      if next.Some? { assert HeadAt(w, next.value, body, 0) == next; }
    } else {
      EnterBound(w, first);
      var in0 := Enter(w, first).value;
      var r0 := ExecList(w, body, in0, first.n - 1).value;
      HeadAfter(w, Next(w, first, r0.st).value, body, turn - 1, h, inside, r);
    }
  }

  // ---- Cutting a nest in two ----

  function Depth(x: Context): nat
    decreases x
  {
    if x.Hole? then 0 else 1 + Depth(Inner(x))
  }

  /** The part of the nest from its d-th command inwards. */
  function Inside(x: Context, d: nat): Context
    requires d <= Depth(x)
    decreases d
  {
    if d == 0 then x else Inside(Inner(x), d - 1)
  }

  /** The part of the nest around its d-th command. */
  function Outside(x: Context, d: nat): Context
    requires d <= Depth(x)
    decreases d
  {
    if d == 0 then Hole
    else if x.InCall? then x.(called := Outside(x.called, d - 1))
    else x.(at := x.at.(inner := Outside(x.at.inner, d - 1)))
  }

  /** Where the k-th loop is, counted from the innermost. */
  function LoopDepth(x: Context, k: nat): (d: nat)
    requires 1 <= k <= Loops(x)
    ensures d < Depth(x) && Inside(x, d).InLoop? && Loops(Inside(x, d)) == k
    decreases x
  {
    if x.InLoop? && Loops(x) == k then 0 else 1 + LoopDepth(Inner(x), k)
  }

  /** Where the innermost call is. */
  function CallDepth(x: Context): (d: nat)
    requires InFunction(x)
    ensures d < Depth(x) && Inside(x, d).InCall? && !InFunction(Inside(x, d).called)
    decreases x
  {
    if x.InCall? && !InFunction(x.called) then 0 else 1 + CallDepth(Inner(x))
  }

  lemma {:induction false} CutFacts(x: Context, d: nat, a: Atom)
    requires d <= Depth(x)
    ensures Loops(Outside(x, d)) + Loops(Inside(x, d)) == Loops(x)
    ensures Plug(Outside(x, d), Plug(Inside(x, d), a)) == Plug(x, a)
    decreases d
  {
    if d > 0 { CutFacts(Inner(x), d - 1, a); }
  }

  /** To reach the place is to reach the d-th command and, from there, the place. */
  lemma {:induction false} CutReach(w: World, x: Context, d: nat, a: Atom, st: State, n: nat)
    requires d <= Depth(x) && Reach(w, x, a, st, n).Some?
    ensures var mid := Reach(w, Outside(x, d), Plug(Inside(x, d), a), st, n);
            mid.Some? && Reach(w, Inside(x, d), a, mid.value.st, mid.value.n) == Reach(w, x, a, st, n)
    decreases d, 1
  {
    if d == 0 {
      NothingOutside(x, w, a, st, n);
    } else if x.InCall? {
      CutCall(w, x, d, a, st, n);
    } else if x.InScript? {
      CutScript(w, x, d, a, st, n);
    } else if x.InGuard? || x.InLoop? {
      CutLoop(w, x, d, a, st, n);
    } else {
      CutBranch(w, x, d, a, st, n);
    }
  }

  lemma NothingOutside(x: Context, w: World, a: Atom, st: State, n: nat)
    ensures Inside(x, 0) == x && Reach(w, Outside(x, 0), Plug(x, a), st, n) == Some(At(st, n))
  {
    hide Plug;
  }

  lemma OneIn(x: Context, d: nat)
    requires 0 < d <= Depth(x)
    ensures Depth(Inner(x)) == Depth(x) - 1 && Inside(x, d) == Inside(Inner(x), d - 1)
    ensures x.InCall? ==> Outside(x, d) == x.(called := Outside(x.called, d - 1))
    ensures !x.InCall? ==> Outside(x, d) == x.(at := x.at.(inner := Outside(x.at.inner, d - 1)))
  {
  }

  lemma {:induction false} CutCall(w: World, x: Context, d: nat, a: Atom, st: State, n: nat)
    requires 0 < d <= Depth(x) && x.InCall? && Reach(w, x, a, st, n).Some?
    ensures var mid := Reach(w, Outside(x, d), Plug(Inside(x, d), a), st, n);
            mid.Some? && Reach(w, Inside(x, d), a, mid.value.st, mid.value.n) == Reach(w, x, a, st, n)
    decreases d, 0
  {
    hide ExecList, ReachItems, ReachTurn, Enter, HeadAt, NoClause, ReachClause, ReachArm, ReachScript, ReachBody, Plug, PlugItems,
         Inside, Outside;
    OneIn(x, d);
    CutFacts(x.called, d - 1, a);
    var s := ReachBody(w, x.words, x.locals, Plug(x.called, a), st, n).value;
    CutReach(w, x.called, d - 1, a, s, if n > 0 then n - 1 else 0);
  }

  lemma {:induction false} CutScript(w: World, x: Context, d: nat, a: Atom, st: State, n: nat)
    requires 0 < d <= Depth(x) && x.InScript? && Reach(w, x, a, st, n).Some?
    ensures var mid := Reach(w, Outside(x, d), Plug(Inside(x, d), a), st, n);
            mid.Some? && Reach(w, Inside(x, d), a, mid.value.st, mid.value.n) == Reach(w, x, a, st, n)
    decreases d, 0
  {
    hide ExecList, ReachItems, ReachTurn, Enter, HeadAt, NoClause, ReachClause, ReachArm, ReachScript, ReachBody, Plug, PlugItems,
         Inside, Outside;
    OneIn(x, d);
    CutPlugItems(x.at, d - 1, a);
    var s := ReachScript(w, x.words, x.locals, PlugItems(x.at, a), st, n).value;
    CutReachItems(w, x.at, d - 1, a, s, if n > 0 then n - 1 else 0);
  }

  lemma {:induction false} CutLoop(w: World, x: Context, d: nat, a: Atom, st: State, n: nat)
    requires 0 < d <= Depth(x) && (x.InGuard? || x.InLoop?) && Reach(w, x, a, st, n).Some?
    ensures var mid := Reach(w, Outside(x, d), Plug(Inside(x, d), a), st, n);
            mid.Some? && Reach(w, Inside(x, d), a, mid.value.st, mid.value.n) == Reach(w, x, a, st, n)
    decreases d, 0
  {
    hide ExecList, ReachItems, ReachTurn, Enter, HeadAt, NoClause, ReachClause, ReachArm, ReachScript, ReachBody, Plug, PlugItems,
         Inside, Outside;
    OneIn(x, d);
    CutPlugItems(x.at, d - 1, a);
    if x.InGuard? {
      var h := HeadAt(w, Head(WhileL(x.until, PlugItems(x.at, a)), st, n), x.body, x.turn).value;
      CutReachItems(w, x.at, d - 1, a, h.st, h.n - 1);
    } else {
      var h := ReachTurn(w, x.kind, PlugItems(x.at, a), x.turn, st, n).value;
      CutReachItems(w, x.at, d - 1, a, Enter(w, h).value, if h.n > 0 then h.n - 1 else 0);
    }
  }

  lemma {:induction false} CutBranch(w: World, x: Context, d: nat, a: Atom, st: State, n: nat)
    requires 0 < d <= Depth(x) && (x.InGroup? || x.InCond? || x.InClause? || x.InElse? || x.InCase?) && Reach(w, x, a, st, n).Some?
    ensures var mid := Reach(w, Outside(x, d), Plug(Inside(x, d), a), st, n);
            mid.Some? && Reach(w, Inside(x, d), a, mid.value.st, mid.value.n) == Reach(w, x, a, st, n)
    decreases d, 0
  {
    hide ExecList, ReachItems, ReachTurn, Enter, HeadAt, NoClause, ReachClause, ReachArm, ReachScript, ReachBody, Plug, PlugItems,
         Inside, Outside;
    OneIn(x, d);
    if x.InCase? {
      CutReachItems(w, x.at, d - 1, a, ReachArm(w, x.word, x.before, x.patterns, st, n).value, n);
    } else if x.InClause? {
      CutReachItems(w, x.at, d - 1, a, ReachClause(w, x.earlier, x.cond, st, n).value, n);
    } else if x.InCond? {
      CutReachItems(w, x.at, d - 1, a, NoClause(w, x.earlier, st, n).value, n);
    } else if x.InElse? {
      CutReachItems(w, x.at, d - 1, a, NoClause(w, x.clauses, st, n).value, n);
    } else {
      CutReachItems(w, x.at, d - 1, a, st, n);
    }
  }

  lemma CutPlugItems(i: Items, d: nat, a: Atom)
    requires d <= Depth(i.inner)
    ensures PlugItems(i.(inner := Outside(i.inner, d)), Plug(Inside(i.inner, d), a)) == PlugItems(i, a)
  {
    CutFacts(i.inner, d, a);
  }

  lemma {:induction false} CutReachItems(w: World, i: Items, d: nat, a: Atom, st: State, n: nat)
    requires d <= Depth(i.inner) && ReachItems(w, i, a, st, n).Some?
    ensures var mid := ReachItems(w, i.(inner := Outside(i.inner, d)), Plug(Inside(i.inner, d), a), st, n);
            mid.Some? && Reach(w, Inside(i.inner, d), a, mid.value.st, mid.value.n) == ReachItems(w, i, a, st, n)
    decreases d, 2
  {
    hide ExecList, ExecRedirects, ReachLead, Reach, Plug, Depth, Outside, Inside;
    var left := ReachLead(w, i.lead, ExecList(w, i.before, st, n).value.st, n).value;
    CutReach(w, i.inner, d, a, ExecRedirects(w, i.redirects, left, n).value.st, n);
  }

  /** The part of the nest from its k-th loop inwards, and the part around it. */
  function Within(x: Context, k: nat): Context
    requires 1 <= k <= Loops(x)
  {
    Inside(x, LoopDepth(x, k))
  }

  function Around(x: Context, k: nat): Context
    requires 1 <= k <= Loops(x)
  {
    Outside(x, LoopDepth(x, k))
  }

  // ---- The theorems: a command in any nest of d loops ----

  /** With 1 <= k <= d, `break k` ends exactly the k innermost loops: the nest of these k is one command
      in the nest of the other d - k, it is reached there, and it ends normally, with the streams it
      began with. */
  lemma BreakEndsTheInnermost(w: World, x: Context, a: Atom, st: State, n: nat, h: At, r: Run)
    requires Reach(w, x, a, st, n) == Some(h) && ExecAtom(w, a, h.st, h.n) == Some(r)
    requires r.out.Break? && 1 <= r.out.count <= Loops(x)
    ensures var k := r.out.count;
            && Loops(Within(x, k)) == k && Loops(Around(x, k)) == Loops(x) - k
            && Plug(x, a) == Plug(Around(x, k), Plug(Within(x, k), a))
            && var mid := Reach(w, Around(x, k), Plug(Within(x, k), a), st, n);
            && mid.Some?
            && ExecAtom(w, Plug(Within(x, k), a), mid.value.st, mid.value.n) == Some(Run(Normal, BackTo(r.st, mid.value.st)))
  {
    hide ExecAtom, Reach, Plug, Loops, Inside, Outside;
    var k := r.out.count;
    CutFacts(x, LoopDepth(x, k), a);
    CutReach(w, x, LoopDepth(x, k), a, st, n);
    var mid := Reach(w, Around(x, k), Plug(Within(x, k), a), st, n).value;
    BreakEnds(w, Within(x, k), a, mid.st, mid.n, h, r);
  }

  /** With 1 <= k <= d, `continue k` ends the k - 1 innermost loops and goes on with the next turn of the
      k-th. */
  lemma ContinueResumesTheKth(w: World, x: Context, a: Atom, st: State, n: nat, h: At, r: Run)
    requires Reach(w, x, a, st, n) == Some(h) && ExecAtom(w, a, h.st, h.n) == Some(r)
    requires r.out.Continue? && 1 <= r.out.count <= Loops(x)
    ensures var k := r.out.count;
            && Plug(x, a) == Plug(Around(x, k), Plug(Within(x, k), a))
            && var mid := Reach(w, Around(x, k), Plug(Within(x, k), a), st, n);
            && mid.Some? && ResumesTurn(w, Within(x, k), a, mid.value, r.st)
  {
    hide ExecAtom, Reach, Plug, Loops, Inside, Outside, GoOn, Next, ReachTurn, PlugItems;
    var k := r.out.count;
    CutFacts(x, LoopDepth(x, k), a);
    CutReach(w, x, LoopDepth(x, k), a, st, n);
    var mid := Reach(w, Around(x, k), Plug(Within(x, k), a), st, n).value;
    ContinueGoesOn(w, Within(x, k), a, mid.st, mid.n, h, r);
  }

  /** The outermost loop of x, at the end of its turn with the signal's state, goes on: what it does is
      what it does from the head of the next turn. */
  ghost predicate ResumesTurn(w: World, x: Context, a: Atom, from: At, st: State) {
    && x.InLoop?
    && var head := ReachTurn(w, x.kind, PlugItems(x.at, a), x.turn, from.st, from.n);
    && head.Some? && head.value.n > 0
    && var after := BackTo(st, from.st);
    && ExecAtom(w, Plug(x, a), from.st, from.n) == GoOn(w, head.value, PlugItems(x.at, a), after)
    && (Next(w, head.value, after).Some? ==>
          ReachTurn(w, x.kind, PlugItems(x.at, a), x.turn + 1, from.st, from.n) == Next(w, head.value, after))
  }

  /** `return` inside a function, however many loops and scripts deep, ends the innermost call around it
      and nothing else: the call ends normally, in the scopes and streams in which it began, and with
      the status at the `return`, which a `!` before the call turns around. */
  lemma ReturnEndsTheCall(w: World, x: Context, a: Atom, st: State, n: nat, h: At, r: Run)
    requires Reach(w, x, a, st, n) == Some(h) && ExecAtom(w, a, h.st, h.n) == Some(r)
    requires r.out == Return && InFunction(x)
    ensures var call := Inside(x, CallDepth(x)); var around := Outside(x, CallDepth(x));
            && Plug(x, a) == Plug(around, Plug(call, a))
            && var mid := Reach(w, around, Plug(call, a), st, n);
            && mid.Some?
            && ExecAtom(w, Plug(call, a), mid.value.st, mid.value.n) ==
               Some(Run(Normal, Negated(call.bang, BackTo(r.st, mid.value.st))))
  {
    hide ExecAtom, Reach, Plug, Inside, Outside, InFunction, BackTo;
    var d := CallDepth(x);
    CutFacts(x, d, a);
    CutReach(w, x, d, a, st, n);
    var mid := Reach(w, Outside(x, d), Plug(Inside(x, d), a), st, n).value;
    ReturnEnds(w, Inside(x, d), a, mid.st, mid.n, h, r);
  }

  lemma ReturnEnds(w: World, x: Context, a: Atom, st: State, n: nat, h: At, r: Run)
    requires x.InCall? && !InFunction(x.called)
    requires Reach(w, x, a, st, n) == Some(h) && ExecAtom(w, a, h.st, h.n) == Some(r) && r.out == Return
    ensures ExecAtom(w, Plug(x, a), st, n) == Some(Run(Normal, Negated(x.bang, BackTo(r.st, st))))
  {
    hide ExecAtom, BackTo, ReachNamed, Unscoped, DefineLocal, Positional;
    var m := ReachNamed(w, x.words, x.locals, st, n).value;
    var s := ReachBody(w, x.words, x.locals, Plug(x.called, a), st, n).value;
    SignalLeaves(w, x.called, a, s, n - 1, h, r);
    ReturnCaught(w, m, s, n, Run(Return, BackTo(r.st, s)));
    NamedRuns(w, x.words, x.locals, x.bang, st, n, m, Run(Normal, BackTo(r.st, s)));
    UnscopedBack(r.st, s, st);
  }

  lemma ReturnCaught(w: World, m: Ready, s: State, n: nat, r: Run)
    requires n > 0 && m.name in m.st.bodies
    requires var vars := DefineLocal(m.st.vars, "*", Var(Positional(m.args), false)); vars.Some? && s == m.st.(vars := vars.value)
    requires ExecAtom(w, Comp(m.st.bodies[m.name]), s, n - 1) == Some(r) && r.out == Return
    ensures SameDepth(s, m.st) && SameStreams(s, m.st) && SameDepth(r.st, s)
    ensures Dispatch(w, m.name, m.args, m.st, n) == Some(Run(Normal, r.st))
  {
    hide ExecCompound, Positional;
    AtomFacts(w, Comp(m.st.bodies[m.name]), s, n - 1, n - 1);
  }

  // ---- The signals as they are written ----

  /** The count that the arguments ask for: one without an argument, else the number that the only one
      spells; everything else, and a number below one, is an error. */
  ghost predicate Throws(r: Option<Run>, signal: int -> Outcome, args: seq<string>, s: State) {
    && (args == [] ==> r == Some(Run(signal(1), s)))
    && (forall k: int | |args| == 1 && ToInt(args[0]) == Some(k) :: r == Some(Run(if k >= 1 then signal(k) else Fail, s)))
    && (|args| == 1 && ToInt(args[0]).None? ==> r == Some(Run(Fail, s)))
    && (|args| > 1 ==> r == Some(Run(Fail, s)))
  }

  /** The status that `return` leaves: the number that its only argument spells, else the one before. */
  ghost predicate Returns(r: Option<Run>, args: seq<string>, s: State) {
    && (args == [] ==> r == Some(Run(Return, s)))
    && (forall k: int | |args| == 1 && ToInt(args[0]) == Some(k) :: r == Some(Run(Return, s.(status := k))))
    && (|args| == 1 && ToInt(args[0]).None? ==> r == Some(Run(Fail, s)))
    && (|args| > 1 ==> r == Some(Run(Fail, s)))
  }

  /** A simple command whose first word comes to `break`, `continue` or `return`, unless that is a
      function. */
  lemma WrittenSignals(w: World, words: seq<Word>, locals: seq<Def>, bang: bool, st: State, n: nat, m: Ready)
    requires ReachNamed(w, words, locals, st, n) == Some(m) && m.name !in m.st.bodies
    ensures var r := ExecAtom(w, Simple(words, locals, bang), st, n); var s := Unscoped(m.st, st);
            && (m.name == "break" ==> Throws(r, k => Break(k), m.args, s))
            && (m.name == "continue" ==> Throws(r, k => Continue(k), m.args, s))
            && (m.name == "return" ==> Returns(r, m.args, s))
  {
    hide ExecAtom, ReachNamed, ToInt;
    if m.name in {"break", "continue", "return"} {
      var b := Builtin(m.name, m.args, m.st);
      assert Dispatch(w, m.name, m.args, m.st, n) == Some(b);
      NamedRuns(w, words, locals, bang, st, n, m, b);
    }
  }

  /** `break k` as written, inside d loops: with k <= d exactly the k innermost end; otherwise it leaves
      them all with d less. */
  lemma BreakAsWritten(w: World, x: Context, words: seq<Word>, locals: seq<Def>, bang: bool, st: State, n: nat, h: At, m: Ready, k: int)
    requires Reach(w, x, Simple(words, locals, bang), st, n) == Some(h)
    requires ReachNamed(w, words, locals, h.st, h.n) == Some(m) && m.name == "break" && m.name !in m.st.bodies
    requires k >= 1 && (m.args == [FromInt(k)] || (m.args == [] && k == 1))
    ensures var a := Simple(words, locals, bang); var s := Unscoped(m.st, h.st);
            && (k <= Loops(x) ==>
                  && Loops(Within(x, k)) == k && Plug(x, a) == Plug(Around(x, k), Plug(Within(x, k), a))
                  && var mid := Reach(w, Around(x, k), Plug(Within(x, k), a), st, n);
                  && mid.Some?
                  && ExecAtom(w, Plug(Within(x, k), a), mid.value.st, mid.value.n) == Some(Run(Normal, BackTo(s, mid.value.st))))
            && (k > Loops(x) ==> ExecAtom(w, Plug(x, a), st, n) == Some(Run(Break(k - Loops(x)), BackTo(s, st))))
  {
    hide ExecAtom, Reach, ReachNamed, Plug, Loops, Within, Around, BackTo, Unscoped, ToInt, FromInt;
    var a := Simple(words, locals, bang);
    IntRoundTrip(k);
    WrittenSignals(w, words, locals, bang, h.st, h.n, m);
    var r := Run(Break(k), Unscoped(m.st, h.st));
    if k <= Loops(x) { BreakEndsTheInnermost(w, x, a, st, n, h, r); } else { SignalLeaves(w, x, a, st, n, h, r); }
  }

  /** `continue k` as written: with k <= d the k-th loop goes on with its next turn; otherwise it leaves
      them all with d less. */
  lemma ContinueAsWritten(w: World, x: Context, words: seq<Word>, locals: seq<Def>, bang: bool, st: State, n: nat, h: At, m: Ready, k: int)
    requires Reach(w, x, Simple(words, locals, bang), st, n) == Some(h)
    requires ReachNamed(w, words, locals, h.st, h.n) == Some(m) && m.name == "continue" && m.name !in m.st.bodies
    requires k >= 1 && (m.args == [FromInt(k)] || (m.args == [] && k == 1))
    ensures var a := Simple(words, locals, bang); var s := Unscoped(m.st, h.st);
            && (k <= Loops(x) ==>
                  && Plug(x, a) == Plug(Around(x, k), Plug(Within(x, k), a))
                  && var mid := Reach(w, Around(x, k), Plug(Within(x, k), a), st, n);
                  && mid.Some? && ResumesTurn(w, Within(x, k), a, mid.value, s))
            && (k > Loops(x) ==> ExecAtom(w, Plug(x, a), st, n) == Some(Run(Continue(k - Loops(x)), BackTo(s, st))))
  {
    hide ExecAtom, Reach, ReachNamed, Plug, Loops, Within, Around, BackTo, Unscoped, ToInt, FromInt, ResumesTurn;
    var a := Simple(words, locals, bang);
    IntRoundTrip(k);
    WrittenSignals(w, words, locals, bang, h.st, h.n, m);
    var r := Run(Continue(k), Unscoped(m.st, h.st));
    if k <= Loops(x) { ContinueResumesTheKth(w, x, a, st, n, h, r); } else { SignalLeaves(w, x, a, st, n, h, r); }
  }

  /** `return k` as written, inside a function: the innermost call ends normally with status k. */
  lemma ReturnAsWritten(w: World, x: Context, words: seq<Word>, locals: seq<Def>, bang: bool, st: State, n: nat, h: At, m: Ready, k: int)
    requires Reach(w, x, Simple(words, locals, bang), st, n) == Some(h) && InFunction(x)
    requires ReachNamed(w, words, locals, h.st, h.n) == Some(m) && m.name == "return" && m.name !in m.st.bodies
    requires m.args == [FromInt(k)]
    ensures var a := Simple(words, locals, bang); var call := Inside(x, CallDepth(x));
            var mid := Reach(w, Outside(x, CallDepth(x)), Plug(call, a), st, n);
            && mid.Some?
            && var r := ExecAtom(w, Plug(call, a), mid.value.st, mid.value.n);
            && r.Some? && r.value.out == Normal
            && r.value.st.status == if !call.bang then k else if k == 0 then 1 else 0
  {
    hide ExecAtom, Reach, ReachNamed, Plug, Inside, Outside, InFunction, ToInt, FromInt;
    IntRoundTrip(k);
    WrittenSignals(w, words, locals, bang, h.st, h.n, m);
    ReturnEndsTheCall(w, x, Simple(words, locals, bang), st, n, h, Run(Return, Unscoped(m.st, h.st).(status := k)));
  }
}
