/** What commands mean, stated by what their parts do and by what can be read afterwards. */
module ShellLaws {
  import opened Text
  import opened TokenStream
  import opened VariableStore
  import opened ArithmeticSyntax
  import opened ArithmeticSemantics
  import opened ArithmeticLaws
  import opened Arrays
  import opened Backtick
  import Echo
  import opened ShellSyntax
  import opened ShellSemantics
  import opened ShellFacts

  // ---- Lists ----

  /** Behind a left side that ends with status 0, `&&` runs its command and `||` does not; behind any
      other status it is the other way round. A command that does not run might as well not be there. */
  lemma RightCommandRunsIff(w: World, left: Logic, c: Command, st: State, n: nat, s: State)
    requires ExecLogic(w, left, st, n) == Some(Run(Normal, s))
    ensures s.status == 0 ==> ExecLogic(w, AndThen(left, c), st, n) == ExecCommand(w, c, s, n)
    ensures s.status == 0 ==> ExecLogic(w, OrElse(left, c), st, n) == Some(Run(Normal, s))
    ensures s.status != 0 ==> ExecLogic(w, AndThen(left, c), st, n) == Some(Run(Normal, s))
    ensures s.status != 0 ==> ExecLogic(w, OrElse(left, c), st, n) == ExecCommand(w, c, s, n)
    ensures LogicTree(AndThen(left, c)).kind == LOGICAND && LogicTree(OrElse(left, c)).kind == LOGICOR
  {
    hide ExecCommand, CommandTree;
  }

  /** Neither runs behind a signal or an error. */
  lemma NothingRunsBehindASignal(w: World, left: Logic, c: Command, st: State, n: nat, r: Run)
    requires ExecLogic(w, left, st, n) == Some(r) && r.out != Normal
    ensures ExecLogic(w, AndThen(left, c), st, n) == Some(r) && ExecLogic(w, OrElse(left, c), st, n) == Some(r)
  {
    hide ExecCommand;
  }

  /** A list runs its commands in order, up to the first signal or error. */
  lemma {:induction false} ListsRunInOrder(w: World, a: seq<Logic>, b: seq<Logic>, st: State, n: nat, r: Run)
    requires ExecList(w, a, st, n) == Some(r)
    ensures ExecList(w, a + b, st, n) == if r.out == Normal then ExecList(w, b, r.st, n) else Some(r)
    decreases |a|
  {
    hide ExecLogic;
    if a == [] {
      assert a + b == b;
    } else {
      assert (a + b)[0] == a[0] && (a + b)[1..] == a[1..] + b;
      var first := ExecLogic(w, a[0], st, n).value;
      if first.out == Normal { ListsRunInOrder(w, a[1..], b, first.st, n, r); }
    }
  }

  // ---- Branches ----

  /** None of the conditions holds: each ends with a status other than 0, the last one in s. */
  predicate AllFail(w: World, clauses: seq<Clause>, st: State, n: nat, s: State)
    decreases |clauses|
  {
    if clauses == [] then s == st
    else
      match ExecList(w, clauses[0].cond, st, n)
      case Some(Run(Normal, t)) => t.status != 0 && AllFail(w, clauses[1..], t, n, s)
      case _ => false
  }

  lemma {:induction false} FailingClauses(w: World, before: seq<Clause>, rest: seq<Clause>, st: State, n: nat, s: State)
    requires AllFail(w, before, st, n, s)
    ensures ExecClauses(w, before + rest, st, n) == ExecClauses(w, rest, s, n)
    decreases |before|
  {
    hide ExecList;
    if before == [] {
      assert before + rest == rest;
    } else {
      assert (before + rest)[0] == before[0] && (before + rest)[1..] == before[1..] + rest;
      FailingClauses(w, before[1..], rest, ExecList(w, before[0].cond, st, n).value.st, n, s);
    }
  }

  /** `if` runs the commands of the first branch whose condition ends with status 0, and neither the
      conditions nor the commands behind them. */
  lemma FirstHoldingBranchRuns(w: World, before: seq<Clause>, c: Clause, behind: seq<Clause>, otherwise: seq<Logic>,
                               st: State, n: nat, s: State, t: State)
    requires AllFail(w, before, st, n, s) && ExecList(w, c.cond, s, n) == Some(Run(Normal, t)) && t.status == 0
    ensures ExecCompound(w, If(before + ([c] + behind), otherwise), st, n) == ExecList(w, c.body, t, n)
  {
    hide ExecList, ExecCompound;
    FailingClauses(w, before, [c] + behind, st, n, s);
    assert ([c] + behind)[0] == c;
    BranchMeaning(w, If(before + ([c] + behind), otherwise), st, n);
  }

  /** Without such a branch the commands behind `else` run, if there are any. */
  lemma ElseRuns(w: World, clauses: seq<Clause>, otherwise: seq<Logic>, st: State, n: nat, s: State)
    requires AllFail(w, clauses, st, n, s)
    ensures ExecCompound(w, If(clauses, otherwise), st, n) == ExecList(w, otherwise, s, n)
  {
    hide ExecList, ExecCompound;
    FailingClauses(w, clauses, [], st, n, s);
    assert clauses + [] == clauses;
    BranchMeaning(w, If(clauses, otherwise), st, n);
  }

  /** None of the arms matches; their patterns have been expanded, the last ones ending in s. */
  predicate NoneMatches(w: World, target: string, arms: seq<Arm>, st: State, n: nat, s: State)
    decreases |arms|
  {
    if arms == [] then s == st
    else
      match EvalBranches(w, arms[0].patterns, st, n)
      case Some(Got(Normal, globs, t)) => !w.matches(target, globs) && NoneMatches(w, target, arms[1..], t, n, s)
      case _ => false
  }

  lemma {:induction false} UnmatchedArms(w: World, target: string, before: seq<Arm>, rest: seq<Arm>, st: State, n: nat, s: State)
    requires NoneMatches(w, target, before, st, n, s)
    ensures ExecArms(w, target, before + rest, st, n) == ExecArms(w, target, rest, s, n)
    decreases |before|
  {
    hide ExecList, EvalBranches;
    if before == [] {
      assert before + rest == rest;
    } else {
      assert (before + rest)[0] == before[0] && (before + rest)[1..] == before[1..] + rest;
      UnmatchedArms(w, target, before[1..], rest, EvalBranches(w, before[0].patterns, st, n).value.st, n, s);
    }
  }

  /** `case` runs the commands of the first arm that matches, and no later arm is looked at. */
  lemma FirstMatchingArmRuns(w: World, word: Word, before: seq<Arm>, a: Arm, behind: seq<Arm>, st: State, n: nat,
                             g: Got<string>, s: State, globs: seq<seq<Glob>>, t: State)
    requires EvalWord(w, word, st, n) == Some(g) && g.out == Normal && NoneMatches(w, g.v, before, g.st, n, s)
    requires EvalBranches(w, a.patterns, s, n) == Some(Got(Normal, globs, t)) && w.matches(g.v, globs)
    ensures ExecCompound(w, Case(word, before + ([a] + behind)), st, n) == ExecList(w, a.body, t, n)
  {
    hide ExecList, EvalBranches, EvalWord, ExecCompound;
    UnmatchedArms(w, g.v, before, [a] + behind, g.st, n, s);
    assert ([a] + behind)[0] == a;
    BranchMeaning(w, Case(word, before + ([a] + behind)), st, n);
  }

  lemma NoArmRuns(w: World, word: Word, arms: seq<Arm>, st: State, n: nat, g: Got<string>, s: State)
    requires EvalWord(w, word, st, n) == Some(g) && g.out == Normal && NoneMatches(w, g.v, arms, g.st, n, s)
    ensures ExecCompound(w, Case(word, arms), st, n) == Some(Run(Normal, s))
  {
    hide ExecList, EvalBranches, EvalWord, ExecCompound;
    UnmatchedArms(w, g.v, arms, [], g.st, n, s);
    assert arms + [] == arms;
    BranchMeaning(w, Case(word, arms), st, n);
  }

  // ---- Loops, turn by turn ----

  /** The body ended normally, or with a `continue` for this very loop. */
  predicate TurnEnds(out: Outcome) { out == Normal || out == Continue(1) }

  /** `while` ends when its guard ends with status 1, `until` when it ends with 0; otherwise the body runs
      and then the whole loop again. */
  lemma WhileTurns(w: World, until: bool, guard: seq<Logic>, body: seq<Logic>, st: State, n: nat, g: State)
    requires n > 0 && ExecList(w, guard, st, n - 1) == Some(Run(Normal, g))
    ensures var c := While(until, guard, body);
            var r := ExecCompound(w, c, st, n);
            var b := ExecList(w, body, g, n - 1);
            && CompoundTree(c).kind == (if until then UNTIL else WHILE)
            && (g.status == (if until then 0 else 1) ==> r == Some(Run(Normal, g)))
            && (g.status != (if until then 0 else 1) && b.Some? ==>
                  && (TurnEnds(b.value.out) ==> r == ExecCompound(w, c, b.value.st, n - 1))
                  && (b.value.out == Break(1) ==> r == Some(Run(Normal, b.value.st))))
  {
    hide ExecList, ExecCompound, ListTree;
    var c := While(until, guard, body);
    LoopMeaning(w, c, st, n);
    var b := ExecList(w, body, g, n - 1);
    if b.Some? { LoopMeaning(w, c, b.value.st, n - 1); }
  }

  /** The state st with one variable set to a text. */
  ghost predicate IsSet(st: State, t: State, name: string, index: nat, s: string) {
    && t == st.(vars := t.vars)
    && ResolveString(t.vars, name, index) == s
    && (forall j: nat | j != index :: ResolveString(t.vars, name, j) == ResolveString(st.vars, name, j))
    && (forall other | other != name :: Stack(t.vars, other) == Stack(st.vars, other))
  }

  lemma TextStored(s: Store, name: string, i: nat, text: string)
    requires name != ""
    ensures var r := SetValue(s, name, Str(text), i);
            && (r.None? <==> IsReadonly(s, name))
            && (r.Some? ==>
                  && ResolveString(r.value, name, i) == text
                  && (forall j: nat | j != i :: ResolveString(r.value, name, j) == ResolveString(s, name, j))
                  && (forall other | other != name :: Stack(r.value, other) == Stack(s, other)))
  {
    SetValueOnStacks(s, name, Str(text), i);
    ResolveIsTop(s, name);
    var r := SetValue(s, name, Str(text), i);
    if r.Some? { ResolveIsTop(r.value, name); }
  }

  /** `for` ends at the end of its list; otherwise the variable takes the first value, the body runs, and
      then the loop over the rest. A readonly variable is an error. */
  lemma ForTurns(w: World, name: string, values: seq<string>, body: seq<Logic>, st: State, n: nat) returns (inside: State)
    requires name != "" && n > 0
    ensures values == [] ==> ForLoop(w, name, values, body, st, n) == Some(Run(Normal, st))
    ensures values != [] ==>
      var r := ForLoop(w, name, values, body, st, n);
      var b := ExecList(w, body, inside, n - 1);
      if IsReadonly(st.vars, name) then r == Some(Run(Fail, st))
      else
        && IsSet(st, inside, name, 0, values[0])
        && (b.Some? && TurnEnds(b.value.out) ==> r == ForLoop(w, name, values[1..], body, b.value.st, n - 1))
        && (b.Some? && b.value.out == Break(1) ==> r == Some(Run(Normal, b.value.st)))
  {
    hide ExecList, SetValue, ResolveString, Resolve, Stack;
    inside := st;
    if values != [] {
      TextStored(st.vars, name, 0, values[0]);
      var vars := SetValue(st.vars, name, Str(values[0]), 0);
      if vars.Some? { inside := st.(vars := vars.value); }
    }
  }

  /** What `for` runs over: its words, or without any the positional parameters in order. A list of words
      that comes to nothing skips the loop and sets the status to 0. */
  lemma ForLists(w: World, name: string, words: seq<Word>, body: seq<Logic>, st: State, n: nat)
    ensures var r := ExecCompound(w, For(name, words, body), st, n);
            && (forall args: seq<string> |
                  words == [] && Resolve(st.vars, "*").Some? && Resolve(st.vars, "*").value.values == Positional(args) ::
                  r == ForLoop(w, name, args, body, st, n))
            && (forall g: Got<seq<string>> | words != [] && EvalForWords(w, words, st, n) == Some(g) && g.out == Normal ::
                  r == if g.v == [] then Some(Run(Normal, g.st.(status := 0))) else ForLoop(w, name, g.v, body, g.st, n))
  {
    hide ExecCompound, ForLoop, EvalForWords, Resolve, Positional, AllValues;
    LoopMeaning(w, For(name, words, body), st, n);
    forall args: seq<string> | words == [] && Resolve(st.vars, "*").Some? && Resolve(st.vars, "*").value.values == Positional(args)
      ensures StarValues(st) == args
    {
      PositionalInOrder(args);
    }
  }

  /** A C-style loop ends when its condition comes to 0, and an absent condition never does; otherwise the
      body runs, then the modification, then the loop again without its initialization. */
  lemma CForTurns(w: World, test: seq<Arith>, body: seq<Logic>, step: seq<Arith>, st: State, n: nat, v: int, vars: Store)
    requires n > 0 && (if test == [] then vars == st.vars else EvalGroup(w.arith, test, st.vars, n - 1) == Some(Val(v, vars)))
    ensures var r := CForLoop(w, test, body, step, st, n);
            var b := ExecList(w, body, st.(vars := vars), n - 1);
            && (test != [] && v == 0 ==> r == Some(Run(Normal, st.(vars := vars))))
            && ((test == [] || v != 0) && b.Some? ==>
                  && (b.value.out == Break(1) ==> r == Some(Run(Normal, b.value.st)))
                  && (forall u: int, after: Store |
                        TurnEnds(b.value.out) && step != [] && EvalGroup(w.arith, step, b.value.st.vars, n - 1) == Some(Val(u, after)) ::
                        r == CForLoop(w, test, body, step, b.value.st.(vars := after), n - 1))
                  && (TurnEnds(b.value.out) && step == [] ==> r == CForLoop(w, test, body, step, b.value.st, n - 1)))
  {
    hide ExecList;
    if test == [] { assert EvalGroup(w.arith, test, st.vars, n - 1) == Some(Val(0, st.vars)); }
    var b := ExecList(w, body, st.(vars := vars), n - 1);
    if step == [] && b.Some? {
      assert EvalGroup(w.arith, step, b.value.st.vars, n - 1) == Some(Val(0, b.value.st.vars));
      assert b.value.st.(vars := b.value.st.vars) == b.value.st;
    }
  }

  lemma CForStarts(w: World, init: seq<Arith>, test: seq<Arith>, body: seq<Logic>, step: seq<Arith>, st: State, n: nat, v: int, vars: Store)
    ensures var c := CFor(init, test, body, step);
            && (init == [] ==> ExecCompound(w, c, st, n) == CForLoop(w, test, body, step, st, n))
            && (init != [] && EvalGroup(w.arith, init, st.vars, n) == Some(Val(v, vars)) ==>
                  ExecCompound(w, c, st, n) == CForLoop(w, test, body, step, st.(vars := vars), n))
  {
    hide ExecCompound, CForLoop;
    LoopMeaning(w, CFor(init, test, body, step), st, n);
    if init == [] {
      assert EvalGroup(w.arith, init, st.vars, n) == Some(Val(0, st.vars));
      assert st.(vars := st.vars) == st;
    }
  }

  // ---- Words ----

  /** A word is its pieces one behind the other, evaluated from left to right. */
  lemma {:induction false} WordsJoin(w: World, a: Word, b: Word, st: State, n: nat, g: Got<string>)
    requires EvalWord(w, a, st, n) == Some(g)
    ensures EvalWord(w, a + b, st, n) ==
            if g.out != Normal then Some(g)
            else match EvalWord(w, b, g.st, n) case None => None case Some(h) => Some(Got(h.out, g.v + h.v, h.st))
    decreases |a|
  {
    hide EvalPart;
    if a == [] {
      assert a + b == b;
      assert forall h: string :: "" + h == h;
    } else {
      assert (a + b)[0] == a[0] && (a + b)[1..] == a[1..] + b;
      var first := EvalPart(w, a[0], st, n).value;
      if first.out == Normal {
        var rest := EvalWord(w, a[1..], first.st, n).value;
        WordsJoin(w, a[1..], b, first.st, n, rest);
        assert forall h: string :: first.v + (rest.v + h) == (first.v + rest.v) + h;
      }
    }
  }

  /** What a piece of a word comes to, by what it is. */
  lemma Pieces(w: World, st: State, n: nat)
    ensures forall s: string :: EvalPart(w, Plain(s), st, n) == Some(Got(Normal, s, st))
    ensures forall s: string :: EvalPart(w, Quoted(s), st, n) == Some(Got(Normal, s, st))
    ensures forall name: string ::
              EvalPart(w, VarPart(Name(name, [])), st, n) == Some(Got(Normal, ResolveString(st.vars, name, 0), st))
    ensures EvalPart(w, ArgPart(0), st, n) == Some(Got(Normal, ResolveString(st.vars, "0", 0), st))
    ensures forall items: seq<Arith>, v: int, vars: Store | EvalGroup(w.arith, items, st.vars, n) == Some(Val(v, vars)) ::
              EvalPart(w, ArithPart(items), st, n) == Some(Got(Normal, FromInt(v), st.(vars := vars)))
    ensures forall name: string, index: seq<Arith>, i: nat, vars: Store |
              index != [] && EvalGroup(w.arith, index, st.vars, n) == Some(Val(i, vars)) ::
              EvalPart(w, VarPart(Name(name, index)), st, n) == Some(Got(Normal, ResolveString(vars, name, i), st.(vars := vars)))
  {
    hide ResolveString, FromInt, Eval;
    forall name: string
      ensures EvalPart(w, VarPart(Name(name, [])), st, n) == Some(Got(Normal, ResolveString(st.vars, name, 0), st))
    {
      assert EvalIndex(w.arith, Name(name, []), st.vars, n) == Some(Val(0, st.vars));
      assert st.(vars := st.vars) == st;
    }
  }

  /** `$1`, `$2`, … are the arguments in order, and nothing behind the last. */
  lemma ArgumentsByNumber(w: World, args: seq<string>, i: nat, st: State, n: nat)
    requires i >= 1 && Resolve(st.vars, "*").Some? && Resolve(st.vars, "*").value.values == Positional(args)
    ensures EvalPart(w, ArgPart(i), st, n) == Some(Got(Normal, if i <= |args| then args[i - 1] else "", st))
  {
    hide Resolve;
  }

  /** What one word adds to the arguments: nothing when it comes to nothing; itself when its last piece is
      quoted or the command does not split; else what splitting at IFS makes of it. */
  lemma OneArgument(w: World, x: Word, split: bool, st: State, n: nat, s: string, t: State)
    requires EvalWord(w, x, st, n) == Some(Got(Normal, s, t))
    ensures var r := EvalArguments(w, [x], split, st, n); var quoted := x != [] ==> x[|x| - 1].Quoted?;
            && (s == "" ==> r == Some(Got(Normal, [], t)))
            && (s != "" && (quoted || !split) ==> r == Some(Got(Normal, [s], t)))
            && (s != "" && !quoted && split ==> r == Some(Got(Normal, w.split(s, ResolveString(t.vars, "IFS", 0)), t)))
  {
    hide EvalWord, ResolveString;
    assert [x][1..] == [] && EvalArguments(w, [], split, t, n) == Some(Got(Normal, [], t));
    var a := ArgumentWords(w, s, IsQuoted(x) || !split, t.vars);
    assert a + [] == a;
  }

  lemma {:induction false} ArgumentsInOrder(w: World, a: seq<Word>, b: seq<Word>, split: bool, st: State, n: nat, g: Got<seq<string>>)
    requires EvalArguments(w, a, split, st, n) == Some(g) && g.out == Normal
    ensures EvalArguments(w, a + b, split, st, n) ==
            match EvalArguments(w, b, split, g.st, n) case None => None case Some(h) => Some(Got(h.out, g.v + h.v, h.st))
    decreases |a|
  {
    hide EvalWord, ArgumentWords;
    if a == [] {
      assert a + b == b;
      assert forall h: seq<string> :: [] + h == h;
    } else {
      assert (a + b)[0] == a[0] && (a + b)[1..] == a[1..] + b;
      var first := EvalWord(w, a[0], st, n).value;
      var rest := EvalArguments(w, a[1..], split, first.st, n).value;
      ArgumentsInOrder(w, a[1..], b, split, first.st, n, rest);
      var own := ArgumentWords(w, first.v, IsQuoted(a[0]) || !split, first.st.vars);
      assert forall h: seq<string> :: own + (rest.v + h) == (own + rest.v) + h;
    }
  }

  /** In the list of a `for` a quoted word stays even when it is empty, and every other one is split. */
  lemma OneForWord(w: World, x: Word, st: State, n: nat, s: string, t: State)
    requires EvalWord(w, x, st, n) == Some(Got(Normal, s, t))
    ensures var r := EvalForWords(w, [x], st, n); var quoted := x != [] ==> x[|x| - 1].Quoted?;
            && (quoted ==> r == Some(Got(Normal, [s], t)))
            && (!quoted ==> r == Some(Got(Normal, w.split(s, ResolveString(t.vars, "IFS", 0)), t)))
  {
    hide EvalWord, ResolveString;
    assert [x][1..] == [] && EvalForWords(w, [], t, n) == Some(Got(Normal, [], t));
    var a := ForWords(w, s, IsQuoted(x), t.vars);
    assert a + [] == a;
  }

  lemma {:induction false} ForWordsInOrder(w: World, a: seq<Word>, b: seq<Word>, st: State, n: nat, g: Got<seq<string>>)
    requires EvalForWords(w, a, st, n) == Some(g) && g.out == Normal
    ensures EvalForWords(w, a + b, st, n) ==
            match EvalForWords(w, b, g.st, n) case None => None case Some(h) => Some(Got(h.out, g.v + h.v, h.st))
    decreases |a|
  {
    hide EvalWord, ForWords;
    if a == [] {
      assert a + b == b;
      assert forall h: seq<string> :: [] + h == h;
    } else {
      assert (a + b)[0] == a[0] && (a + b)[1..] == a[1..] + b;
      var first := EvalWord(w, a[0], st, n).value;
      var rest := EvalForWords(w, a[1..], first.st, n).value;
      ForWordsInOrder(w, a[1..], b, first.st, n, rest);
      var own := ForWords(w, first.v, IsQuoted(a[0]), first.st.vars);
      assert forall h: seq<string> :: own + (rest.v + h) == (own + rest.v) + h;
    }
  }

  /** Patterns keep the order of their alternatives and pieces. */
  lemma {:induction false} BranchesInOrder(w: World, a: seq<seq<PatItem>>, b: seq<seq<PatItem>>, st: State, n: nat,
                                           g: Got<seq<seq<Glob>>>)
    requires EvalBranches(w, a, st, n) == Some(g) && g.out == Normal
    ensures EvalBranches(w, a + b, st, n) ==
            match EvalBranches(w, b, g.st, n) case None => None case Some(h) => Some(Got(h.out, g.v + h.v, h.st))
    decreases |a|
  {
    hide EvalBranch;
    if a == [] {
      assert a + b == b;
      assert forall h: seq<seq<Glob>> :: [] + h == h;
    } else {
      assert (a + b)[0] == a[0] && (a + b)[1..] == a[1..] + b;
      var first := EvalBranch(w, a[0], st, n).value;
      var rest := EvalBranches(w, a[1..], first.st, n).value;
      BranchesInOrder(w, a[1..], b, first.st, n, rest);
      assert forall h: seq<seq<Glob>> :: [first.v] + (rest.v + h) == ([first.v] + rest.v) + h;
    }
  }

  lemma {:induction false} PatternsInOrder(w: World, a: seq<PatItem>, b: seq<PatItem>, st: State, n: nat, g: Got<seq<Glob>>)
    requires EvalBranch(w, a, st, n) == Some(g) && g.out == Normal
    ensures EvalBranch(w, a + b, st, n) ==
            match EvalBranch(w, b, g.st, n) case None => None case Some(h) => Some(Got(h.out, g.v + h.v, h.st))
    decreases |a|
  {
    hide EvalPart;
    if a == [] {
      assert a + b == b;
      assert forall h: seq<Glob> :: [] + h == h;
    } else {
      assert (a + b)[0] == a[0] && (a + b)[1..] == a[1..] + b;
      var first := EvalPat(w, a[0], st, n).value;
      var rest := EvalBranch(w, a[1..], first.st, n).value;
      PatternsInOrder(w, a[1..], b, first.st, n, rest);
      assert forall h: seq<Glob> :: [first.v] + (rest.v + h) == ([first.v] + rest.v) + h;
    }
  }

  /** The wildcards, by their tokens; any other piece matches as the text that it comes to. */
  lemma PatternPieces(w: World, p: PatItem, st: State, n: nat, s: string, t: State)
    ensures PatTree(p).kind == MATCH_ALL ==> EvalPat(w, p, st, n) == Some(Got(Normal, AnyString, st))
    ensures PatTree(p).kind == MATCH_ONE ==> EvalPat(w, p, st, n) == Some(Got(Normal, AnyChar, st))
    ensures p.PatText? && EvalPart(w, p.p, st, n) == Some(Got(Normal, s, t)) ==>
              EvalPat(w, p, st, n) == Some(Got(Normal, Exactly(s), t))
  {
    hide EvalPart;
  }

  // ---- Substitutions and redirections ----

  predicate IsNewlines(s: string) { forall i | 0 <= i < |s| :: s[i] == '\n' }

  /** s without the newlines at its end. */
  ghost predicate IsTrimmed(s: string, t: string) {
    && (t == "" || t[|t| - 1] != '\n')
    && exists ends :: IsNewlines(ends) && s == t + ends
  }

  lemma {:induction false} TrimIsTrimmed(s: string)
    ensures IsTrimmed(s, TrimEols(s))
  {
    if s != "" && s[|s| - 1] == '\n' {
      var front := s[..|s| - 1];
      TrimIsTrimmed(front);
      var ends :| IsNewlines(ends) && front == TrimEols(front) + ends;
      assert IsNewlines(ends + "\n") && s == TrimEols(front) + (ends + "\n");
    } else {
      assert IsNewlines("") && s == s + "";
    }
  }

  /** The script of a command substitution runs with a new, empty stream as its output, and what it writes
      there, but for the newlines at the end, is the value; it writes nothing anywhere else. Behind it the
      streams are those of before. */
  lemma SubstitutionsCapture(w: World, raw: string, items: Script, st: State, n: nat, r: State)
    requires n > 0 && w.script(Inner(raw)) == Some(items)
    requires ExecList(w, items, st.(texts := st.texts + [""], out := |st.texts|), n - 1) == Some(Run(Normal, r))
    ensures |st.texts| < |r.texts| && r.texts[..|st.texts|] == st.texts
    ensures var g := EvalPart(w, SubPart(raw), st, n);
            && g.Some? && g.value.out == Normal && IsTrimmed(r.texts[|st.texts|], g.value.v)
            && g.value.st == r.(out := st.out, err := st.err, inp := st.inp)
  {
    hide ExecList, Inner;
    ListFacts(w, items, st.(texts := st.texts + [""], out := |st.texts|), n - 1, n - 1);
    TrimIsTrimmed(r.texts[|st.texts|]);
    assert OpenStream(st).(out := |st.texts|) == st.(texts := st.texts + [""], out := |st.texts|);
    assert EvalPart(w, SubPart(raw), st, n) == RunSub(w, raw, st, n);
  }

  /** What stands between the delimiters: in backticks it was escaped. */
  lemma Delimiters(s: string)
    ensures Inner("$(" + s + ")") == s && Inner("`" + Escaped(s) + "`") == s
  {
    UnescapeInverts(s);
    var a, b := "$(" + s + ")", "`" + Escaped(s) + "`";
    assert a[0] == '$' && a[2..|a| - 1] == s;
    assert b[0] == '`' && b[1..|b| - 1] == Escaped(s);
  }

  /** A redirected command runs with a new, empty stream as its output or its input; behind it the streams
      are those of before. */
  lemma RedirectionsOpenStreams(w: World, r: Redirect, rest: seq<Redirect>, st: State, n: nat, f: string, s: State)
    requires EvalWord(w, r.target, st, n) == Some(Got(Normal, f, s))
    ensures var wider := s.(texts := s.texts + [""]);
            ExecRedirects(w, [r] + rest, st, n) ==
            ExecRedirects(w, rest, if r.input then wider.(inp := |s.texts|) else wider.(out := |s.texts|), n)
    ensures RedirectTree(r).children[0].kind == if r.input then LESS_THAN else GREATER_THAN
  {
    hide EvalWord, WordTree;
    assert ([r] + rest)[0] == r && ([r] + rest)[1..] == rest;
  }

  lemma RedirectedCommands(w: World, rs: seq<Redirect>, a: Atom, st: State, n: nat, s: State, r: Run)
    requires ExecRedirects(w, rs, st, n) == Some(Run(Normal, s)) && ExecAtom(w, a, s, n) == Some(r)
    ensures ExecCommand(w, Command(rs, a), st, n) == Some(Run(r.out, r.st.(out := st.out, err := st.err, inp := st.inp)))
  {
    hide ExecRedirects, ExecAtom;
  }

  // ---- Definitions ----

  /** `name=text` and `name[i]=text`: subscript first, then the text; then one element of the visible
      variable, or else of a new global one, has the text, and all other elements and names are as before.
      A readonly variable is an error. */
  lemma DefinitionSets(w: World, v: Name, x: Word, st: State, n: nat, i: nat, vars: Store, text: string, t: State)
    requires v.base != "" && Selects(w.arith, v, st.vars, n, i, vars)
    requires EvalWord(w, x, st.(vars := vars), n) == Some(Got(Normal, text, t))
    ensures var r := ExecDef(w, Def(v, Some(x)), false, st, n);
            && r.Some?
            && (!IsReadonly(t.vars, v.base) ==> r.value.out == Normal && IsSet(t, r.value.st, v.base, i, text))
            && (IsReadonly(t.vars, v.base) ==> r.value == Run(Fail, t))
  {
    hide EvalWord, ResolveString, Stack, SetValue, Resolve, Selects;
    Selected(w.arith, v, st.vars, n, i, vars);
    TextStored(t.vars, v.base, i, text);
  }

  /** A local definition, and one before a command, binds the name in the innermost scope, to that element
      alone, and nothing outside of it; without a scope it is an error. */
  lemma LocalDefinitionSets(w: World, v: Name, x: Word, st: State, n: nat, i: nat, vars: Store, text: string, t: State)
    requires v.base != "" && Selects(w.arith, v, st.vars, n, i, vars)
    requires EvalWord(w, x, st.(vars := vars), n) == Some(Got(Normal, text, t))
    ensures var r := ExecDef(w, Def(v, Some(x)), true, st, n);
            && r.Some?
            && (t.vars.frames == [] ==> r.value == Run(Fail, t))
            && (t.vars.frames != [] ==>
                  && r.value.out == Normal && r.value.st == t.(vars := r.value.st.vars)
                  && PopScope(t.vars) == PopOf(r.value.st.vars)
                  && Resolve(r.value.st.vars, v.base) == Some(Var(map[i := Str(text)], false))
                  && forall other | other != v.base :: Stack(r.value.st.vars, other) == Stack(t.vars, other))
  {
    hide EvalWord, Stack, Resolve, Selects;
    Selected(w.arith, v, st.vars, n, i, vars);
    if t.vars.frames != [] { LocalStored(t.vars, v.base, Var(map[i := Str(text)], false)); }
  }

  function PopOf(s: Store): Store { if s.frames == [] then s else PopScope(s) }

  lemma LocalStored(s: Store, name: string, v: Var)
    requires name != "" && s.frames != []
    ensures var r := DefineLocal(s, name, v);
            && r.Some? && r.value.frames != [] && PopScope(r.value) == PopScope(s)
            && Resolve(r.value, name) == Some(v)
            && forall other | other != name :: Stack(r.value, other) == Stack(s, other)
  {
    DefineLocalOnStacks(s, name, v);
    ResolveIsTop(DefineLocal(s, name, v).value, name);
  }

  lemma {:induction false} DefinitionsInOrder(w: World, a: seq<Def>, b: seq<Def>, local: bool, st: State, n: nat, r: Run)
    requires ExecDefs(w, a, local, st, n) == Some(r)
    ensures ExecDefs(w, a + b, local, st, n) == if r.out == Normal then ExecDefs(w, b, local, r.st, n) else Some(r)
    decreases |a|
  {
    hide ExecDef;
    if a == [] {
      assert a + b == b;
    } else {
      assert (a + b)[0] == a[0] && (a + b)[1..] == a[1..] + b;
      var first := ExecDef(w, a[0], local, st, n).value;
      if first.out == Normal { DefinitionsInOrder(w, a[1..], b, local, first.st, n, r); }
    }
  }

  // ---- Functions ----

  predicate IsPlain(s: string) {
    forall i | 0 <= i < |s| :: s[i] !in {'$', '\'', '"', '(', ')', ' ', '\n', '\r'}
  }

  predicate IsNameOf(s: string, digit: string, first: char, rest: string) {
    && s == digit + ([first] + rest) && (digit == "" || (|digit| == 1 && IsDigit(digit[0])))
    && !IsDigit(first) && IsPlain([first]) && IsPlain(rest)
  }

  /** A function's name is an optional digit, one plain character that is no digit, and plain characters. */
  lemma FunctionNames(s: string)
    ensures IsFunctionName(s) <==> exists digit, first, rest :: IsNameOf(s, digit, first, rest)
  {
    hide IsFunctionName, IsNameOf;
    if IsFunctionName(s) { NameSplits(s); }
    forall digit, first, rest | IsNameOf(s, digit, first, rest)
      ensures IsFunctionName(s)
    {
      NameJoins(s, digit, first, rest);
    }
  }

  lemma NameSplits(s: string)
    requires IsFunctionName(s)
    ensures exists digit, first, rest :: IsNameOf(s, digit, first, rest)
  {
    hide IsFunctionName, Special, IsPlain;
    PlainBehindDigit(s);
    if IsDigit(s[0]) {
      PlainName(s[1..]);
      assert s == s[..1] + ([s[1..][0]] + s[1..][1..]);
      assert IsNameOf(s, s[..1], s[1..][0], s[1..][1..]);
    } else {
      PlainName(s);
      assert s == "" + ([s[0]] + s[1..]);
      assert IsNameOf(s, "", s[0], s[1..]);
    }
  }

  lemma NameJoins(s: string, digit: string, first: char, rest: string)
    requires IsNameOf(s, digit, first, rest)
    ensures IsFunctionName(s)
  {
    var t := if s != "" && IsDigit(s[0]) then s[1..] else s;
    assert t == [first] + rest && [first][0] == first;
    assert forall i | 0 <= i < |t| :: t[i] == (if i == 0 then first else rest[i - 1]) && !Special(t[i]);
  }

  lemma PlainBehindDigit(s: string)
    requires IsFunctionName(s)
    ensures s != ""
    ensures var t := if IsDigit(s[0]) then s[1..] else s;
            t != "" && !IsDigit(t[0]) && forall i | 0 <= i < |t| :: !Special(t[i])
  {
  }

  lemma PlainName(t: string)
    requires t != "" && forall i | 0 <= i < |t| :: !Special(t[i])
    ensures t == [t[0]] + t[1..] && IsPlain([t[0]]) && IsPlain(t[1..])
  {
    assert forall i | 0 <= i < |t[1..]| :: t[1..][i] == t[i + 1] && !Special(t[i + 1]);
  }

  /** A definition makes the function known, unless one of that name is: that one stays. Nothing else
      changes, not even the status. */
  lemma FirstDefinitionStays(name: string, body: Compound, st: State)
    requires IsFunctionName(name)
    ensures var r := DefineFunction(name, body, st);
            && r.out == Normal && r.st == st.(bodies := r.st.bodies)
            && name in r.st.bodies && (r.st.bodies[name] == if name in st.bodies then st.bodies[name] else body)
            && (forall other | other != name :: other in r.st.bodies <==> other in st.bodies)
            && (forall other | other != name && other in st.bodies :: r.st.bodies[other] == st.bodies[other])
  {
  }

  /** A call runs the body with the arguments as its own positional parameters, everything else being as
      it was. A name that is a function is one even if it is a builtin as well. */
  lemma CallsPassArguments(w: World, name: string, args: seq<string>, st: State, n: nat) returns (inside: State)
    requires n > 0 && name in st.bodies && st.vars.frames != []
    ensures inside == st.(vars := inside.vars)
    ensures Resolve(inside.vars, "*").Some? && Resolve(inside.vars, "*").value.values == Positional(args)
    ensures inside.vars.frames != [] && PopScope(inside.vars) == PopScope(st.vars)
    ensures forall other | other != "*" :: Stack(inside.vars, other) == Stack(st.vars, other)
    ensures var b := ExecCompound(w, st.bodies[name], inside, n - 1);
            Dispatch(w, name, args, st, n) ==
            match b case None => None case Some(Run(Return, s)) => Some(Run(Normal, s)) case Some(r) => Some(r)
  {
    hide ExecCompound, Positional, Stack;
    var v := Var(Positional(args), false);
    LocalStored(st.vars, "*", v);
    inside := st.(vars := DefineLocal(st.vars, "*", v).value);
  }

  /** Without a scope there is nowhere to put the arguments. */
  lemma CallsNeedAScope(w: World, name: string, args: seq<string>, st: State, n: nat)
    requires n > 0 && name in st.bodies && st.vars.frames == []
    ensures Dispatch(w, name, args, st, n) == Some(Run(Fail, st))
  {
    hide ExecCompound, Positional;
  }

  // ---- Builtins ----

  /** What is written goes to the end of the current output, and to no other stream. */
  predicate Writes(st: State, t: State, s: string) {
    && t == st.(texts := t.texts) && |t.texts| == |st.texts|
    && (st.out < |st.texts| ==> t.texts[st.out] == st.texts[st.out] + s)
    && forall i | 0 <= i < |st.texts| && i != st.out :: t.texts[i] == st.texts[i]
  }

  /** echo writes its words, one blank between two, and a newline unless its options ask for none. */
  lemma EchoWrites(w: World, options: seq<string>, words: seq<string>, st: State, n: nat)
    requires "echo" !in st.bodies && !Echo.Switched(Echo.All(options), false)
    requires (forall o | o in options :: Echo.IsOption(o)) && words != [] && !Echo.IsOption(words[0])
    ensures var text := Join(words, " ") + if 'n' in Echo.All(options) then "" else "\n";
            exists t :: Writes(st, t, text) && Dispatch(w, "echo", options + words, st, n) == Some(Run(Normal, t.(status := 0)))
  {
    hide Join, Echo.All, Echo.Output, Echo.IsOption, Echo.Switched;
    Echo.WritesWords(options, words);
    var text := Join(words, " ") + if 'n' in Echo.All(options) then "" else "\n";
    assert Writes(st, WriteOut(st, text), text);
  }

  /** `true`, `false` and `:` set the status; a name that is neither a function nor a builtin is an error
      and sets it to 1. */
  lemma BuiltinsDo(w: World, name: string, args: seq<string>, st: State, n: nat)
    requires name !in st.bodies
    ensures var r := Dispatch(w, name, args, st, n);
            && (name == "true" || name == ":" ==> r == Some(Run(Normal, st.(status := 0))))
            && (name == "false" ==> r == Some(Run(Normal, st.(status := 1))))
            && (name !in {"echo", "true", ":", "false", "break", "continue", "return", "shift", "set", "eval", "local"} ==>
                  r == Some(Run(Fail, st.(status := 1))))
  {
    hide LoopCount, ReturnBuiltin, ShiftBuiltin, SetBuiltin;
  }

  /** Words with one blank between two. */
  lemma {:induction false} JoinAppends(a: seq<string>, b: seq<string>, sep: string)
    requires a != [] && b != []
    ensures Join(a + b, sep) == Join(a, sep) + sep + Join(b, sep)
    ensures Join([a[0]], sep) == a[0] && Join([], sep) == ""
    decreases |a|
  {
    assert (a + b)[0] == a[0] && (a + b)[1..] == a[1..] + b;
    if |a| == 1 {
      assert a[1..] + b == b;
    } else {
      JoinAppends(a[1..], b, sep);
      var x, y, z := a[0], Join(a[1..], sep), Join(b, sep);
      assert x + sep + (y + sep + z) == (x + sep + y) + sep + z;
    }
  }

  /** `shift k` drops the first k parameters of the innermost scope that has any, and beyond the last it
      changes nothing and sets the status to 1, as it does below 0. */
  lemma ShiftDropsArguments(w: World, args: seq<string>, k: int, given: seq<string>, st: State, n: nat)
    requires "shift" !in st.bodies
    requires Resolve(st.vars, "*") == Some(Var(Positional(args), false))
    requires given == [FromInt(k)] || (given == [] && k == 1)
    ensures var r := Dispatch(w, "shift", given, st, n);
            && r.Some? && r.value.out == Normal && r.value.st == st.(vars := r.value.st.vars, status := r.value.st.status)
            && (0 <= k <= |args| ==> r.value.st.status == 0 && Resolve(r.value.st.vars, "*") == Some(Var(Positional(args[k..]), false)))
            && (k < 0 || k > |args| ==> r.value.st.status == 1 && Resolve(r.value.st.vars, "*") == Resolve(st.vars, "*"))
            && (forall other | other != "*" :: Stack(r.value.st.vars, other) == Stack(st.vars, other))
  {
    hide Positional, ToInt, FromInt, Shifted, ShiftStatus, Stack;
    IntRoundTrip(k);
    assert Dispatch(w, "shift", given, st, n) == Some(ShiftBuiltin(given, st));
    if k >= 0 {
      ShiftDrops(args, k);
      ShiftedStar(st.vars, Var(Shifted(Positional(args), k), false));
    }
  }

  lemma ShiftedStar(s: Store, v: Var)
    requires Resolve(s, "*").Some?
    ensures var h := Home(s, "*").value; var t := s.WithScope(h, s.Scopes()[h]["*" := v]);
            && Resolve(t, "*") == Some(v)
            && forall other | other != "*" :: Stack(t, other) == Stack(s, other)
  {
    var h := Home(s, "*").value;
    var u := s.Scopes()[h]["*" := v];
    WithScopeStacks(s, h, "*", u);
    ResolveIsTop(s.WithScope(h, u), "*");
  }

  /** `set -- a b` makes a and b the parameters of the innermost scope. */
  lemma SetReplacesArguments(w: World, args: seq<string>, st: State, n: nat)
    requires "set" !in st.bodies
    ensures var r := Dispatch(w, "set", ["--"] + args, st, n);
            && r.Some? && r.value.out == Normal && r.value.st == st.(vars := r.value.st.vars, status := 0)
            && Resolve(r.value.st.vars, "*") == Some(Var(Positional(args), false))
            && (st.vars.frames != [] ==> r.value.st.vars.frames != [] && PopScope(r.value.st.vars) == PopScope(st.vars))
  {
    hide Positional;
    assert (["--"] + args)[0] == "--" && (["--"] + args)[1..] == args;
    var v := Var(Positional(args), false);
    if st.vars.frames == [] {
      assert Define(st.vars, "*", v).Scopes() == [Define(st.vars, "*", v).globals];
    } else {
      LocalStored(st.vars, "*", v);
    }
  }

  /** local runs its arguments, with nothing between them, as definitions in the scope of its surroundings,
      and its status is 0. */
  lemma LocalRunsInPlace(w: World, args: seq<string>, st: State, n: nat)
    requires "local" !in st.bodies && n > 0
    ensures var r := Dispatch(w, "local", args, st, n);
            match w.locals(Concat(args))
            case None => r == Some(Run(Fail, st))
            case Some(items) =>
              match ExecList(w, items, st, n - 1)
              case None => r == None
              case Some(Run(Normal, s)) => r == Some(Run(Normal, s.(status := 0)))
              case Some(other) => r == Some(other)
    ensures forall s: string :: Concat([s]) == s
    ensures forall s: string, rest: seq<string> :: Concat([s] + rest) == s + Concat(rest)
  {
    hide ExecList, Join;
    forall s: string, rest: seq<string>
      ensures Concat([s] + rest) == s + Concat(rest)
    {
      assert ([s] + rest)[1..] == rest;
    }
  }

  /** eval runs its arguments, joined by blanks, right where it stands: in the scopes of its surroundings. */
  lemma EvalRunsInPlace(w: World, args: seq<string>, st: State, n: nat)
    requires "eval" !in st.bodies && n > 0
    ensures Dispatch(w, "eval", args, st, n) ==
            match w.script(Join(args, " ")) case None => Some(Run(Fail, st)) case Some(items) => ExecList(w, items, st, n - 1)
    ensures !OwnScope("eval") && !OwnScope("local") && !OwnScope("set") && OwnScope("echo")
  {
    hide ExecList, Join, Concat;
  }

  // ---- A whole simple command ----

  /** b is r with the status turned around, if r ends normally. */
  predicate IsTurned(r: Option<Run>, b: Option<Run>) {
    match r
    case None => b == None
    case Some(Run(Normal, s)) => b == Some(Run(Normal, s.(status := if s.status == 0 then 1 else 0)))
    case _ => b == r
  }

  /** `!` turns the status of a command that ends normally around, and changes nothing else. */
  lemma BangTurnsTheStatus(w: World, words: seq<Word>, locals: seq<Def>, st: State, n: nat)
    requires words != []
    ensures IsTurned(ExecAtom(w, Simple(words, locals, false), st, n), ExecAtom(w, Simple(words, locals, true), st, n))
  {
    hide EvalWord, EvalArguments, ExecNamed, ExecInScope;
    var g := EvalWord(w, words[0], st, n);
    if g.Some? && g.value.out == Normal {
      var a := EvalArguments(w, words[1..], SplitsArguments(g.value.v), g.value.st, n);
      if a.Some? && a.value.out == Normal { TurnedNamed(w, g.value.v, a.value.v, locals, a.value.st, n); }
    }
  }

  lemma TurnedNamed(w: World, name: string, args: seq<string>, locals: seq<Def>, st: State, n: nat)
    ensures IsTurned(ExecNamed(w, name, args, locals, false, st, n), ExecNamed(w, name, args, locals, true, st, n))
  {
    hide ExecInScope, OwnScope, PopScope;
    TurnedInScope(w, name, args, locals, if OwnScope(name) then EnterScope(st) else st, n);
  }

  lemma TurnedInScope(w: World, name: string, args: seq<string>, locals: seq<Def>, st: State, n: nat)
    ensures IsTurned(ExecInScope(w, name, args, locals, false, st, n), ExecInScope(w, name, args, locals, true, st, n))
  {
    hide ExecDefs, Dispatch;
  }

  /** First the name, then the arguments, which `local`, `export` and `declare` do not split, then the
      definitions before the command, each in a scope of the command's own unless it is one of four, then
      the command; without a name it is `:`. Its scope is gone behind it. */
  lemma SimpleCommandsRun(w: World, words: seq<Word>, locals: seq<Def>, st: State, n: nat, name: string, s: State,
                          args: seq<string>, t: State, u: State, r: Run)
    requires words != [] && EvalWord(w, words[0], st, n) == Some(Got(Normal, name, s))
    requires EvalArguments(w, words[1..], !(name in {"local", "export", "declare"}), s, n) == Some(Got(Normal, args, t))
    requires var alone := name in {"local", "set", "declare", "eval"};
             ExecDefs(w, locals, true, if alone then t else t.(vars := PushScope(t.vars)), n) == Some(Run(Normal, u))
    requires Dispatch(w, if name == "" then ":" else name, args, u, n) == Some(r)
    ensures var alone := name in {"local", "set", "declare", "eval"};
            ExecAtom(w, Simple(words, locals, false), st, n) == Some(Run(r.out, if alone then r.st else r.st.(vars := PopOf(r.st.vars))))
  {
    hide EvalWord, EvalArguments, ExecDefs, Dispatch, ExecNamed;
    assert SplitsArguments(name) == !(name in {"local", "export", "declare"});
    ScopeAround(w, name, args, locals, t, n, u, r);
    assert ExecAtom(w, Simple(words, locals, false), st, n) == ExecNamed(w, name, args, locals, false, t, n);
  }

  lemma ScopeAround(w: World, name: string, args: seq<string>, locals: seq<Def>, t: State, n: nat, u: State, r: Run)
    requires var alone := name in {"local", "set", "declare", "eval"};
             ExecDefs(w, locals, true, if alone then t else t.(vars := PushScope(t.vars)), n) == Some(Run(Normal, u))
    requires Dispatch(w, if name == "" then ":" else name, args, u, n) == Some(r)
    ensures var alone := name in {"local", "set", "declare", "eval"};
            ExecNamed(w, name, args, locals, false, t, n) == Some(Run(r.out, if alone then r.st else r.st.(vars := PopOf(r.st.vars))))
  {
    hide ExecDefs, Dispatch;
    assert r.st.(vars := r.st.vars) == r.st;
  }

  /** `((…))` leaves the effects of its expressions and not even a status. */
  lemma ArithmeticCommands(w: World, items: seq<Arith>, st: State, n: nat, r: Res)
    requires EvalGroup(w.arith, items, st.vars, n) == Some(r)
    ensures ExecCompound(w, Arithmetic(items), st, n) ==
            Some(match r case Val(_, vars) => Run(Normal, st.(vars := vars)) case Exc(vars) => Run(Fail, st.(vars := vars)))
    ensures CompoundTree(Arithmetic(items)).kind == ARITHMETIC_EXPRESSION
  {
    hide EvalGroup;
  }

  // ---- Signals and errors pass on ----

  /** What a word throws, by a command substitution in it, everything around the word throws, in the state
      as it is then. */
  lemma WordsThrow(w: World, x: Word, st: State, n: nat, o: Outcome, s: string, t: State,
                   more: seq<Word>, locals: seq<Def>, bang: bool, arms: seq<Arm>, op: CompareOp, y: Word, local: bool, name: string,
                   input: bool, redirects: seq<Redirect>)
    requires EvalWord(w, x, st, n) == Some(Got(o, s, t)) && o != Normal
    ensures EvalArguments(w, [x] + more, local, st, n) == Some(Got(o, [], t))
    ensures EvalForWords(w, [x] + more, st, n) == Some(Got(o, [], t))
    ensures ExecAtom(w, Simple([x] + more, locals, bang), st, n) == Some(Run(o, t))
    ensures ExecCompound(w, Case(x, arms), st, n) == Some(Run(o, t))
    ensures ExecRedirects(w, [Redirect(input, x)] + redirects, st, n) == Some(Run(o, t))
    ensures ExecDef(w, Def(Name(name, []), Some(x)), local, st, n) == Some(Run(o, t))
    ensures var g := EvalPrim(w, Compare(op, x, y), st, n); g.Some? && g.value.out == o && g.value.st == t
    ensures var g := EvalPrim(w, NonEmpty(x), st, n); g.Some? && g.value.out == o && g.value.st == t
    ensures var g := EvalPrim(w, IsEmpty(bang, x), st, n); g.Some? && g.value.out == o && g.value.st == t
  {
    hide EvalWord, ExecNamed, ExecArms;
    assert ([x] + more)[0] == x && ([Redirect(input, x)] + redirects)[0] == Redirect(input, x);
    assert EvalIndex(w.arith, Name(name, []), st.vars, n) == Some(Val(0, st.vars));
    assert st.(vars := st.vars) == st;
  }

  /** What a list throws, the branch, the loop guard and the substitution around it throw; the substitution
      puts the streams back. */
  lemma ListsThrow(w: World, items: seq<Logic>, st: State, n: nat, r: Run, body: seq<Logic>, behind: seq<Clause>,
                   otherwise: seq<Logic>, until: bool, more: seq<Logic>)
    requires ExecList(w, items, st, n) == Some(r) && r.out != Normal
    ensures ExecCompound(w, If([Clause(items, body)] + behind, otherwise), st, n) == Some(r)
    ensures ExecCompound(w, While(until, items, body), st, n + 1) == Some(r)
    ensures ExecList(w, items + more, st, n) == Some(r)
  {
    hide ExecList, ExecCompound, WhileLoop;
    ListsRunInOrder(w, items, more, st, n, r);
    BranchMeaning(w, If([Clause(items, body)] + behind, otherwise), st, n);
    LoopMeaning(w, While(until, items, body), st, n + 1);
    assert ([Clause(items, body)] + behind)[0] == Clause(items, body);
    GuardThrows(w, items, st, n, r, body, until);
  }

  lemma GuardThrows(w: World, items: seq<Logic>, st: State, n: nat, r: Run, body: seq<Logic>, until: bool)
    requires ExecList(w, items, st, n) == Some(r) && r.out != Normal
    ensures WhileLoop(w, until, items, body, st, n + 1) == Some(r)
  {
    hide ExecList;
  }

  /** An arithmetic exception is an error of the word, the definition, the test and the loop that it is in,
      and so is a negative subscript. */
  lemma ArithmeticThrows(w: World, items: seq<Arith>, st: State, n: nat, r: Res, base: string, value: Option<Word>, local: bool,
                         test: seq<Arith>, body: seq<Logic>, step: seq<Arith>, op: CompareOp, text: string, other: string)
    requires items != [] && EvalGroup(w.arith, items, st.vars, n) == Some(r)
    ensures r.Exc? ==> EvalPart(w, ArithPart(items), st, n) == Some(Got(Fail, "", st.(vars := r.st)))
    ensures r.Exc? ==> ExecCompound(w, CFor(items, test, body, step), st, n) == Some(Run(Fail, st.(vars := r.st)))
    ensures r.Exc? ==> CForLoop(w, items, body, step, st, n + 1) == Some(Run(Fail, st.(vars := r.st)))
    ensures r.Exc? || r.v < 0 ==> EvalPart(w, VarPart(Name(base, items)), st, n) == Some(Got(Fail, "", st.(vars := r.st)))
    ensures r.Exc? || r.v < 0 ==> ExecDef(w, Def(Name(base, items), value), local, st, n) == Some(Run(Fail, st.(vars := r.st)))
    ensures forall t: Store | EvalText(w.arith, text, st.vars, n) == Some(Exc(t)) ::
              TestNumbers(w, op, text, other, st, n) == Some(Got(Fail, false, st.(vars := t)))
  {
    hide EvalGroup, ExecList, EvalWord, ExecCompound, EvalText;
    LoopMeaning(w, CFor(items, test, body, step), st, n);
  }

  lemma SubstitutionsThrow(w: World, raw: string, items: Script, st: State, n: nat, r: Run)
    requires n > 0 && w.script(Inner(raw)) == Some(items)
    requires ExecList(w, items, st.(texts := st.texts + [""], out := |st.texts|), n - 1) == Some(r) && r.out != Normal
    ensures EvalPart(w, SubPart(raw), st, n) == Some(Got(r.out, "", r.st.(out := st.out, err := st.err, inp := st.inp)))
  {
    hide ExecList, Inner;
    assert OpenStream(st).(out := |st.texts|) == st.(texts := st.texts + [""], out := |st.texts|);
    assert EvalPart(w, SubPart(raw), st, n) == RunSub(w, raw, st, n);
  }

  // ---- Conditions ----

  /** `[[ ]]` and `[ ]` set the status to 0 if the condition holds and to 1 if not. */
  lemma ConditionsSetTheStatus(w: World, keyword: bool, c: Cond, st: State, n: nat, v: bool, s: State)
    requires EvalCond(w, keyword, c, st, n) == Some(Got(Normal, v, s))
    ensures ExecCompound(w, Test(keyword, c), st, n) == Some(Run(Normal, s.(status := if v then 0 else 1)))
    ensures CompoundTree(Test(keyword, c)).children[0].kind == if keyword then KEYWORD_TEST else BUILTIN_TEST
  {
    hide ExecCompound, EvalCond, CondTree;
    BranchMeaning(w, Test(keyword, c), st, n);
  }

  /** In `[[ ]]` the right side of `||` and `&&` is not evaluated when the left decides; in `[ ]` the right
      side of `-o` and `-a` always is. */
  lemma ConditionsShortCircuit(w: World, keyword: bool, l: Cond, r: Cond, st: State, n: nat, x: bool, s: State, y: bool, t: State)
    requires EvalCond(w, keyword, l, st, n) == Some(Got(Normal, x, s))
    ensures keyword && x ==> EvalCond(w, keyword, Either(l, r), st, n) == Some(Got(Normal, true, s))
    ensures keyword && !x ==> EvalCond(w, keyword, Both(l, r), st, n) == Some(Got(Normal, false, s))
    ensures EvalCond(w, keyword, r, s, n) == Some(Got(Normal, y, t)) ==>
              && (!keyword || !x ==> EvalCond(w, keyword, Either(l, r), st, n) == Some(Got(Normal, x || y, t)))
              && (!keyword || x ==> EvalCond(w, keyword, Both(l, r), st, n) == Some(Got(Normal, x && y, t)))
    ensures EvalCond(w, keyword, Negate(l), st, n) == Some(Got(Normal, !x, s))
    ensures CondTree(keyword, Either(l, r)).kind == if keyword then LOGICOR else BUILTIN_LOGIC_OR
    ensures CondTree(keyword, Both(l, r)).kind == if keyword then LOGICAND else BUILTIN_LOGIC_AND
    ensures CondTree(keyword, Negate(l)).kind == NEGATION
  {
    hide EvalPrim, PrimTree;
  }

  /** a comes before b in the dictionary: at the first place where they differ it has the smaller character,
      or it ends there. */
  ghost predicate IsBefore(a: string, b: string) {
    exists k: nat | k <= |a| && k < |b| :: a[..k] == b[..k] && (k == |a| || a[k] < b[k])
  }

  lemma {:induction false} LessIsBefore(a: string, b: string)
    ensures Less(a, b) <==> IsBefore(a, b)
  {
    if a != "" && b != "" {
      LessIsBefore(a[1..], b[1..]);
      if IsBefore(a, b) {
        var k: nat :| k <= |a| && k < |b| && a[..k] == b[..k] && (k == |a| || a[k] < b[k]);
        if k > 0 {
          assert a[0] == a[..k][0] == b[..k][0] == b[0];
          assert a[1..][..k - 1] == a[..k][1..] == b[..k][1..] == b[1..][..k - 1];
        }
      }
      if a[0] == b[0] && IsBefore(a[1..], b[1..]) {
        var k: nat :| k <= |a[1..]| && k < |b[1..]| && a[1..][..k] == b[1..][..k] && (k == |a[1..]| || a[1..][k] < b[1..][k]);
        assert a[..k + 1] == [a[0]] + a[1..][..k] == [b[0]] + b[1..][..k] == b[..k + 1];
      }
      if a[0] < b[0] { assert a[..0] == b[..0]; }
    } else if a == "" && b != "" {
      assert a[..0] == b[..0];
    }
  }

  /** What a comparison of two texts tests, by the root of its tree. */
  ghost predicate TextsCompare(k: Kind, l: string, r: string, v: bool) {
    && (k == EQUALS ==> v == (l == r)) && (k == NOT_EQUALS ==> v == (l != r))
    && (k in {LESS_THAN, ESC_LT} ==> v == IsBefore(l, r)) && (k in {GREATER_THAN, ESC_GT} ==> v == IsBefore(r, l))
  }

  /** What a numeric test with this operator tests. */
  predicate NumbersCompare(op: string, x: int, y: int, v: bool) {
    && (op == "eq" ==> v == (x == y)) && (op == "ne" ==> v == (x != y))
    && (op == "lt" ==> v == (x < y)) && (op == "le" ==> v == (x <= y))
    && (op == "gt" ==> v == (x > y)) && (op == "ge" ==> v == (x >= y))
  }

  /** Both words are expanded, left before right; two texts are compared as they are, and for the numeric
      tests as the expressions that they spell. */
  lemma ComparisonsByToken(w: World, keyword: bool, op: CompareOp, l: Word, r: Word, st: State, n: nat,
                           a: string, s: State, b: string, t: State)
    requires EvalWord(w, l, st, n) == Some(Got(Normal, a, s)) && EvalWord(w, r, s, n) == Some(Got(Normal, b, t))
    ensures var g := EvalPrim(w, Compare(op, l, r), st, n); var root := PrimTree(keyword, Compare(op, l, r));
            && (root.kind != NAME ==>
                  g.Some? && g.value.out == Normal && g.value.st == t && TextsCompare(root.kind, a, b, g.value.v))
            && (forall x: int, u: Store, y: int, v: Store |
                  root.kind == NAME && EvalText(w.arith, a, t.vars, n) == Some(Val(x, u))
                  && EvalText(w.arith, b, u, n) == Some(Val(y, v)) ::
                  g.Some? && g.value.out == Normal && g.value.st == t.(vars := v) && NumbersCompare(root.text, x, y, g.value.v))
  {
    hide EvalWord, EvalText, Less, IsBefore, WordTree;
    LessIsBefore(a, b);
    LessIsBefore(b, a);
  }

  /** `-z` holds of an empty word, `-n` of any other, and so does a word alone. */
  lemma EmptinessTests(w: World, keyword: bool, p: Prim, st: State, n: nat, a: string, s: State)
    requires !p.Compare? && EvalWord(w, p.w, st, n) == Some(Got(Normal, a, s))
    ensures var g := EvalPrim(w, p, st, n); var root := PrimTree(keyword, p);
            && (root.kind == LETTER && root.text == "z" ==> g == Some(Got(Normal, a == "", s)))
            && (root.kind == LETTER && root.text == "n" ==> g == Some(Got(Normal, a != "", s)))
            && (root.kind == STRING ==> g == Some(Got(Normal, a != "", s)))
  {
    hide EvalWord, PartTrees;
  }
}
