/** INHERITED, the list of eclasses that `inherit` keeps. */
module InheritedList {
  import opened Text
  import opened VariableStore
  import opened Inherit

  /** The list after these eclasses have finished: a name goes to its end unless it occurs in it, as a
      part of another name if need be. */
  function Enrolled(list: string, log: seq<Done>): string
    decreases |log|
  {
    if log == [] then list
    else Enrolled(if Contains(list, log[0].eclass) then list else list + " " + log[0].eclass, log[1..])
  }

  lemma {:induction false} EnrolledTwice(list: string, a: seq<Done>, b: seq<Done>)
    ensures Enrolled(list, a + b) == Enrolled(Enrolled(list, a), b)
    decreases |a|
  {
    if a == [] {
      assert a + b == b;
    } else {
      assert (a + b)[0] == a[0] && (a + b)[1..] == a[1..] + b;
      EnrolledTwice(if Contains(list, a[0].eclass) then list else list + " " + a[0].eclass, a[1..], b);
    }
  }

  lemma ContainsMore(s: string, more: string, sub: string)
    requires Contains(s, sub)
    ensures Contains(s + more, sub)
  {
    var i :| 0 <= i <= |s| && OccursAt(s, sub, i);
    assert (s + more)[i..i + |sub|] == s[i..i + |sub|];
    assert OccursAt(s + more, sub, i);
  }

  lemma AtTheEnd(s: string, sub: string)
    ensures Contains(s + sub, sub)
  {
    assert (s + sub)[|s|..|s| + |sub|] == sub;
    assert OccursAt(s + sub, sub, |s|);
  }

  /** What was in the list stays in it, and the name of every eclass that has finished is in it. */
  lemma {:induction false} EveryoneIsEnrolled(list: string, log: seq<Done>)
    ensures list <= Enrolled(list, log)
    ensures forall d | d in log :: Contains(Enrolled(list, log), d.eclass)
    decreases |log|
  {
    if log != [] {
      var e := log[0].eclass;
      var next := if Contains(list, e) then list else list + " " + e;
      if !Contains(list, e) { AtTheEnd(list + " ", e); }
      EveryoneIsEnrolled(next, log[1..]);
      var end := Enrolled(next, log[1..]);
      assert end == next + end[|next|..];
      ContainsMore(next, end[|next|..], e);
      assert forall d | d in log :: d == log[0] || d in log[1..];
    }
  }

  // ---- Whole runs ----

  /** The list is none of the other names. */
  predicate ListApart(bk: Names) { WfNames(bk) && bk.inherited != "" && !IsFuncsName(bk.inherited) }

  /** Eclasses do not write the list themselves. */
  ghost predicate LeavesList(bk: Names, lib: Library) {
    forall eclass | lib(eclass).Some? :: StepsLeaveList(bk, lib(eclass).value)
  }

  predicate StepsLeaveList(bk: Names, steps: seq<Step>) {
    forall i | 0 <= i < |steps| :: !steps[i].Inherits? ==> steps[i].name != bk.inherited
  }

  predicate Listed(bk: Names, st: Store, a: After) {
    GlobalOnly(a.st, bk.inherited) && TextOf(a.st, bk.inherited) == Enrolled(TextOf(st, bk.inherited), a.log)
  }

  /** All that a run needs. */
  ghost predicate Provided(bk: Names, lib: Library, st: Store) {
    ListApart(bk) && WfLibrary(bk, lib) && LeavesList(bk, lib) && Ready(bk, st) && GlobalOnly(st, bk.inherited)
  }

  lemma Untouched(bk: Names, a: Store, b: Store, names: set<string>)
    requires ListApart(bk) && Only(a, b, names) && bk.inherited !in names
    ensures ReadsAlike(a, b, bk.inherited)
  {
    hide SameName, TextOf, LongOf, GlobalOnly, Only;
    OnlyReads(a, b, names);
  }

  lemma NotTracked(bk: Names)
    requires ListApart(bk)
    ensures bk.inherited !in Tracked(bk) && bk.inherited !in SetOf(bk.metas) && bk.inherited !in SetOf(CollectedAll(bk.metas))
    ensures bk.inherited != bk.depth && bk.inherited != bk.eclass && bk.inherited != bk.funcs
  {
    hide CollectedAll, Distinct, IsFuncsName;
    TrackedParts(bk, bk.inherited);
    InSetOf(bk.inherited, bk.metas);
    InSetOf(bk.inherited, CollectedAll(bk.metas));
  }

  lemma PrepareUntouched(bk: Names, eclass: string, st: Store, after: Store, saved: seq<string>)
    requires ListApart(bk) && Ready(bk, st) && Prepare(bk, eclass, st) == Some((after, saved))
    ensures ReadsAlike(st, after, bk.inherited)
  {
    hide SameName, TextOf, LongOf, GlobalOnly, Only, Put, Unset, Backup, CollectedAll, Distinct, IsFuncsName, SetOf, Tracked;
    NotTracked(bk);
    NamesApart(bk);
    ReadyNames(bk, st);
    var st1 := Put(st, bk.eclass, Str(eclass)).value;
    OnlyPut(st, bk.eclass, Str(eclass), st1);
    Untouched(bk, st, st1, {bk.eclass});
    var v := Var(map[0 := Str(FuncsName(TextOf(st1, bk.depth)))], false);
    var st2 := Define(st1, bk.funcs, v);
    OnlyDefine(st1, bk.funcs, v);
    Untouched(bk, st1, st2, {bk.funcs});
    FuncsGlobal(bk, st, st1);
    FuncsNameOk(TextOf(st1, bk.depth));
    var f := TextOf(st2, bk.funcs);
    var st3 := Unset(st2, f).value;
    OnlyUnset(st2, f, st3);
    Untouched(bk, st2, st3, {f});
    MetasGlobal(bk, st, st1, st2, st3, f);
    BackupFacts(st3, bk.metas, after, saved);
    Untouched(bk, st3, after, SetOf(bk.metas));
  }

  lemma FuncsGlobal(bk: Names, st: Store, st1: Store)
    requires WfNames(bk) && Ready(bk, st) && Only(st, st1, {bk.eclass})
    ensures GlobalOnly(st1, bk.funcs)
  {
    hide SameName, TextOf, LongOf, GlobalOnly, Only, CollectedAll, Tracked;
    NamesApart(bk);
    ReadyNames(bk, st);
    OnlyReads(st, st1, {bk.eclass});
    assert ReadsAlike(st, st1, bk.funcs);
  }

  lemma MetasGlobal(bk: Names, st: Store, st1: Store, st2: Store, st3: Store, f: string)
    requires WfNames(bk) && Ready(bk, st) && IsFuncsName(f)
    requires Only(st, st1, {bk.eclass}) && Only(st1, st2, {bk.funcs}) && Only(st2, st3, {f})
    ensures AllGlobal(st3, bk.metas)
  {
    hide SameName, TextOf, LongOf, GlobalOnly, Only, CollectedAll, IsFuncsName;
    NamesApart(bk);
    OnlyReads(st, st1, {bk.eclass});
    OnlyReads(st1, st2, {bk.funcs});
    OnlyReads(st2, st3, {f});
    forall m | m in bk.metas
      ensures m != "" && GlobalOnly(st3, m)
    {
      assert m in Tracked(bk) && m !in Protected(bk);
      assert bk.eclass in Protected(bk) && bk.funcs in Protected(bk);
      assert ReadsAlike(st, st1, m) && ReadsAlike(st1, st2, m) && ReadsAlike(st2, st3, m);
    }
  }

  /** Behind the file the list gets the eclass's name, if it is not in it. */
  lemma CleanUpEnrolls(bk: Names, eclass: string, st: Store, saved: seq<string>, after: Store, d: Done)
    requires |saved| == |bk.metas| && CleanUp(bk, eclass, st, saved) == Some(after) && d.eclass == eclass
    requires ListApart(bk) && Ready(bk, st) && FuncsOk(bk, st) && GlobalOnly(st, bk.inherited)
    ensures Listed(bk, st, After(after, [d]))
  {
    hide SameName, TextOf, LongOf, GlobalOnly, Only, Put, Unset, Append, Restore, Contains, CollectedAll, Distinct, Apart,
         IsFuncsName, SetOf, Tracked, Protected;
    NotTracked(bk);
    NamesApart(bk);
    ReadyNames(bk, st);
    var st1 := Append(st, bk.metas).value;
    AppendFacts(st, bk.metas, st1);
    Untouched(bk, st, st1, SetOf(CollectedAll(bk.metas)));
    AppendStep(bk, st, st1);
    ReadyNames(bk, st1);
    var st2 := Restore(st1, bk.metas, saved).value;
    RestoreFacts(st1, bk.metas, saved, st2);
    Untouched(bk, st1, st2, SetOf(bk.metas));
    RestoreStep(bk, st1, saved, st2);
    FuncsKept(bk, st1, st2);
    var f := TextOf(st2, bk.funcs);
    var st3 := Unset(st2, f).value;
    OnlyUnset(st2, f, st3);
    Untouched(bk, st2, st3, {f});
    if !Contains(TextOf(st3, bk.inherited), eclass) {
      OnlyPut(st3, bk.inherited, Str(TextOf(st3, bk.inherited) + " " + eclass), after);
    }
    OneEnrolled(TextOf(st, bk.inherited), d);
  }

  lemma OneEnrolled(list: string, d: Done)
    ensures Enrolled(list, [d]) == if Contains(list, d.eclass) then list else list + " " + d.eclass
  {
    hide Contains;
    assert [d][1..] == [];
  }

  lemma FuncsKept(bk: Names, a: Store, b: Store)
    requires forall x | x in Protected(bk) :: ReadsAlike(a, b, x)
    ensures TextOf(a, bk.funcs) == TextOf(b, bk.funcs)
  {
    assert bk.funcs in Protected(bk);
  }

  lemma ListedTwice(bk: Names, st: Store, a: After, b: After)
    requires Listed(bk, st, a) && Listed(bk, a.st, b)
    ensures Listed(bk, st, After(b.st, a.log + b.log))
  {
    hide TextOf, GlobalOnly, Enrolled;
    EnrolledTwice(TextOf(st, bk.inherited), a.log, b.log);
  }

  lemma {:induction false} StepListed(bk: Names, lib: Library, s: Step, st: Store, n: nat, a: After)
    requires RunStep(bk, lib, s, st, n) == Some(a) && Provided(bk, lib, st)
    requires WfStep(bk, s) && (!s.Inherits? ==> s.name != bk.inherited)
    ensures Listed(bk, st, a)
    decreases n, 5, 0
  {
    hide TextOf, LongOf, GlobalOnly, SameName, Put, Unset, Exec, Only, ListApart, WfLibrary, LeavesList, Ready;
    match s
    case Write(name, value) =>
      OnlyPut(st, name, Str(value(st)), a.st);
      Untouched(bk, st, a.st, {name});
    case Erase(name) =>
      OnlyUnset(st, name, a.st);
      Untouched(bk, st, a.st, {name});
    case Inherits(eclasses) => ExecListed(bk, lib, eclasses(st), st, n, a);
  }

  lemma {:induction false} StepsListed(bk: Names, lib: Library, steps: seq<Step>, st: Store, n: nat, a: After)
    requires RunSteps(bk, lib, steps, st, n) == Some(a) && Provided(bk, lib, st)
    requires WfSteps(bk, steps) && StepsLeaveList(bk, steps)
    ensures Listed(bk, st, a)
    decreases n, 5, |steps|
  {
    hide TextOf, LongOf, GlobalOnly, RunStep, ListApart, WfLibrary, LeavesList, Ready, Grew, WfStep, FuncsOk;
    if steps != [] {
      var x := RunStep(bk, lib, steps[0], st, n).value;
      var y := RunSteps(bk, lib, steps[1..], x.st, n).value;
      assert WfStep(bk, steps[0]) && WfSteps(bk, steps[1..]) && WfNames(bk) by { ApartNames(bk); }
      StepListed(bk, lib, steps[0], st, n, x);
      StepFacts(bk, lib, steps[0], st, n, x);
      StepsListed(bk, lib, steps[1..], x.st, n, y);
      ListedTwice(bk, st, x, y);
    }
  }

  lemma ApartNames(bk: Names)
    requires ListApart(bk)
    ensures WfNames(bk)
  {
    hide WfNames;
  }

  lemma {:induction false} OneListed(bk: Names, lib: Library, eclass: string, st: Store, n: nat, a: After)
    requires One(bk, lib, eclass, st, n) == Some(a) && Provided(bk, lib, st)
    ensures Listed(bk, st, a)
    decreases n, 2
  {
    hide TextOf, LongOf, GlobalOnly, Prepare, CleanUp, RunSteps, ListApart, Ready, Grew, FuncsOk, Enrolled, WfSteps, StepsLeaveList;
    ApartNames(bk);
    var p := Prepare(bk, eclass, st).value;
    var s := Source(bk, lib, eclass, p.0, n).value;
    PrepareFacts(bk, eclass, st, p.0, p.1);
    PrepareUntouched(bk, eclass, st, p.0, p.1);
    StepsFacts(bk, lib, lib(eclass).value, p.0, n - 1, s);
    StepsListed(bk, lib, lib(eclass).value, p.0, n - 1, s);
    var d := Done(eclass, Values(s.st, bk.metas));
    CleanUpEnrolls(bk, eclass, s.st, p.1, a.st, d);
    ListedTwice(bk, st, s, After(a.st, [d]));
  }

  lemma {:induction false} EachListed(bk: Names, lib: Library, eclasses: seq<string>, st: Store, n: nat, a: After)
    requires Each(bk, lib, eclasses, st, n) == Some(a) && Provided(bk, lib, st)
    ensures Listed(bk, st, a)
    decreases n, 3, |eclasses|
  {
    hide TextOf, LongOf, GlobalOnly, One, ListApart, WfLibrary, LeavesList, Ready, Grew, FuncsOk;
    if eclasses != [] {
      ApartNames(bk);
      var x := One(bk, lib, eclasses[0], st, n).value;
      var y := Each(bk, lib, eclasses[1..], x.st, n).value;
      OneListed(bk, lib, eclasses[0], st, n, x);
      OneFacts(bk, lib, eclasses[0], st, n, x);
      EachListed(bk, lib, eclasses[1..], x.st, n, y);
      ListedTwice(bk, st, x, y);
    }
  }

  /** Behind every run of `inherit` that completes, however deeply the eclasses inherit, the list is as it
      was, with the names of the eclasses that have finished enrolled in the order of completion. */
  lemma {:induction false} ExecListed(bk: Names, lib: Library, eclasses: seq<string>, st: Store, n: nat, a: After)
    requires Exec(bk, lib, eclasses, st, n) == Some(a) && Provided(bk, lib, st)
    ensures Listed(bk, st, a)
    decreases n, 4
  {
    hide TextOf, LongOf, GlobalOnly, SameName, Only, Each, WfLibrary, LeavesList, Ready, Put, Unset, Grew, FuncsOk, ListApart, Enrolled;
    ApartNames(bk);
    NotTracked(bk);
    var d := LongOf(st, bk.depth);
    var st1 := Put(st, bk.depth, Num(d + 1)).value;
    DepthStep(bk, st, d + 1, st1);
    OnlyPut(st, bk.depth, Num(d + 1), st1);
    Untouched(bk, st, st1, {bk.depth});
    var b := Each(bk, lib, eclasses, st1, n).value;
    EachListed(bk, lib, eclasses, st1, n, b);
    FinishUntouched(bk, b.st, TextOf(st1, bk.eclass), a.st);
  }

  /** Hence nobody is dropped from it, and everybody who has finished is in it. */
  lemma NobodyIsMissing(bk: Names, lib: Library, eclasses: seq<string>, st: Store, n: nat, a: After)
    requires Exec(bk, lib, eclasses, st, n) == Some(a) && Provided(bk, lib, st)
    ensures TextOf(st, bk.inherited) <= TextOf(a.st, bk.inherited)
    ensures forall d | d in a.log :: Contains(TextOf(a.st, bk.inherited), d.eclass)
  {
    hide TextOf, Exec, Provided, Contains, Enrolled;
    ExecListed(bk, lib, eclasses, st, n, a);
    EveryoneIsEnrolled(TextOf(st, bk.inherited), a.log);
  }

  lemma EbuildListApart()
    ensures ListApart(EBUILD)
  {
    hide WfNames, IsFuncsName;
    EbuildNames();
    NoFuncsName("INHERITED");
  }

  lemma FinishUntouched(bk: Names, st: Store, caller: string, after: Store)
    requires ListApart(bk) && Finish(bk, st, caller) == Some(after)
    ensures ReadsAlike(st, after, bk.inherited)
  {
    hide TextOf, LongOf, GlobalOnly, SameName, Only, Put, Unset, ListApart;
    NotTracked(bk);
    var d := LongOf(st, bk.depth) - 1;
    var st1 := Put(st, bk.depth, Num(d)).value;
    OnlyPut(st, bk.depth, Num(d), st1);
    Untouched(bk, st, st1, {bk.depth});
    if LongOf(st1, bk.depth) > 0 {
      OnlyPut(st1, bk.eclass, Str(caller), after);
      Untouched(bk, st1, after, {bk.eclass});
    } else {
      var st2 := Unset(st1, bk.eclass).value;
      OnlyUnset(st1, bk.eclass, st2);
      Untouched(bk, st1, st2, {bk.eclass});
      OnlyUnset(st2, bk.funcs, after);
      Untouched(bk, st2, after, {bk.funcs});
    }
  }
}
