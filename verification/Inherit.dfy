/** The `inherit` builtin: it saves and clears the ebuild metadata around sourcing an eclass, whose own
    code may inherit further, and collects what each eclass has set. */
module Inherit {
  import opened Text
  import opened VariableStore

  /** One command of an eclass, as far as variables go. What it writes and what it inherits may depend on
      the variables. */
  datatype Step =
    | Write(name: string, value: Store -> string)
    | Erase(name: string)
    | Inherits(eclasses: Store -> seq<string>)

  /** The eclass files: none for a name that cannot be sourced. */
  type Library = string -> Option<seq<Step>>

  /** An eclass whose file has been run, with the metadata as the file left it. */
  datatype Done = Done(eclass: string, values: seq<string>)

  datatype After = After(st: Store, log: seq<Done>)

  /** The names under which the builtin keeps its books, and the metadata variables in the order of the
      source. */
  datatype Names = Names(depth: string, eclass: string, funcs: string, inherited: string, metas: seq<string>)

  const EBUILD := Names("ECLASS_DEPTH", "ECLASS", "__export_funcs_var", "INHERITED",
                        ["IUSE", "REQUIRED_USE", "DEPEND", "RDEPEND", "PDEPEND"])

  function Collected(m: string): string { "E_" + m }

  function TextOf(st: Store, name: string): string { ResolveString(st, name, 0) }

  function LongOf(st: Store, name: string): int { ResolveLong(st, name, 0) }

  function Put(st: Store, name: string, v: Value): Option<Store> { SetValue(st, name, v, 0) }

  // ---- The builtin; None when it throws or the bound n is too small ----

  /** backup_global for each name. */
  function Backup(st: Store, ms: seq<string>): Option<(Store, seq<string>)>
    decreases |ms|
  {
    if ms == [] then Some((st, []))
    else
      var v := TextOf(st, ms[0]);
      var st1 :- Unset(st, ms[0]);
      var r :- Backup(st1, ms[1..]);
      Some((r.0, [v] + r.1))
  }

  /** append_global for each name: skipped when unset or empty. */
  function Append(st: Store, ms: seq<string>): Option<Store>
    decreases |ms|
  {
    if ms == [] then Some(st)
    else
      var st1 :- if TextOf(st, ms[0]) == "" then Some(st)
                 else Put(st, Collected(ms[0]), Str(TextOf(st, Collected(ms[0])) + " " + TextOf(st, ms[0])));
      Append(st1, ms[1..])
  }

  /** restore_global for each name: an empty value is unset. */
  function Restore(st: Store, ms: seq<string>, vs: seq<string>): Option<Store>
    requires |ms| == |vs|
    decreases |ms|
  {
    if ms == [] then Some(st)
    else
      var st1 :- if vs[0] != "" then Put(st, ms[0], Str(vs[0])) else Unset(st, ms[0]);
      Restore(st1, ms[1..], vs[1..])
  }

  function FuncsName(depth: string): string { "__export_functions_" + depth }

  /** Up to where the file is sourced. */
  function Prepare(bk: Names, eclass: string, st: Store): Option<(Store, seq<string>)> {
    var st1 :- Put(st, bk.eclass, Str(eclass));
    var st2 := Define(st1, bk.funcs, Var(map[0 := Str(FuncsName(TextOf(st1, bk.depth)))], false));
    var st3 :- Unset(st2, TextOf(st2, bk.funcs));
    Backup(st3, bk.metas)
  }

  /** `target.find(value) != npos`. */
  predicate Contains(s: string, sub: string) {
    exists i | 0 <= i <= |s| :: OccursAt(s, sub, i)
  }

  predicate OccursAt(s: string, sub: string, i: nat) { i + |sub| <= |s| && s[i..i + |sub|] == sub }

  /** What follows. */
  function CleanUp(bk: Names, eclass: string, st: Store, saved: seq<string>): Option<Store>
    requires |saved| == |bk.metas|
  {
    var st1 :- Append(st, bk.metas);
    var st2 :- Restore(st1, bk.metas, saved);
    var st3 :- Unset(st2, TextOf(st2, bk.funcs));
    if Contains(TextOf(st3, bk.inherited), eclass) then Some(st3)
    else Put(st3, bk.inherited, Str(TextOf(st3, bk.inherited) + " " + eclass))
  }

  function Values(st: Store, ms: seq<string>): (vs: seq<string>)
    ensures |vs| == |ms| && forall i | 0 <= i < |ms| :: vs[i] == TextOf(st, ms[i])
  {
    seq(|ms|, i requires 0 <= i < |ms| => TextOf(st, ms[i]))
  }

  function One(bk: Names, lib: Library, eclass: string, st: Store, n: nat): Option<After>
    decreases n, 2
  {
    var p :- Prepare(bk, eclass, st);
    var s :- Source(bk, lib, eclass, p.0, n);
    if |p.1| != |bk.metas| then None
    else
      var st1 :- CleanUp(bk, eclass, s.st, p.1);
      Some(After(st1, s.log + [Done(eclass, Values(s.st, bk.metas))]))
  }

  function Each(bk: Names, lib: Library, eclasses: seq<string>, st: Store, n: nat): Option<After>
    decreases n, 3, |eclasses|
  {
    if eclasses == [] then Some(After(st, []))
    else
      var a :- One(bk, lib, eclasses[0], st, n);
      var b :- Each(bk, lib, eclasses[1..], a.st, n);
      Some(After(b.st, a.log + b.log))
  }

  /** exec. */
  function Exec(bk: Names, lib: Library, eclasses: seq<string>, st: Store, n: nat): Option<After>
    decreases n, 4
  {
    var st1 :- Put(st, bk.depth, Num(LongOf(st, bk.depth) + 1));
    var a :- Each(bk, lib, eclasses, st1, n);
    var st2 :- Finish(bk, a.st, TextOf(st1, bk.eclass));
    Some(After(st2, a.log))
  }

  function Finish(bk: Names, st: Store, caller: string): Option<Store> {
    var st1 :- Put(st, bk.depth, Num(LongOf(st, bk.depth) - 1));
    if LongOf(st1, bk.depth) > 0 then Put(st1, bk.eclass, Str(caller))
    else
      var st2 :- Unset(st1, bk.eclass);
      Unset(st2, bk.funcs)
  }

  /** `source`: the file's commands, which may inherit in their turn. */
  function Source(bk: Names, lib: Library, eclass: string, st: Store, n: nat): Option<After>
    decreases n, 1
  {
    if n == 0 then None
    else
      var steps :- lib(eclass);
      RunSteps(bk, lib, steps, st, n - 1)
  }

  function RunSteps(bk: Names, lib: Library, steps: seq<Step>, st: Store, n: nat): Option<After>
    decreases n, 5, |steps|
  {
    if steps == [] then Some(After(st, []))
    else
      var a :- RunStep(bk, lib, steps[0], st, n);
      var b :- RunSteps(bk, lib, steps[1..], a.st, n);
      Some(After(b.st, a.log + b.log))
  }

  function RunStep(bk: Names, lib: Library, s: Step, st: Store, n: nat): Option<After>
    decreases n, 5, 0
  {
    match s
    case Write(name, value) =>
      var st1 :- Put(st, name, Str(value(st)));
      Some(After(st1, []))
    case Erase(name) =>
      var st1 :- Unset(st, name);
      Some(After(st1, []))
    case Inherits(eclasses) => Exec(bk, lib, eclasses(st), st, n)
  }

  // ---- One operation on one name ----

  /** The name is bound alike in every scope. */
  predicate SameName(a: Store, b: Store, name: string) {
    && |a.frames| == |b.frames|
    && forall j | 0 <= j <= |a.frames| :: SameBinding(a.Scopes()[j], b.Scopes()[j], name)
  }

  /** Bound globally or not at all. */
  predicate GlobalOnly(st: Store, name: string) {
    forall j | 1 <= j <= |st.frames| :: name !in st.Scopes()[j]
  }

  lemma SameReads(a: Store, b: Store, name: string)
    requires SameName(a, b, name)
    ensures TextOf(a, name) == TextOf(b, name) && LongOf(a, name) == LongOf(b, name)
    ensures GlobalOnly(a, name) <==> GlobalOnly(b, name)
  {
    assert forall j | 0 <= j <= |a.frames| :: SameBinding(a.Scopes()[j], b.Scopes()[j], name);
    InnermostAgree(a.Scopes(), b.Scopes(), |a.frames| + 1, name);
  }

  lemma GlobalHome(st: Store, name: string)
    requires GlobalOnly(st, name) && name != ""
    ensures Home(st, name) == if name in st.globals then Some(0) else None
  {
    var h := Home(st, name);
    assert st.Scopes()[0] == st.globals;
  }

  lemma SameAfterWrite(st: Store, h: nat, s: Scope, other: string)
    requires h <= |st.frames| && SameBinding(s, st.Scopes()[h], other)
    ensures SameName(st, st.WithScope(h, s), other)
  {
    WithScopeScopes(st, h, s);
  }

  lemma GlobalWrite(st: Store, s: Scope, name: string)
    requires GlobalOnly(st, name)
    ensures GlobalOnly(st.WithScope(0, s), name)
  {
    WithScopeScopes(st, 0, s);
  }

  lemma PutFacts(st: Store, name: string, v: Value, after: Store)
    requires Put(st, name, v) == Some(after)
    ensures forall other | other != name :: SameName(st, after, other)
    ensures GlobalOnly(st, name) && name != "" ==>
      TextOf(after, name) == v.AsString() && LongOf(after, name) == v.AsLong() && GlobalOnly(after, name)
  {
    hide Innermost;
    var h := if Home(st, name).Some? then Home(st, name).value else 0;
    var s := if Home(st, name).Some? then st.Scopes()[h][name := Var(st.Scopes()[h][name].values[0 := v], false)]
             else st.globals[name := Var(map[0 := v], false)];
    assert after == st.WithScope(h, s);
    forall other | other != name
      ensures SameName(st, after, other)
    {
      SameAfterWrite(st, h, s, other);
    }
    if GlobalOnly(st, name) && name != "" {
      GlobalHome(st, name);
      GlobalWrite(st, s, name);
      GlobalHome(after, name);
    }
  }

  lemma UnsetFacts(st: Store, name: string, after: Store)
    requires Unset(st, name) == Some(after)
    ensures forall other | other != name && other != "" :: SameName(st, after, other)
    ensures GlobalOnly(st, name) && name != "" ==> TextOf(after, name) == "" && GlobalOnly(after, name)
  {
    if name == "" {
      forall other | other != name && other != ""
        ensures SameName(st, after, other)
      {
        UnsetEmptyOther(st, |st.frames| + 1, other);
        assert forall j | 0 <= j <= |st.frames| :: SameBinding(after.Scopes()[j], st.Scopes()[j], other);
      }
    } else {
      UnsetNamed(st, name, after);
    }
  }

  lemma UnsetNamed(st: Store, name: string, after: Store)
    requires Unset(st, name) == Some(after) && name != ""
    ensures forall other | other != name :: SameName(st, after, other)
    ensures GlobalOnly(st, name) ==> TextOf(after, name) == "" && GlobalOnly(after, name)
  {
    hide Innermost;
    if Home(st, name).Some? {
      var h := Home(st, name).value;
      var s := st.Scopes()[h] - {name};
      forall other | other != name
        ensures SameName(st, after, other)
      {
        SameAfterWrite(st, h, s, other);
      }
    }
    if GlobalOnly(st, name) {
      GlobalHome(st, name);
      GlobalWrite(st, st.globals - {name}, name);
      GlobalHome(after, name);
    }
  }

  lemma DefineFacts(st: Store, name: string, v: Var)
    ensures var after := Define(st, name, v);
            && (forall other | other != name :: SameName(st, after, other))
            && (GlobalOnly(st, name) && name != "" ==> TextOf(after, name) == v.StringAt(0) && GlobalOnly(after, name))
  {
    hide Innermost;
    var after := Define(st, name, v);
    forall other | other != name
      ensures SameName(st, after, other)
    {
      SameAfterWrite(st, 0, st.globals[name := v], other);
    }
    if GlobalOnly(st, name) && name != "" {
      GlobalWrite(st, st.globals[name := v], name);
      GlobalHome(after, name);
    }
  }

  /** Nothing but these names has changed. */
  ghost predicate Only(a: Store, b: Store, names: set<string>) {
    forall other | other !in names && other != "" :: SameName(a, b, other)
  }

  lemma OnlyTrans(a: Store, b: Store, c: Store, x: set<string>, y: set<string>)
    requires Only(a, b, x) && Only(b, c, y)
    ensures Only(a, c, x + y)
  {
    hide SameName;
    forall other | other !in x + y && other != ""
      ensures SameName(a, c, other)
    {
      assert SameName(a, b, other) && SameName(b, c, other);
      SameTrans(a, b, c, other);
    }
  }

  lemma SameTrans(a: Store, b: Store, c: Store, name: string)
    requires SameName(a, b, name) && SameName(b, c, name)
    ensures SameName(a, c, name)
  {
    forall j | 0 <= j <= |a.frames|
      ensures SameBinding(a.Scopes()[j], c.Scopes()[j], name)
    {
      assert SameBinding(a.Scopes()[j], b.Scopes()[j], name) && SameBinding(b.Scopes()[j], c.Scopes()[j], name);
    }
  }

  lemma OnlyRefl(st: Store)
    ensures Only(st, st, {})
  {
    forall other ensures SameName(st, st, other) { SameRefl(st, other); }
  }

  lemma SameRefl(st: Store, name: string)
    ensures SameName(st, st, name)
  {
  }

  predicate ReadsAlike(a: Store, b: Store, name: string) {
    TextOf(a, name) == TextOf(b, name) && LongOf(a, name) == LongOf(b, name) && (GlobalOnly(a, name) <==> GlobalOnly(b, name))
  }

  lemma OnlyReads(a: Store, b: Store, names: set<string>)
    requires Only(a, b, names)
    ensures forall other | other !in names && other != "" :: ReadsAlike(a, b, other)
  {
    hide SameName, TextOf, LongOf, GlobalOnly;
    forall other | other !in names && other != ""
      ensures ReadsAlike(a, b, other)
    {
      assert SameName(a, b, other);
      SameReads(a, b, other);
    }
  }

  // ---- The three loops over the metadata ----

  predicate Distinct(ms: seq<string>) { forall i, j | 0 <= i < j < |ms| :: ms[i] != ms[j] }

  function SetOf(ms: seq<string>): set<string> { set m | m in ms }

  function CollectedAll(ms: seq<string>): (r: seq<string>)
    ensures |r| == |ms| && forall i | 0 <= i < |ms| :: r[i] == Collected(ms[i])
  {
    seq(|ms|, i requires 0 <= i < |ms| => Collected(ms[i]))
  }

  predicate AllGlobal(st: Store, ms: seq<string>) { forall m | m in ms :: m != "" && GlobalOnly(st, m) }

  lemma Tail(ms: seq<string>)
    requires ms != [] && Distinct(ms)
    ensures Distinct(ms[1..]) && ms[0] !in ms[1..]
    ensures forall m | m in ms[1..] :: m in ms && m != ms[0]
    ensures forall m | m in ms :: m == ms[0] || m in ms[1..]
    ensures SetOf(ms) == {ms[0]} + SetOf(ms[1..])
  {
    forall m | m in ms[1..]
      ensures m in ms && m != ms[0]
    {
      var i :| 0 <= i < |ms[1..]| && ms[1..][i] == m;
      assert ms[i + 1] == m;
    }
    forall m | m in ms
      ensures m == ms[0] || m in ms[1..]
    {
      var i :| 0 <= i < |ms| && ms[i] == m;
      if i > 0 { assert ms[1..][i - 1] == m; }
    }
  }

  lemma {:induction false} BackupFacts(st: Store, ms: seq<string>, after: Store, saved: seq<string>)
    requires Backup(st, ms) == Some((after, saved)) && Distinct(ms) && AllGlobal(st, ms)
    ensures saved == Values(st, ms) && AllGlobal(after, ms) && Only(st, after, SetOf(ms))
    ensures forall m | m in ms :: TextOf(after, m) == ""
    decreases |ms|
  {
    hide TextOf, LongOf, Unset, GlobalOnly, SameName, Distinct, Only, SetOf;
    if ms != [] {
      var st1, rest := Unset(st, ms[0]).value, ms[1..];
      Tail(ms);
      OnlyUnset(st, ms[0], st1);
      OnlyReads(st, st1, {ms[0]});
      assert ms[0] in ms && ms[0] != "";
      assert forall m | m in rest :: m in ms && m != "" && ReadsAlike(st, st1, m);
      BackupFacts(st1, rest, after, saved[1..]);
      OnlyReads(st1, after, SetOf(rest));
      OnlyTrans(st, st1, after, {ms[0]}, SetOf(rest));
      assert ms[0] !in SetOf(rest) by { InSetOf(ms[0], rest); }
      ValuesTail(st, st1, ms);
      assert saved == [TextOf(st, ms[0])] + Values(st1, rest);
    } else {
      OnlyRefl(st);
      assert SetOf(ms) == {} by { EmptySetOf(); }
    }
  }

  lemma ValuesTail(st: Store, st1: Store, ms: seq<string>)
    requires ms != [] && forall m | m in ms[1..] :: ReadsAlike(st, st1, m)
    ensures Values(st, ms) == [TextOf(st, ms[0])] + Values(st1, ms[1..])
  {
    hide TextOf, LongOf, GlobalOnly;
    forall i | 0 <= i < |ms| - 1
      ensures Values(st, ms)[i + 1] == Values(st1, ms[1..])[i]
    {
      assert ms[1..][i] in ms[1..];
    }
    var a, b := Values(st, ms), [TextOf(st, ms[0])] + Values(st1, ms[1..]);
    assert forall i | 0 < i < |ms| :: a[i] == Values(st1, ms[1..])[i - 1];
    assert a == b;
  }

  lemma InSetOf(m: string, ms: seq<string>)
    ensures m in SetOf(ms) <==> m in ms
  {
  }

  lemma EmptySetOf()
    ensures SetOf([]) == {}
  {
  }

  lemma OnlyUnset(st: Store, name: string, after: Store)
    requires Unset(st, name) == Some(after)
    ensures Only(st, after, {name})
    ensures GlobalOnly(st, name) && name != "" ==> TextOf(after, name) == "" && GlobalOnly(after, name)
  {
    hide SameName, Unset, TextOf, GlobalOnly;
    UnsetFacts(st, name, after);
  }

  lemma OnlyPut(st: Store, name: string, v: Value, after: Store)
    requires Put(st, name, v) == Some(after)
    ensures Only(st, after, {name})
    ensures GlobalOnly(st, name) && name != "" ==>
      TextOf(after, name) == v.AsString() && LongOf(after, name) == v.AsLong() && GlobalOnly(after, name)
  {
    hide SameName, Put, TextOf, LongOf, GlobalOnly;
    PutFacts(st, name, v, after);
  }

  /** What a non-empty value adds. */
  function Addition(v: string): string { if v == "" then "" else " " + v }

  predicate Apart(ms: seq<string>) { forall a, b | a in ms && b in ms :: Collected(a) != b }

  lemma CollectedTail(ms: seq<string>)
    requires ms != []
    ensures CollectedAll(ms)[0] == Collected(ms[0]) && CollectedAll(ms)[1..] == CollectedAll(ms[1..])
    ensures Distinct(ms) ==> Distinct(CollectedAll(ms))
  {
    var cs := CollectedAll(ms);
    if Distinct(ms) {
      forall i, j | 0 <= i < j < |cs|
        ensures cs[i] != cs[j]
      {
        assert cs[i][2..] == ms[i] && cs[j][2..] == ms[j];
      }
    }
  }

  lemma {:induction false} AppendFacts(st: Store, ms: seq<string>, after: Store)
    requires Append(st, ms) == Some(after) && Distinct(ms) && Apart(ms)
    requires AllGlobal(st, CollectedAll(ms)) && "" !in ms
    ensures AllGlobal(after, CollectedAll(ms)) && Only(st, after, SetOf(CollectedAll(ms)))
    ensures forall i | 0 <= i < |ms| ::
      TextOf(after, CollectedAll(ms)[i]) == TextOf(st, CollectedAll(ms)[i]) + Addition(TextOf(st, ms[i]))
    decreases |ms|
  {
    hide TextOf, LongOf, Put, GlobalOnly, SameName, Distinct, Only, SetOf, CollectedAll, Collected;
    if ms != [] {
      var e, rest := Collected(ms[0]), ms[1..];
      var st1 := (if TextOf(st, ms[0]) == "" then Some(st) else Put(st, e, Str(TextOf(st, e) + " " + TextOf(st, ms[0])))).value;
      var cs := CollectedAll(ms);
      Tail(ms);
      CollectedTail(ms);
      Tail(cs);
      assert e in cs;
      OneAppend(st, ms[0], st1);
      OnlyReads(st, st1, {e});
      assert forall c | c in cs[1..] :: c in cs && c != "" && ReadsAlike(st, st1, c);
      assert forall m | m in rest :: m != e && m != "" && ReadsAlike(st, st1, m);
      AppendFacts(st1, rest, after);
      OnlyReads(st1, after, SetOf(cs[1..]));
      OnlyTrans(st, st1, after, {e}, SetOf(cs[1..]));
      InSetOf(e, cs[1..]);
      assert ReadsAlike(st1, after, e);
      forall i | 0 <= i < |ms|
        ensures TextOf(after, cs[i]) == TextOf(st, cs[i]) + Addition(TextOf(st, ms[i]))
      {
        if i > 0 { assert rest[i - 1] == ms[i] && cs[1..][i - 1] == cs[i] && ms[i] in rest && cs[i] in cs[1..]; }
      }
    } else {
      OnlyRefl(st);
      EmptySetOf();
      assert CollectedAll(ms) == [];
    }
  }

  lemma OneAppend(st: Store, m: string, after: Store)
    requires (if TextOf(st, m) == "" then Some(st)
              else Put(st, Collected(m), Str(TextOf(st, Collected(m)) + " " + TextOf(st, m)))) == Some(after)
    requires GlobalOnly(st, Collected(m))
    ensures Only(st, after, {Collected(m)}) && GlobalOnly(after, Collected(m))
    ensures TextOf(after, Collected(m)) == TextOf(st, Collected(m)) + Addition(TextOf(st, m))
  {
    hide TextOf, Put, GlobalOnly, SameName;
    var e, v := TextOf(st, Collected(m)), TextOf(st, m);
    if v == "" {
      OnlyRefl(st);
      assert e + "" == e;
    } else {
      OnlyPut(st, Collected(m), Str(e + " " + v), after);
      assert e + " " + v == e + (" " + v);
    }
  }

  lemma {:induction false} RestoreFacts(st: Store, ms: seq<string>, vs: seq<string>, after: Store)
    requires |ms| == |vs| && Restore(st, ms, vs) == Some(after) && Distinct(ms) && AllGlobal(st, ms)
    ensures AllGlobal(after, ms) && Only(st, after, SetOf(ms))
    ensures forall i | 0 <= i < |ms| :: TextOf(after, ms[i]) == vs[i]
    decreases |ms|
  {
    hide TextOf, LongOf, Put, Unset, GlobalOnly, SameName, Distinct, Only, SetOf;
    if ms != [] {
      var m, rest := ms[0], ms[1..];
      var st1 := (if vs[0] != "" then Put(st, m, Str(vs[0])) else Unset(st, m)).value;
      Tail(ms);
      assert m in ms && m != "" && GlobalOnly(st, m);
      if vs[0] != "" { OnlyPut(st, m, Str(vs[0]), st1); } else { OnlyUnset(st, m, st1); }
      OnlyReads(st, st1, {m});
      assert forall x | x in rest :: ReadsAlike(st, st1, x);
      RestoreFacts(st1, rest, vs[1..], after);
      OnlyReads(st1, after, SetOf(rest));
      OnlyTrans(st, st1, after, {m}, SetOf(rest));
      InSetOf(m, rest);
      assert ReadsAlike(st1, after, m);
    } else {
      OnlyRefl(st);
      EmptySetOf();
    }
  }

  // ---- The names ----

  /** All that the builtin keeps its books in. */
  function Tracked(bk: Names): seq<string> { [bk.depth, bk.eclass, bk.funcs] + bk.metas + CollectedAll(bk.metas) }

  /** What an eclass may not write itself. */
  function Protected(bk: Names): seq<string> { [bk.depth, bk.eclass, bk.funcs] + CollectedAll(bk.metas) }

  predicate IsFuncsName(s: string) { s == "" || (|s| >= 14 && s[..14] == "__export_funct") }

  /** The books, the metadata and the collections do not collide. */
  predicate WfNames(bk: Names) {
    && Distinct(bk.metas) && Apart(bk.metas)
    && (forall m | m in bk.metas :: m !in Protected(bk))
    && (forall c | c in CollectedAll(bk.metas) :: c !in [bk.depth, bk.eclass, bk.funcs] && c !in bk.metas)
    && (forall x | x in Tracked(bk) :: x != "" && x != bk.inherited && !IsFuncsName(x))
    && bk.depth != bk.eclass && bk.depth != bk.funcs && bk.eclass != bk.funcs
  }

  lemma NamesApart(bk: Names)
    requires WfNames(bk)
    ensures Distinct(bk.metas) && Apart(bk.metas) && "" !in bk.metas
    ensures forall m | m in bk.metas :: m !in Protected(bk)
    ensures forall c | c in CollectedAll(bk.metas) :: c !in [bk.depth, bk.eclass, bk.funcs] && c !in bk.metas
    ensures forall x | x in Tracked(bk) :: x != "" && x != bk.inherited && !IsFuncsName(x)
    ensures bk.depth != bk.eclass && bk.depth != bk.funcs && bk.eclass != bk.funcs
    ensures bk.depth != "" && bk.eclass != "" && bk.funcs != ""
  {
    hide Apart, Distinct, IsFuncsName, CollectedAll;
    assert bk.depth in Tracked(bk) && bk.eclass in Tracked(bk) && bk.funcs in Tracked(bk);
    assert forall m | m in bk.metas :: m in Tracked(bk);
  }

  /** The names of the source meet this. */
  lemma EbuildNames()
    ensures WfNames(EBUILD)
  {
    hide CollectedAll, Apart, Distinct, Collected, IsFuncsName;
    var bk := EBUILD;
    MetasApart();
    CollectedApart();
    BooksApart();
    forall c | c in CollectedAll(bk.metas)
      ensures c !in bk.metas
    {
      assert c[0] == 'E';
    }
    forall x | x in Tracked(bk)
      ensures x != "" && x != bk.inherited && !IsFuncsName(x)
    {
      assert x == bk.depth || x == bk.eclass || x == bk.funcs || x in bk.metas || x in CollectedAll(bk.metas);
    }
  }

  lemma BooksApart()
    ensures EBUILD.depth != EBUILD.eclass && EBUILD.depth != EBUILD.funcs && EBUILD.eclass != EBUILD.funcs
    ensures EBUILD.inherited !in [EBUILD.depth, EBUILD.eclass, EBUILD.funcs]
    ensures !IsFuncsName(EBUILD.depth) && !IsFuncsName(EBUILD.eclass) && !IsFuncsName(EBUILD.funcs)
  {
    assert EBUILD.depth[0] == 'E' && EBUILD.eclass[0] == 'E' && EBUILD.funcs[0] == '_' && EBUILD.inherited[0] == 'I';
    assert |EBUILD.depth| == 12 && |EBUILD.eclass| == 6;
    assert EBUILD.funcs[..14][13] == 's' && "__export_funct"[13] == 't';
  }

  lemma NoFuncsName(s: string)
    requires s != "" && s[0] != '_'
    ensures !IsFuncsName(s)
  {
    if |s| >= 14 { assert s[..14][0] == s[0] && "__export_funct"[0] == '_'; }
  }

  lemma CollectedApart()
    ensures forall c | c in CollectedAll(EBUILD.metas) ::
      |c| >= 2 && c[0] == 'E' && c !in [EBUILD.depth, EBUILD.eclass, EBUILD.funcs, EBUILD.inherited] && !IsFuncsName(c)
  {
    forall c | c in CollectedAll(EBUILD.metas)
      ensures |c| >= 2 && c[0] == 'E' && c !in [EBUILD.depth, EBUILD.eclass, EBUILD.funcs, EBUILD.inherited] && !IsFuncsName(c)
    {
      assert c[0] == 'E' && c[1] == '_';
      assert EBUILD.depth[1] == 'C' && EBUILD.eclass[1] == 'C' && EBUILD.funcs[0] == '_' && EBUILD.inherited[0] == 'I';
      NoFuncsName(c);
    }
  }

  lemma MetasApart()
    ensures Distinct(EBUILD.metas) && Apart(EBUILD.metas)
    ensures forall m | m in EBUILD.metas :: 
      m !in [EBUILD.depth, EBUILD.eclass, EBUILD.funcs, EBUILD.inherited] && m != "" && m[0] != 'E' && !IsFuncsName(m)
  {
    var ms := EBUILD.metas;
    assert ms[0][0] == 'I' && ms[1][2] == 'Q' && ms[2][0] == 'D' && ms[3][0] == 'R' && ms[3][2] == 'E' && ms[4][0] == 'P';
    assert |ms[0]| == 4 && |EBUILD.inherited| == 9;
    forall i, j | 0 <= i < j < |ms|
      ensures ms[i] != ms[j]
    {
    }
    forall m | m in ms
      ensures m !in [EBUILD.depth, EBUILD.eclass, EBUILD.funcs, EBUILD.inherited] && m != "" && m[0] != 'E' && !IsFuncsName(m)
    {
      assert m[0] != '_';
      NoFuncsName(m);
      assert EBUILD.depth[0] == 'E' && EBUILD.eclass[0] == 'E' && EBUILD.funcs[0] == '_';
    }
    forall a, b | a in ms && b in ms
      ensures Collected(a) != b
    {
      assert Collected(a)[0] == 'E';
    }
  }

  // ---- One eclass ----

  predicate Ready(bk: Names, st: Store) { AllGlobal(st, Tracked(bk)) }

  predicate FuncsOk(bk: Names, st: Store) { IsFuncsName(TextOf(st, bk.funcs)) }

  lemma ReadyNames(bk: Names, st: Store)
    requires WfNames(bk)
    ensures Ready(bk, st) <==>
            (GlobalOnly(st, bk.depth) && GlobalOnly(st, bk.eclass) && GlobalOnly(st, bk.funcs)
             && AllGlobal(st, bk.metas) && AllGlobal(st, CollectedAll(bk.metas)))
  {
    hide GlobalOnly, CollectedAll, Distinct, Apart, Collected, Protected;
    NamesApart(bk);
    if Ready(bk, st) {
      assert bk.depth in Tracked(bk) && bk.eclass in Tracked(bk) && bk.funcs in Tracked(bk);
      assert forall m | m in bk.metas :: m in Tracked(bk);
      assert forall m | m in CollectedAll(bk.metas) :: m in Tracked(bk);
    } else {
      var x :| x in Tracked(bk) && !(x != "" && GlobalOnly(st, x));
      assert x == bk.depth || x == bk.eclass || x == bk.funcs || x in bk.metas || x in CollectedAll(bk.metas);
    }
  }

  lemma FuncsNameOk(depth: string)
    ensures IsFuncsName(FuncsName(depth))
  {
    assert "__export_functions_"[..14] == "__export_funct";
    assert FuncsName(depth)[..14] == "__export_functions_"[..14];
  }

  /** A change outside the tracked names. */
  lemma Untracked(bk: Names, a: Store, b: Store, names: set<string>)
    requires Ready(bk, a) && Only(a, b, names) && forall x | x in Tracked(bk) :: x !in names
    ensures Ready(bk, b) && forall x | x in Tracked(bk) :: ReadsAlike(a, b, x)
  {
    hide GlobalOnly, TextOf, LongOf, SameName, Tracked, Only;
    OnlyReads(a, b, names);
    assert forall x | x in Tracked(bk) :: x != "" && ReadsAlike(a, b, x);
  }

  lemma PrepareFacts(bk: Names, eclass: string, st: Store, after: Store, saved: seq<string>)
    requires WfNames(bk)
    requires Prepare(bk, eclass, st) == Some((after, saved)) && Ready(bk, st)
    ensures Ready(bk, after) && FuncsOk(bk, after) && saved == Values(st, bk.metas)
    ensures TextOf(after, bk.eclass) == eclass && LongOf(after, bk.depth) == LongOf(st, bk.depth)
    ensures TextOf(after, bk.funcs) == "__export_functions_" + TextOf(st, bk.depth)
    ensures forall m | m in bk.metas :: TextOf(after, m) == ""
    ensures forall c | c in CollectedAll(bk.metas) :: TextOf(after, c) == TextOf(st, c)
  {
    hide GlobalOnly, TextOf, LongOf, SameName, CollectedAll, Collected, Distinct, Apart, Only, IsFuncsName,
         Put, Unset, Backup;
    NamesApart(bk);
    ReadyNames(bk, st);
    var st1 := Put(st, bk.eclass, Str(eclass)).value;
    OnlyPut(st, bk.eclass, Str(eclass), st1);
    OnlyReads(st, st1, {bk.eclass});
    assert ReadsAlike(st, st1, bk.depth) && ReadsAlike(st, st1, bk.funcs);
    var v := Var(map[0 := Str(FuncsName(TextOf(st1, bk.depth)))], false);
    var st2 := Define(st1, bk.funcs, v);
    OnlyDefine(st1, bk.funcs, v);
    OnlyReads(st1, st2, {bk.funcs});
    assert ReadsAlike(st1, st2, bk.depth) && ReadsAlike(st1, st2, bk.eclass);
    FuncsNameOk(TextOf(st1, bk.depth));
    var f := TextOf(st2, bk.funcs);
    var st3 := Unset(st2, f).value;
    OnlyUnset(st2, f, st3);
    OnlyReads(st2, st3, {f});
    assert ReadsAlike(st2, st3, bk.depth) && ReadsAlike(st2, st3, bk.eclass) && ReadsAlike(st2, st3, bk.funcs);
    forall x | x in bk.metas || x in CollectedAll(bk.metas)
      ensures ReadsAlike(st, st3, x) && x != "" && GlobalOnly(st3, x)
    {
      assert x in Tracked(bk);
      assert ReadsAlike(st, st1, x) && ReadsAlike(st1, st2, x) && ReadsAlike(st2, st3, x);
    }
    BackupFacts(st3, bk.metas, after, saved);
    BooksKept(bk, st3, after, SetOf(bk.metas));
    assert bk.depth in Protected(bk) && bk.eclass in Protected(bk) && bk.funcs in Protected(bk);
    assert ReadsAlike(st3, after, bk.depth) && ReadsAlike(st3, after, bk.eclass) && ReadsAlike(st3, after, bk.funcs);
    forall c | c in CollectedAll(bk.metas)
      ensures c != "" && GlobalOnly(after, c) && TextOf(after, c) == TextOf(st, c)
    {
      assert c in Protected(bk) && ReadsAlike(st3, after, c) && ReadsAlike(st, st3, c);
    }
    ValuesAlike(st, st3, bk.metas);
    ReadyNames(bk, after);
  }

  lemma OnlyDefine(st: Store, name: string, v: Var)
    ensures Only(st, Define(st, name, v), {name})
    ensures GlobalOnly(st, name) && name != "" ==>
      TextOf(Define(st, name, v), name) == v.StringAt(0) && GlobalOnly(Define(st, name, v), name)
  {
    hide SameName, TextOf, GlobalOnly;
    DefineFacts(st, name, v);
  }

  lemma ValuesAlike(a: Store, b: Store, ms: seq<string>)
    requires forall m | m in ms :: ReadsAlike(a, b, m)
    ensures Values(a, ms) == Values(b, ms)
  {
    hide TextOf, LongOf, GlobalOnly;
    forall i | 0 <= i < |ms|
      ensures Values(a, ms)[i] == Values(b, ms)[i]
    {
      assert ms[i] in ms;
    }
  }

  /** A change of the metadata only. */
  lemma BooksKept(bk: Names, a: Store, b: Store, names: set<string>)
    requires WfNames(bk)
    requires Only(a, b, names) && names == SetOf(bk.metas)
    ensures forall x | x in Protected(bk) :: ReadsAlike(a, b, x)
  {
    hide GlobalOnly, TextOf, LongOf, SameName, CollectedAll, Collected, Distinct, Apart, IsFuncsName, SetOf;
    NamesApart(bk);
    OnlyReads(a, b, names);
    forall x | x in Protected(bk)
      ensures ReadsAlike(a, b, x)
    {
      InSetOf(x, bk.metas);
      assert x in Tracked(bk);
    }
  }

  lemma CleanUpFacts(bk: Names, eclass: string, st: Store, saved: seq<string>, after: Store)
    requires WfNames(bk)
    requires |saved| == |bk.metas| && CleanUp(bk, eclass, st, saved) == Some(after) && Ready(bk, st) && FuncsOk(bk, st)
    ensures Ready(bk, after) && FuncsOk(bk, after)
    ensures LongOf(after, bk.depth) == LongOf(st, bk.depth) && TextOf(after, bk.eclass) == TextOf(st, bk.eclass)
    ensures forall i | 0 <= i < |bk.metas| :: TextOf(after, bk.metas[i]) == saved[i]
    ensures forall i | 0 <= i < |bk.metas| ::
      TextOf(after, CollectedAll(bk.metas)[i]) == TextOf(st, CollectedAll(bk.metas)[i]) + Addition(TextOf(st, bk.metas[i]))
  {
    hide GlobalOnly, TextOf, LongOf, SameName, CollectedAll, Collected, Distinct, Apart, Only, IsFuncsName,
         Put, Unset, Append, Restore, Contains, Tracked;
    var ms, cs := bk.metas, CollectedAll(bk.metas);
    var st1 := Append(st, ms).value;
    var st2 := Restore(st1, ms, saved).value;
    AppendStep(bk, st, st1);
    RestoreStep(bk, st1, saved, st2);
    assert bk.depth in Protected(bk) && bk.eclass in Protected(bk) && bk.funcs in Protected(bk);
    assert ReadsAlike(st1, st2, bk.depth) && ReadsAlike(st1, st2, bk.eclass) && ReadsAlike(st1, st2, bk.funcs);
    FinishClean(bk, eclass, st2, after);
    forall i | 0 <= i < |ms|
      ensures TextOf(after, ms[i]) == saved[i]
      ensures TextOf(after, cs[i]) == TextOf(st, cs[i]) + Addition(TextOf(st, ms[i]))
    {
      assert cs[i] in cs && cs[i] in Protected(bk) && ReadsAlike(st1, st2, cs[i]);
      TrackedParts(bk, ms[i]);
      TrackedParts(bk, cs[i]);
    }
    TrackedParts(bk, bk.depth);
    TrackedParts(bk, bk.eclass);
    TrackedParts(bk, bk.funcs);
  }

  lemma TrackedParts(bk: Names, x: string)
    ensures x in Tracked(bk) <==> x == bk.depth || x == bk.eclass || x == bk.funcs || x in bk.metas || x in CollectedAll(bk.metas)
  {
    hide CollectedAll;
  }

  lemma AppendStep(bk: Names, st: Store, after: Store)
    requires WfNames(bk)
    requires Append(st, bk.metas) == Some(after) && Ready(bk, st)
    ensures Ready(bk, after)
    ensures ReadsAlike(st, after, bk.depth) && ReadsAlike(st, after, bk.eclass) && ReadsAlike(st, after, bk.funcs)
    ensures forall i | 0 <= i < |bk.metas| ::
      TextOf(after, CollectedAll(bk.metas)[i]) == TextOf(st, CollectedAll(bk.metas)[i]) + Addition(TextOf(st, bk.metas[i]))
  {
    hide GlobalOnly, TextOf, LongOf, SameName, CollectedAll, Collected, Distinct, Apart, Only, SetOf,
         IsFuncsName, Append, Tracked, Protected;
    NamesApart(bk);
    ReadyNames(bk, st);
    AppendFacts(st, bk.metas, after);
    OnlyReads(st, after, SetOf(CollectedAll(bk.metas)));
    InSetOf(bk.depth, CollectedAll(bk.metas));
    InSetOf(bk.eclass, CollectedAll(bk.metas));
    InSetOf(bk.funcs, CollectedAll(bk.metas));
    NamesApart(bk);
    assert bk.depth != "" && bk.eclass != "" && bk.funcs != "";
    forall m | m in bk.metas
      ensures m != "" && GlobalOnly(after, m)
    {
      InSetOf(m, CollectedAll(bk.metas));
      assert ReadsAlike(st, after, m);
    }
    assert ReadsAlike(st, after, bk.depth) && ReadsAlike(st, after, bk.eclass) && ReadsAlike(st, after, bk.funcs);
    ReadyNames(bk, after);
  }

  lemma RestoreStep(bk: Names, st: Store, saved: seq<string>, after: Store)
    requires WfNames(bk)
    requires |saved| == |bk.metas| && Restore(st, bk.metas, saved) == Some(after) && Ready(bk, st)
    ensures Ready(bk, after)
    ensures forall x | x in Protected(bk) :: ReadsAlike(st, after, x)
    ensures forall i | 0 <= i < |bk.metas| :: TextOf(after, bk.metas[i]) == saved[i]
  {
    hide GlobalOnly, TextOf, LongOf, SameName, CollectedAll, Collected, Distinct, Apart, Only, SetOf,
         IsFuncsName, Restore, Tracked;
    NamesApart(bk);
    ReadyNames(bk, st);
    RestoreFacts(st, bk.metas, saved, after);
    BooksKept(bk, st, after, SetOf(bk.metas));
    assert bk.depth in Protected(bk) && bk.eclass in Protected(bk) && bk.funcs in Protected(bk);
    assert ReadsAlike(st, after, bk.depth) && ReadsAlike(st, after, bk.eclass) && ReadsAlike(st, after, bk.funcs);
    forall c | c in CollectedAll(bk.metas)
      ensures c != "" && GlobalOnly(after, c)
    {
      assert c in Protected(bk) && ReadsAlike(st, after, c);
    }
    ReadyNames(bk, after);
  }

  lemma FinishClean(bk: Names, eclass: string, st: Store, after: Store)
    requires WfNames(bk)
    requires Unset(st, TextOf(st, bk.funcs)).Some? && Ready(bk, st) && FuncsOk(bk, st)
    requires var st3 := Unset(st, TextOf(st, bk.funcs)).value;
             (if Contains(TextOf(st3, bk.inherited), eclass) then Some(st3)
              else Put(st3, bk.inherited, Str(TextOf(st3, bk.inherited) + " " + eclass))) == Some(after)
    ensures Ready(bk, after) && forall x | x in Tracked(bk) :: ReadsAlike(st, after, x)
  {
    hide GlobalOnly, TextOf, LongOf, SameName, Only, IsFuncsName, Put, Unset, Contains, Tracked, Ready;
    var f := TextOf(st, bk.funcs);
    var st3 := Unset(st, f).value;
    NamesApart(bk);
    OnlyUnset(st, f, st3);
    Untracked(bk, st, st3, {f});
    if Contains(TextOf(st3, bk.inherited), eclass) {
    } else {
      var v := Str(TextOf(st3, bk.inherited) + " " + eclass);
      OnlyPut(st3, bk.inherited, v, after);
      Untracked(bk, st3, after, {bk.inherited});
    }
    assert forall x | x in Tracked(bk) :: ReadsAlike(st, st3, x) && ReadsAlike(st3, after, x);
  }

  // ---- Whole runs ----

  /** Eclasses write none of the builtin's own books. */
  ghost predicate WfLibrary(bk: Names, lib: Library) {
    forall eclass | lib(eclass).Some? :: WfSteps(bk, lib(eclass).value)
  }

  predicate WfSteps(bk: Names, steps: seq<Step>) {
    forall i | 0 <= i < |steps| :: WfStep(bk, steps[i])
  }

  predicate WfStep(bk: Names, s: Step) { !s.Inherits? ==> s.name !in Protected(bk) }

  /** What the eclasses in the log add to the i-th collection, in the order in which they finished. */
  function Grown(log: seq<Done>, i: nat): string {
    if log == [] then ""
    else (if i < |log[0].values| then Addition(log[0].values[i]) else "") + Grown(log[1..], i)
  }

  lemma {:induction false} GrownTwice(a: seq<Done>, b: seq<Done>, i: nat)
    ensures Grown(a + b, i) == Grown(a, i) + Grown(b, i)
    decreases |a|
  {
    if a == [] {
      assert a + b == b && "" + Grown(b, i) == Grown(b, i);
    } else {
      assert (a + b)[0] == a[0] && (a + b)[1..] == a[1..] + b;
      GrownTwice(a[1..], b, i);
    }
  }

  predicate Grew(bk: Names, st: Store, a: After) {
    forall i | 0 <= i < |bk.metas| ::
      TextOf(a.st, CollectedAll(bk.metas)[i]) == TextOf(st, CollectedAll(bk.metas)[i]) + Grown(a.log, i)
  }

  /** Depth and collections are in order, and the name of an exported-functions variable is one. */
  predicate InOrder(bk: Names, st: Store, a: After) {
    && Ready(bk, a.st) && (FuncsOk(bk, st) ==> FuncsOk(bk, a.st))
    && LongOf(a.st, bk.depth) == LongOf(st, bk.depth)
    && Grew(bk, st, a)
  }

  predicate SameMetas(bk: Names, st: Store, after: Store) {
    forall i | 0 <= i < |bk.metas| :: TextOf(after, bk.metas[i]) == TextOf(st, bk.metas[i])
  }

  lemma GrewTwice(bk: Names, st: Store, a: After, b: After)
    requires Grew(bk, st, a) && Grew(bk, a.st, b)
    ensures Grew(bk, st, After(b.st, a.log + b.log))
  {
    hide TextOf, CollectedAll, Grown;
    forall i | 0 <= i < |bk.metas|
      ensures TextOf(b.st, CollectedAll(bk.metas)[i]) == TextOf(st, CollectedAll(bk.metas)[i]) + Grown(a.log + b.log, i)
    {
      GrownTwice(a.log, b.log, i);
    }
  }

  /** A change that leaves the protected names alone. */
  lemma PlainStep(bk: Names, st: Store, after: Store, name: string)
    requires WfNames(bk)
    requires Ready(bk, st) && Only(st, after, {name}) && name !in Protected(bk)
    requires GlobalOnly(st, name) && name != "" ==> GlobalOnly(after, name)
    ensures InOrder(bk, st, After(after, [])) && TextOf(after, bk.eclass) == TextOf(st, bk.eclass)
  {
    hide GlobalOnly, TextOf, LongOf, SameName, CollectedAll, Collected, Only, IsFuncsName;
    NamesApart(bk);
    ReadyNames(bk, st);
    OnlyReads(st, after, {name});
    NamesApart(bk);
    assert bk.depth in Protected(bk) && bk.eclass in Protected(bk) && bk.funcs in Protected(bk);
    assert bk.depth != "" && bk.eclass != "" && bk.funcs != "";
    assert ReadsAlike(st, after, bk.depth) && ReadsAlike(st, after, bk.eclass) && ReadsAlike(st, after, bk.funcs);
    forall c | c in CollectedAll(bk.metas)
      ensures c != "" && GlobalOnly(after, c) && TextOf(after, c) == TextOf(st, c)
    {
      assert c in Protected(bk) && ReadsAlike(st, after, c);
    }
    forall m | m in bk.metas
      ensures m != "" && GlobalOnly(after, m)
    {
      if m != name { assert ReadsAlike(st, after, m); }
    }
    ReadyNames(bk, after);
    NothingGrew(bk, st, after);
  }

  lemma NothingGrew(bk: Names, st: Store, after: Store)
    requires forall c | c in CollectedAll(bk.metas) :: TextOf(after, c) == TextOf(st, c)
    ensures Grew(bk, st, After(after, []))
  {
    hide TextOf, CollectedAll;
    forall i | 0 <= i < |bk.metas|
      ensures TextOf(after, CollectedAll(bk.metas)[i]) == TextOf(st, CollectedAll(bk.metas)[i]) + Grown([], i)
    {
      assert CollectedAll(bk.metas)[i] in CollectedAll(bk.metas);
    }
  }

  lemma {:induction false} StepFacts(bk: Names, lib: Library, s: Step, st: Store, n: nat, a: After)
    requires WfNames(bk)
    requires RunStep(bk, lib, s, st, n) == Some(a) && WfLibrary(bk, lib) && WfStep(bk, s) && Ready(bk, st)
    ensures InOrder(bk, st, a) && (LongOf(st, bk.depth) > 0 ==> TextOf(a.st, bk.eclass) == TextOf(st, bk.eclass))
    decreases n, 5, 0
  {
    hide GlobalOnly, TextOf, LongOf, SameName, CollectedAll, Collected, Only, Put, Unset, Exec, Ready, Grew,
         Protected, FuncsOk;
    match s
    case Write(name, value) =>
      OnlyPut(st, name, Str(value(st)), a.st);
      PlainStep(bk, st, a.st, name);
    case Erase(name) =>
      OnlyUnset(st, name, a.st);
      PlainStep(bk, st, a.st, name);
    case Inherits(eclasses) => ExecFacts(bk, lib, eclasses(st), st, n, a);
  }

  lemma {:induction false} StepsFacts(bk: Names, lib: Library, steps: seq<Step>, st: Store, n: nat, a: After)
    requires WfNames(bk)
    requires RunSteps(bk, lib, steps, st, n) == Some(a) && WfLibrary(bk, lib) && WfSteps(bk, steps) && Ready(bk, st)
    ensures InOrder(bk, st, a) && (LongOf(st, bk.depth) > 0 ==> TextOf(a.st, bk.eclass) == TextOf(st, bk.eclass))
    decreases n, 5, |steps|
  {
    hide TextOf, LongOf, RunStep, Ready, Grew, FuncsOk, WfStep, WfLibrary;
    if steps == [] {
      NothingGrew(bk, st, st);
    } else {
      var x := RunStep(bk, lib, steps[0], st, n).value;
      var y := RunSteps(bk, lib, steps[1..], x.st, n).value;
      StepFacts(bk, lib, steps[0], st, n, x);
      assert WfSteps(bk, steps[1..]);
      StepsFacts(bk, lib, steps[1..], x.st, n, y);
      GrewTwice(bk, st, x, y);
    }
  }

  lemma {:induction false} OneFacts(bk: Names, lib: Library, eclass: string, st: Store, n: nat, a: After)
    requires WfNames(bk)
    requires One(bk, lib, eclass, st, n) == Some(a) && WfLibrary(bk, lib) && Ready(bk, st)
    ensures InOrder(bk, st, a) && FuncsOk(bk, a.st) && SameMetas(bk, st, a.st)
    ensures LongOf(st, bk.depth) > 0 ==> TextOf(a.st, bk.eclass) == eclass
    decreases n, 2
  {
    hide TextOf, LongOf, Prepare, CleanUp, RunSteps, Ready, FuncsOk, CollectedAll, WfSteps, Grown, Addition;
    var p := Prepare(bk, eclass, st).value;
    var s := Source(bk, lib, eclass, p.0, n).value;
    PrepareFacts(bk, eclass, st, p.0, p.1);
    StepsFacts(bk, lib, lib(eclass).value, p.0, n - 1, s);
    CleanUpFacts(bk, eclass, s.st, p.1, a.st);
    OneGrew(bk, eclass, st, p.0, s, a.st);
  }

  lemma OneGrew(bk: Names, eclass: string, st: Store, prepared: Store, s: After, after: Store)
    requires forall c | c in CollectedAll(bk.metas) :: TextOf(prepared, c) == TextOf(st, c)
    requires Grew(bk, prepared, s)
    requires forall i | 0 <= i < |bk.metas| ::
      TextOf(after, CollectedAll(bk.metas)[i]) == TextOf(s.st, CollectedAll(bk.metas)[i]) + Addition(TextOf(s.st, bk.metas[i]))
    ensures Grew(bk, st, After(after, s.log + [Done(eclass, Values(s.st, bk.metas))]))
  {
    hide TextOf, CollectedAll, Addition;
    var d := Done(eclass, Values(s.st, bk.metas));
    forall i | 0 <= i < |bk.metas|
      ensures TextOf(after, CollectedAll(bk.metas)[i]) == TextOf(st, CollectedAll(bk.metas)[i]) + Grown(s.log + [d], i)
    {
      var c := CollectedAll(bk.metas)[i];
      assert c in CollectedAll(bk.metas);
      GrownTwice(s.log, [d], i);
      assert [d][1..] == [] && Grown([d], i) == Addition(TextOf(s.st, bk.metas[i])) + "";
      var t, u, v := TextOf(st, c), Grown(s.log, i), Addition(TextOf(s.st, bk.metas[i]));
      assert t + u + v == t + (u + (v + ""));
    }
  }

  lemma {:induction false} EachFacts(bk: Names, lib: Library, eclasses: seq<string>, st: Store, n: nat, a: After)
    requires WfNames(bk)
    requires Each(bk, lib, eclasses, st, n) == Some(a) && WfLibrary(bk, lib) && Ready(bk, st)
    ensures InOrder(bk, st, a) && SameMetas(bk, st, a.st)
    decreases n, 3, |eclasses|
  {
    hide TextOf, LongOf, One, Ready, Grew, FuncsOk, WfLibrary;
    if eclasses == [] {
      NothingGrew(bk, st, st);
    } else {
      var x := One(bk, lib, eclasses[0], st, n).value;
      var y := Each(bk, lib, eclasses[1..], x.st, n).value;
      OneFacts(bk, lib, eclasses[0], st, n, x);
      EachFacts(bk, lib, eclasses[1..], x.st, n, y);
      GrewTwice(bk, st, x, y);
    }
  }

  /** Every run of `inherit` that completes, however deeply the eclasses inherit, with the names bound
      globally or not at all: ECLASS_DEPTH and the metadata have their entry values back, unset counting
      as empty; bk.eclass is the caller's if the caller is an eclass, and unset otherwise; and every E_
      variable has grown by exactly the eclasses' non-empty values in the order of completion. */
  lemma {:induction false} ExecFacts(bk: Names, lib: Library, eclasses: seq<string>, st: Store, n: nat, a: After)
    requires WfNames(bk)
    requires Exec(bk, lib, eclasses, st, n) == Some(a) && WfLibrary(bk, lib) && Ready(bk, st)
    ensures LongOf(a.st, bk.depth) == LongOf(st, bk.depth)
    ensures TextOf(a.st, bk.eclass) == if LongOf(st, bk.depth) > 0 then TextOf(st, bk.eclass) else ""
    ensures SameMetas(bk, st, a.st) && Grew(bk, st, a)
    ensures InOrder(bk, st, a)
    decreases n, 4
  {
    hide TextOf, LongOf, Each, Ready, WfLibrary, Finish, Put, Only, CollectedAll;
    var d := LongOf(st, bk.depth);
    var st1 := Put(st, bk.depth, Num(d + 1)).value;
    DepthStep(bk, st, d + 1, st1);
    var b := Each(bk, lib, eclasses, st1, n).value;
    EachFacts(bk, lib, eclasses, st1, n, b);
    FinishFacts(bk, b.st, TextOf(st1, bk.eclass), a.st);
    forall i | 0 <= i < |bk.metas|
      ensures TextOf(a.st, CollectedAll(bk.metas)[i]) == TextOf(st, CollectedAll(bk.metas)[i]) + Grown(a.log, i)
      ensures TextOf(a.st, bk.metas[i]) == TextOf(st, bk.metas[i])
    {
      assert CollectedAll(bk.metas)[i] in CollectedAll(bk.metas) && bk.metas[i] in bk.metas;
    }
  }

  lemma DepthStep(bk: Names, st: Store, d: int, after: Store)
    requires WfNames(bk)
    requires Put(st, bk.depth, Num(d)) == Some(after) && Ready(bk, st)
    ensures Ready(bk, after) && LongOf(after, bk.depth) == d
    ensures TextOf(after, bk.eclass) == TextOf(st, bk.eclass) && TextOf(after, bk.funcs) == TextOf(st, bk.funcs)
    ensures forall c | c in CollectedAll(bk.metas) :: TextOf(after, c) == TextOf(st, c)
    ensures forall m | m in bk.metas :: TextOf(after, m) == TextOf(st, m)
  {
    hide GlobalOnly, TextOf, LongOf, SameName, CollectedAll, Collected, Put, Only, Protected;
    NamesApart(bk);
    Globals(bk, st);
    OnlyPut(st, bk.depth, Num(d), after);
    BookStep(bk, st, bk.depth, after);
  }

  /** A change of one of the three book-keeping names. */
  lemma BookStep(bk: Names, st: Store, name: string, after: Store)
    requires WfNames(bk)
    requires name in [bk.depth, bk.eclass, bk.funcs] && Ready(bk, st) && Only(st, after, {name}) && GlobalOnly(after, name)
    ensures Ready(bk, after) && GlobalOnly(st, name) && name != ""
    ensures name != bk.depth ==> ReadsAlike(st, after, bk.depth)
    ensures name != bk.eclass ==> ReadsAlike(st, after, bk.eclass)
    ensures name != bk.funcs ==> ReadsAlike(st, after, bk.funcs)
    ensures forall x | x in bk.metas || x in CollectedAll(bk.metas) :: ReadsAlike(st, after, x)
  {
    hide GlobalOnly, TextOf, LongOf, SameName, CollectedAll, Collected, Only, Apart, Distinct;
    NamesApart(bk);
    ReadyNames(bk, st);
    OnlyReads(st, after, {name});
    assert bk.depth != "" && bk.eclass != "" && bk.funcs != "";
    forall x | x in bk.metas || x in CollectedAll(bk.metas)
      ensures x != "" && ReadsAlike(st, after, x) && GlobalOnly(after, x)
    {
      assert x in Tracked(bk);
      assert x in bk.metas ==> x !in Protected(bk);
      assert bk.depth in Protected(bk) && bk.eclass in Protected(bk) && bk.funcs in Protected(bk);
    }
    assert name != bk.depth ==> ReadsAlike(st, after, bk.depth);
    assert name != bk.eclass ==> ReadsAlike(st, after, bk.eclass);
    assert name != bk.funcs ==> ReadsAlike(st, after, bk.funcs);
    assert GlobalOnly(after, bk.depth) && GlobalOnly(after, bk.eclass) && GlobalOnly(after, bk.funcs);
    assert AllGlobal(after, bk.metas) && AllGlobal(after, CollectedAll(bk.metas));
    ReadyNames(bk, after);
  }

  lemma FinishFacts(bk: Names, st: Store, caller: string, after: Store)
    requires WfNames(bk)
    requires Finish(bk, st, caller) == Some(after) && Ready(bk, st)
    ensures Ready(bk, after) && LongOf(after, bk.depth) == LongOf(st, bk.depth) - 1
    ensures TextOf(after, bk.eclass) == if LongOf(st, bk.depth) > 1 then caller else ""
    ensures TextOf(after, bk.funcs) == if LongOf(st, bk.depth) > 1 then TextOf(st, bk.funcs) else ""
    ensures forall c | c in CollectedAll(bk.metas) :: TextOf(after, c) == TextOf(st, c)
    ensures forall m | m in bk.metas :: TextOf(after, m) == TextOf(st, m)
  {
    hide GlobalOnly, TextOf, LongOf, SameName, CollectedAll, Collected, Put, Unset, Only, Ready;
    NamesApart(bk);
    var d := LongOf(st, bk.depth) - 1;
    var st1 := Put(st, bk.depth, Num(d)).value;
    DepthStep(bk, st, d, st1);
    if d > 0 {
      OnlyPut(st1, bk.eclass, Str(caller), after);
      Globals(bk, st1);
      BookStep(bk, st1, bk.eclass, after);
    } else {
      var st2 := Unset(st1, bk.eclass).value;
      Globals(bk, st1);
      OnlyUnset(st1, bk.eclass, st2);
      BookStep(bk, st1, bk.eclass, st2);
      Globals(bk, st2);
      OnlyUnset(st2, bk.funcs, after);
      BookStep(bk, st2, bk.funcs, after);
    }
  }

  lemma Globals(bk: Names, st: Store)
    requires WfNames(bk)
    requires Ready(bk, st)
    ensures GlobalOnly(st, bk.depth) && GlobalOnly(st, bk.eclass) && GlobalOnly(st, bk.funcs)
    ensures bk.depth != "" && bk.eclass != "" && bk.funcs != ""
  {
    hide GlobalOnly;
    ReadyNames(bk, st);
    assert |bk.depth| > 0 && |bk.eclass| > 0 && |bk.funcs| > 0;
  }
}
