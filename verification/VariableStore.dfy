/** What the interpreter's symbol tables mean: a global table under a stack of local frames,
    each binding a name to a sparse, index-keyed variable. */
module VariableStore {
  import opened Text

  datatype Value = Str(s: string) | Num(n: int) {
    function AsString(): string { if Num? then FromInt(n) else s }
    /** A string that is no number converts to 0. */
    function AsLong(): int { if Num? then n else match ToInt(s) case Some(v) => v case None => 0 }
  }

  datatype Var = Var(values: map<nat, Value>, readonly: bool) {
    function StringAt(i: nat): string { if i in values then values[i].AsString() else "" }
    function LongAt(i: nat): int { if i in values then values[i].AsLong() else 0 }
  }

  type Scope = map<string, Var>

  datatype Store = Store(globals: Scope, frames: seq<Scope>) {
    /** Outermost first. */
    function Scopes(): (s: seq<Scope>) ensures |s| == |frames| + 1 { [globals] + frames }

    function WithScope(i: nat, s: Scope): Store
      requires i <= |frames|
    {
      if i == 0 then this.(globals := s) else this.(frames := frames[i - 1 := s])
    }
  }

  /** The innermost of the first k scopes that binds the name; the empty name is never found. */
  function Innermost(scopes: seq<Scope>, k: nat, name: string): (r: Option<nat>)
    requires k <= |scopes|
    ensures r.Some? ==> r.value < k && name in scopes[r.value]
    ensures r.Some? ==> forall j | r.value < j < k :: name !in scopes[j]
    ensures r.None? && name != "" ==> forall j | 0 <= j < k :: name !in scopes[j]
  {
    if k == 0 || name == "" then None
    else if name in scopes[k - 1] then Some(k - 1)
    else Innermost(scopes, k - 1, name)
  }

  function Home(st: Store, name: string): (r: Option<nat>)
    ensures r.Some? ==> r.value <= |st.frames| && name in st.Scopes()[r.value]
  {
    Innermost(st.Scopes(), |st.frames| + 1, name)
  }

  function Resolve(st: Store, name: string): Option<Var> {
    var h := Home(st, name);
    if h.None? then None else Some(st.Scopes()[h.value][name])
  }

  function ResolveString(st: Store, name: string, index: nat): string {
    match Resolve(st, name) case Some(v) => v.StringAt(index) case None => ""
  }

  function ResolveLong(st: Store, name: string, index: nat): int {
    match Resolve(st, name) case Some(v) => v.LongAt(index) case None => 0
  }

  function Define(st: Store, name: string, v: Var): Store {
    st.(globals := st.globals[name := v])
  }

  /** Fails outside any local scope. Replaces whatever the innermost frame held, readonly or not. */
  function DefineLocal(st: Store, name: string, v: Var): Option<Store> {
    if st.frames == [] then None
    else
      var top := |st.frames| - 1;
      Some(st.(frames := st.frames[top := st.frames[top][name := v]]))
  }

  /** Fails on a readonly variable; defines a global when the name is unbound. */
  function SetValue(st: Store, name: string, v: Value, index: nat): Option<Store> {
    var h := Home(st, name);
    if h.None? then Some(Define(st, name, Var(map[index := v], false)))
    else
      var scope := st.Scopes()[h.value];
      var prev := scope[name];
      if prev.readonly then None
      else Some(st.WithScope(h.value, scope[name := prev.(values := prev.values[index := v])]))
  }

  /** Removes the binding that Resolve would return; fails if it is readonly. `unset` searches the
      scopes itself and so does find an empty name. */
  function Unset(st: Store, name: string): Option<Store> {
    if IsNumber(name) then None
    else if name == "" then UnsetEmptyName(st, |st.frames| + 1)
    else
      var h := Home(st, name);
      if h.None? then Some(st)
      else if st.Scopes()[h.value][name].readonly then None
      else Some(st.WithScope(h.value, st.Scopes()[h.value] - {name}))
  }

  function UnsetEmptyName(st: Store, k: nat): Option<Store>
    requires k <= |st.frames| + 1
  {
    if k == 0 then Some(st)
    else if "" in st.Scopes()[k - 1] then
      if st.Scopes()[k - 1][""].readonly then None
      else Some(st.WithScope(k - 1, st.Scopes()[k - 1] - {""}))
    else UnsetEmptyName(st, k - 1)
  }

  function UnsetAt(st: Store, name: string, index: nat): Option<Store> {
    var h := Home(st, name);
    if IsNumber(name) then None
    else if h.None? then Some(st)
    else
      var scope := st.Scopes()[h.value];
      if scope[name].readonly then None
      else Some(st.WithScope(h.value, scope[name := scope[name].(values := scope[name].values - {index})]))
  }

  function PushScope(st: Store): Store { st.(frames := st.frames + [map[]]) }

  function PopScope(st: Store): Store
    requires st.frames != []
  {
    st.(frames := st.frames[..|st.frames| - 1])
  }

  // ---- The frame stack as one stack of bindings per name ----

  /** All bindings of a name, innermost last. */
  function Bindings(scopes: seq<Scope>, name: string): seq<Var> {
    if scopes == [] then []
    else
      var last := scopes[|scopes| - 1];
      Bindings(scopes[..|scopes| - 1], name) + if name in last then [last[name]] else []
  }

  function Stack(st: Store, name: string): seq<Var> { Bindings(st.Scopes(), name) }

  lemma {:induction false} InnermostIsTop(scopes: seq<Scope>, name: string)
    requires name != ""
    ensures var h := Innermost(scopes, |scopes|, name); var b := Bindings(scopes, name);
            && (h.None? <==> b == [])
            && (h.Some? ==> b == Bindings(scopes[..h.value], name) + [scopes[h.value][name]])
  {
    var n := |scopes|;
    if n > 0 && name !in scopes[n - 1] {
      var front := scopes[..n - 1];
      InnermostIsTop(front, name);
      InnermostPrefix(scopes, n - 1, name);
      var h := Innermost(front, n - 1, name);
      if h.Some? { assert front[..h.value] == scopes[..h.value]; }
    }
  }

  lemma {:induction false} InnermostPrefix(scopes: seq<Scope>, k: nat, name: string)
    requires k <= |scopes|
    ensures Innermost(scopes[..k], k, name) == Innermost(scopes, k, name)
  {
    InnermostAgree(scopes[..k], scopes, k, name);
  }

  lemma {:induction false} InnermostAgree(a: seq<Scope>, b: seq<Scope>, k: nat, name: string)
    requires k <= |a| && k <= |b|
    requires forall j | 0 <= j < k :: name in a[j] <==> name in b[j]
    ensures Innermost(a, k, name) == Innermost(b, k, name)
  {
    if k > 0 && name !in a[k - 1] { InnermostAgree(a, b, k - 1, name); }
  }

  /** Resolving reads the top of the name's stack; the empty name is never found. */
  lemma ResolveIsTop(st: Store, name: string)
    ensures var b := Stack(st, name);
            Resolve(st, name) == if name == "" || b == [] then None else Some(b[|b| - 1])
  {
    if name != "" { InnermostIsTop(st.Scopes(), name); }
  }

  lemma {:induction false} BindingsAgree(a: seq<Scope>, b: seq<Scope>, name: string)
    requires |a| == |b|
    requires forall j | 0 <= j < |a| :: SameBinding(a[j], b[j], name)
    ensures Bindings(a, name) == Bindings(b, name)
  {
    if a != [] { BindingsAgree(a[..|a| - 1], b[..|b| - 1], name); }
  }

  /** Writing name into scope h, with no binding of it above h, changes only the top of its stack. */
  lemma {:induction false} BindingsUpdate(scopes: seq<Scope>, h: nat, name: string, s: Scope)
    requires h < |scopes| && forall j | h < j < |scopes| :: name !in scopes[j]
    ensures Bindings(scopes[h := s], name) ==
            Bindings(scopes[..h], name) + if name in s then [s[name]] else []
  {
    var n, u := |scopes|, scopes[h := s];
    if h == n - 1 {
      assert u[..n - 1] == scopes[..h];
    } else {
      assert u[..n - 1] == scopes[..n - 1][h := s];
      BindingsUpdate(scopes[..n - 1], h, name, s);
      assert scopes[..n - 1][..h] == scopes[..h];
    }
  }

  lemma WithScopeScopes(st: Store, i: nat, s: Scope)
    requires i <= |st.frames|
    ensures st.WithScope(i, s).Scopes() == st.Scopes()[i := s]
  {
  }

  predicate SameBinding(a: Scope, b: Scope, name: string) {
    (name in a <==> name in b) && (name in a ==> a[name] == b[name])
  }

  lemma WithScopeStacks(st: Store, h: nat, name: string, s: Scope)
    requires h <= |st.frames|
    requires forall other | other != name :: SameBinding(s, st.Scopes()[h], other)
    requires forall j | h < j <= |st.frames| :: name !in st.Scopes()[j]
    ensures Stack(st.WithScope(h, s), name) ==
            Bindings(st.Scopes()[..h], name) + if name in s then [s[name]] else []
    ensures forall other | other != name :: Stack(st.WithScope(h, s), other) == Stack(st, other)
  {
    WithScopeScopes(st, h, s);
    BindingsUpdate(st.Scopes(), h, name, s);
    forall other | other != name
      ensures Stack(st.WithScope(h, s), other) == Stack(st, other)
    {
      assert SameBinding(s, st.Scopes()[h], other);
      BindingsAgree(st.WithScope(h, s).Scopes(), st.Scopes(), other);
    }
  }

  /** set_value updates the innermost binding in place or makes a global; it fails exactly when that
      binding is readonly, and no other name's stack changes. */
  lemma SetValueOnStacks(st: Store, name: string, v: Value, index: nat)
    requires name != ""
    ensures var b := Stack(st, name); var r := SetValue(st, name, v, index);
            && (r.None? <==> b != [] && b[|b| - 1].readonly)
            && (r.Some? ==>
                  && Stack(r.value, name) ==
                     (if b == [] then [Var(map[index := v], false)]
                      else b[|b| - 1 := Var(b[|b| - 1].values[index := v], false)])
                  && forall other | other != name :: Stack(r.value, other) == Stack(st, other))
  {
    InnermostIsTop(st.Scopes(), name);
    var h := Home(st, name);
    var r := SetValue(st, name, v, index);
    if h.Some? && r.Some? {
      var scope := st.Scopes()[h.value];
      var upd := scope[name := Var(scope[name].values[index := v], false)];
      assert r.value == st.WithScope(h.value, upd);
      WithScopeStacks(st, h.value, name, upd);
    } else if r.Some? {
      var upd := st.globals[name := Var(map[index := v], false)];
      assert r.value == st.WithScope(0, upd);
      WithScopeStacks(st, 0, name, upd);
    }
  }

  /** unset pops the name's stack, so the next outer binding becomes visible; it fails exactly on a
      readonly top or a positional name. */
  lemma UnsetOnStacks(st: Store, name: string)
    ensures var b := Stack(st, name); var r := Unset(st, name);
            && (r.None? <==> IsNumber(name) || (b != [] && b[|b| - 1].readonly))
            && (r.Some? ==>
                  && Stack(r.value, name) == (if b == [] then b else b[..|b| - 1])
                  && forall other | other != name :: Stack(r.value, other) == Stack(st, other))
  {
    if name == "" {
      UnsetEmptyOnStacks(st, |st.frames| + 1);
      assert st.Scopes()[..|st.frames| + 1] == st.Scopes();
    } else {
      InnermostIsTop(st.Scopes(), name);
      var h := Home(st, name);
      if h.Some? && Unset(st, name).Some? {
        WithScopeStacks(st, h.value, name, st.Scopes()[h.value] - {name});
      }
    }
  }

  lemma {:induction false} UnsetEmptyOnStacks(st: Store, k: nat)
    requires k <= |st.frames| + 1 && forall j | k <= j <= |st.frames| :: "" !in st.Scopes()[j]
    ensures var b := Stack(st, ""); var r := UnsetEmptyName(st, k);
            && (r.None? <==> b != [] && b[|b| - 1].readonly)
            && (r.Some? ==>
                  && Stack(r.value, "") == (if b == [] then b else b[..|b| - 1])
                  && forall other | other != "" :: Stack(r.value, other) == Stack(st, other))
  {
    if k == 0 {
      NoBindings(st.Scopes(), "");
    } else if "" !in st.Scopes()[k - 1] {
      UnsetEmptyOnStacks(st, k - 1);
    } else {
      var scope := st.Scopes()[k - 1];
      BindingsUpdate(st.Scopes(), k - 1, "", scope);
      assert st.Scopes()[k - 1 := scope] == st.Scopes();
      if !scope[""].readonly { WithScopeStacks(st, k - 1, "", scope - {""}); }
    }
  }

  lemma {:induction false} NoBindings(scopes: seq<Scope>, name: string)
    requires forall j | 0 <= j < |scopes| :: name !in scopes[j]
    ensures Bindings(scopes, name) == []
  {
    if scopes != [] { NoBindings(scopes[..|scopes| - 1], name); }
  }

  /** unset of one element takes it out of the top of the name's stack, if there is one; it fails exactly
      on a readonly top or a positional name. */
  lemma UnsetAtOnStacks(st: Store, name: string, index: nat)
    requires name != ""
    ensures var b := Stack(st, name); var r := UnsetAt(st, name, index);
            && (r.None? <==> IsNumber(name) || (b != [] && b[|b| - 1].readonly))
            && (r.Some? ==>
                  && Stack(r.value, name) ==
                     (if b == [] then b else b[|b| - 1 := Var(b[|b| - 1].values - {index}, false)])
                  && forall other | other != name :: Stack(r.value, other) == Stack(st, other))
  {
    InnermostIsTop(st.Scopes(), name);
    var h := Home(st, name);
    if h.Some? && UnsetAt(st, name, index).Some? {
      var scope := st.Scopes()[h.value];
      WithScopeStacks(st, h.value, name, scope[name := Var(scope[name].values - {index}, false)]);
    }
  }

  /** define_local replaces the frame's own binding or pushes a new one. */
  lemma DefineLocalOnStacks(st: Store, name: string, v: Var)
    requires st.frames != []
    ensures var top := st.frames[|st.frames| - 1]; var r := DefineLocal(st, name, v);
            && r.Some?
            && Stack(r.value, name) == Stack(PopScope(st), name) + [v]
            && (name !in top ==> Stack(PopScope(st), name) == Stack(st, name))
            && forall other | other != name :: Stack(r.value, other) == Stack(st, other)
  {
    var n := |st.frames|;
    WithScopeStacks(st, n, name, st.frames[n - 1][name := v]);
    assert st.Scopes()[..n] == PopScope(st).Scopes();
  }

  lemma PushPopOnStacks(st: Store, name: string)
    ensures Stack(PushScope(st), name) == Stack(st, name)
    ensures PopScope(PushScope(st)) == st
  {
    var p := PushScope(st).Scopes();
    assert p[..|p| - 1] == st.Scopes();
    assert (st.frames + [map[]])[..|st.frames|] == st.frames;
  }

  // ---- Whole runs ----

  datatype Op =
    | OpSet(name: string, value: Value, index: nat)
    | OpDefine(name: string, v: Var)
    | OpLocal(name: string, v: Var)
    | OpUnset(name: string)
    | OpUnsetAt(name: string, index: nat)
    | OpPush
    | OpPop

  function OrElse(r: Option<Store>, st: Store): Store { if r.Some? then r.value else st }

  /** An operation that throws leaves the tables as they were. Scopes are popped only by the
      destructor of the object that pushed them, so popping an empty stack does not occur. */
  function Apply(st: Store, op: Op): Store {
    match op
    case OpSet(n, v, i) => OrElse(SetValue(st, n, v, i), st)
    case OpDefine(n, v) => Define(st, n, v)
    case OpLocal(n, v) => OrElse(DefineLocal(st, n, v), st)
    case OpUnset(n) => OrElse(Unset(st, n), st)
    case OpUnsetAt(n, i) => OrElse(UnsetAt(st, n, i), st)
    case OpPush => PushScope(st)
    case OpPop => if st.frames == [] then st else PopScope(st)
  }

  function ApplyAll(st: Store, ops: seq<Op>): Store
    decreases |ops|
  {
    if ops == [] then st else ApplyAll(Apply(st, ops[0]), ops[1..])
  }

  /** The run never pops the frame at depth d, and neither unsets nor globally defines the name. */
  predicate StaysAbove(st: Store, ops: seq<Op>, d: nat, name: string)
    decreases |ops|
  {
    ops != [] ==>
    && ops[0] != OpUnset(name)
    && !(ops[0].OpDefine? && ops[0].name == name)
    && (ops[0].OpPop? ==> |st.frames| > d)
    && StaysAbove(Apply(st, ops[0]), ops[1..], d, name)
  }

  /** Set and the unsets rewrite one scope, and in it one name. */
  lemma ScopeWrite(st: Store, op: Op) returns (h: nat, s: Scope)
    requires op.OpSet? || op.OpUnset? || op.OpUnsetAt?
    requires op.name != "" && Apply(st, op) != st
    ensures h <= |st.frames| && Apply(st, op) == st.WithScope(h, s)
    ensures forall other | other != op.name :: SameBinding(s, st.Scopes()[h], other)
    ensures Home(st, op.name) == Some(h) || (h == 0 && Home(st, op.name) == None)
    ensures op.name in st.Scopes()[h] ==> !st.Scopes()[h][op.name].readonly
  {
    var home := Home(st, op.name);
    h := if home.Some? then home.value else 0;
    s := Apply(st, op).Scopes()[h];
    WithScopeScopes(st, h, s);
  }

  lemma LocalStep(st: Store, op: Op, d: nat, name: string)
    requires 1 <= d <= |st.frames| && name in st.frames[d - 1] && name != ""
    requires op != OpUnset(name) && !(op.OpDefine? && op.name == name) && (op.OpPop? ==> |st.frames| > d)
    ensures d <= |Apply(st, op).frames| && name in Apply(st, op).frames[d - 1]
    ensures forall j | 0 <= j < d :: SameBinding(Apply(st, op).Scopes()[j], st.Scopes()[j], name)
  {
    assert name in st.Scopes()[d];
    assert Home(st, name).Some? && Home(st, name).value >= d;
    if op.OpUnset? && op.name == "" {
      UnsetEmptyOther(st, |st.frames| + 1, name);
      assert SameBinding(Apply(st, op).Scopes()[d], st.Scopes()[d], name);
    } else if op.OpUnsetAt? && op.name == "" {
    } else if op.OpSet? && op.name == "" {
    } else if (op.OpSet? || op.OpUnset? || op.OpUnsetAt?) && Apply(st, op) != st {
      LocalStepWrite(st, op, d, name);
    }
  }

  lemma LocalStepWrite(st: Store, op: Op, d: nat, name: string)
    requires 1 <= d <= |st.frames| && name in st.frames[d - 1] && name != ""
    requires op.OpSet? || (op.OpUnset? && op.name != name) || op.OpUnsetAt?
    requires op.name != "" && Apply(st, op) != st
    ensures d <= |Apply(st, op).frames| && name in Apply(st, op).frames[d - 1]
    ensures forall j | 0 <= j < d :: SameBinding(Apply(st, op).Scopes()[j], st.Scopes()[j], name)
  {
    var h, s := ScopeWrite(st, op);
    WithScopeScopes(st, h, s);
    assert name in st.Scopes()[d];
    assert op.name == name ==> h >= d && name in s by {
      if op.name == name { assert s == Apply(st, op).Scopes()[h]; }
    }
    assert Apply(st, op).frames[d - 1] == Apply(st, op).Scopes()[d];
    if h == d && op.name != name { assert SameBinding(s, st.Scopes()[d], name); }
  }

  lemma UnsetEmptyOther(st: Store, k: nat, name: string)
    requires k <= |st.frames| + 1 && name != ""
    ensures var r := OrElse(UnsetEmptyName(st, k), st);
            && |r.frames| == |st.frames|
            && forall j | 0 <= j <= |st.frames| :: SameBinding(r.Scopes()[j], st.Scopes()[j], name)
  {
  }

  /** Once a name is local to the frame at depth d, no run inside that frame changes any outer
      binding of it, and popping the frame uncovers exactly the old value. */
  lemma {:induction false} LocalIsolation(st: Store, ops: seq<Op>, d: nat, name: string)
    requires 1 <= d <= |st.frames| && name in st.frames[d - 1] && name != ""
    requires StaysAbove(st, ops, d, name)
    ensures var r := ApplyAll(st, ops);
            && d <= |r.frames| && name in r.frames[d - 1]
            && (forall j | 0 <= j < d :: SameBinding(r.Scopes()[j], st.Scopes()[j], name))
            && (|r.frames| == d == |st.frames| ==> Resolve(PopScope(r), name) == Resolve(PopScope(st), name))
    decreases |ops|
  {
    if ops != [] {
      LocalStep(st, ops[0], d, name);
      LocalIsolation(Apply(st, ops[0]), ops[1..], d, name);
    }
    var r := ApplyAll(st, ops);
    if |r.frames| == d == |st.frames| {
      var a, b := PopScope(r).Scopes(), PopScope(st).Scopes();
      assert forall j | 0 <= j < d :: a[j] == r.Scopes()[j] && b[j] == st.Scopes()[j];
      InnermostAgree(a, b, d, name);
    }
  }

  predicate OnlySetsAndUnsets(ops: seq<Op>) {
    forall i | 0 <= i < |ops| :: ops[i].OpSet? || ops[i].OpUnset? || ops[i].OpUnsetAt?
  }

  lemma ReadonlyStep(st: Store, op: Op, i: nat, name: string)
    requires op.OpSet? || op.OpUnset? || op.OpUnsetAt?
    requires i <= |st.frames| && name != "" && name in st.Scopes()[i] && st.Scopes()[i][name].readonly
    ensures |Apply(st, op).frames| == |st.frames|
    ensures SameBinding(Apply(st, op).Scopes()[i], st.Scopes()[i], name)
  {
    assert Home(st, name).Some?;
    if op.OpUnset? && op.name == "" {
      UnsetEmptyOther(st, |st.frames| + 1, name);
    } else if op.name != "" && Apply(st, op) != st {
      var h, s := ScopeWrite(st, op);
      WithScopeScopes(st, h, s);
    }
  }

  /** A readonly binding survives every sequence of assignments and unsets. */
  lemma {:induction false} ReadonlySurvives(st: Store, ops: seq<Op>, i: nat, name: string)
    requires OnlySetsAndUnsets(ops)
    requires i <= |st.frames| && name != "" && name in st.Scopes()[i] && st.Scopes()[i][name].readonly
    ensures |ApplyAll(st, ops).frames| == |st.frames|
    ensures SameBinding(ApplyAll(st, ops).Scopes()[i], st.Scopes()[i], name)
    decreases |ops|
  {
    if ops != [] {
      ReadonlyStep(st, ops[0], i, name);
      ReadonlySurvives(Apply(st, ops[0]), ops[1..], i, name);
    }
  }
}
