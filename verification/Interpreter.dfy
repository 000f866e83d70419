/** The symbol tables as the interpreter holds them: variables are objects that the tables share with
    nobody, and every operation edits them in place. `view` is the store they stand for. */
module Interpreter {
  import opened Text
  import opened VariableStore
  import opened Arrays

  function MinKey(keys: set<nat>): (k: nat)
    requires keys != {}
    ensures k in keys && forall j | j in keys :: k <= j
    decreases |keys|
  {
    var m := MaxKey(keys);
    if keys == {m} then m
    else
      var k := MinKey(keys - {m});
      assert forall j | j in keys :: j == m || j in keys - {m};
      k
  }

  lemma Without(m: Values, k: nat)
    requires k in m
    ensures (m - {k}).Keys == m.Keys - {k} && |m - {k}| == |m| - 1
  {
    assert |m| == |m.Keys| && |m - {k}| == |(m - {k}).Keys|;
  }

  lemma AllValuesLast(m: Values)
    requires m != map[]
    ensures var top := MaxKey(m.Keys); AllValues(m) == AllValues(m - {top}) + [m[top].AsString()]
  {
  }

  lemma TopOfLow(m: Values, k: nat)
    requires k in m && k != MaxKey(m.Keys)
    ensures var low := m - {k}; low != map[] && MaxKey(low.Keys) == MaxKey(m.Keys)
  {
    assert MaxKey(m.Keys) in m - {k};
  }

  lemma LeastOfRest(m: Values)
    requires m != map[] && MinKey(m.Keys) != MaxKey(m.Keys)
    ensures var rest := m - {MaxKey(m.Keys)}; rest != map[] && MinKey(rest.Keys) == MinKey(m.Keys)
  {
    assert MinKey(m.Keys) in m - {MaxKey(m.Keys)};
  }

  /** The values in key order begin with the one under the least key. */
  lemma {:induction false} AllValuesFirst(m: Values)
    requires m != map[]
    ensures var k := MinKey(m.Keys); AllValues(m) == [m[k].AsString()] + AllValues(m - {k})
    decreases |m|
  {
    hide AllValues, MinKey, MaxKey, Value.AsString;
    var k, top := MinKey(m.Keys), MaxKey(m.Keys);
    var rest := m - {top};
    AllValuesLast(m);
    if k == top {
      assert forall j | j in m :: j == k;
      assert rest == map[];
      assert AllValues(map[]) == [] by { NoValues(); }
    } else {
      Without(m, top);
      LeastOfRest(m);
      AllValuesFirst(rest);
      TopOfLow(m, k);
      AllValuesLast(m - {k});
      assert m - {k} - {top} == rest - {k};
    }
  }

  lemma NoValues()
    ensures AllValues(map[]) == []
  {
  }

  class Variable {
    var value: Values
    const readonly: bool

    ghost function Abs(): Var
      reads this
    {
      Var(value, readonly)
    }

    constructor (v: Var)
      ensures Abs() == v
    {
      value, readonly := v.values, v.readonly;
    }

    method GetAllValues() returns (all: seq<string>)
      ensures all == AllValues(value)
    {
      hide AllValues, MinKey, Value.AsString;
      all := [];
      var rest := value;
      while rest != map[]
        invariant all + AllValues(rest) == AllValues(value)
        decreases |rest|
      {
        AllValuesFirst(rest);
        var k := MinKey(rest.Keys);
        Without(rest, k);
        assert all + ([rest[k].AsString()] + AllValues(rest - {k})) == all + [rest[k].AsString()] + AllValues(rest - {k});
        all := all + [rest[k].AsString()];
        rest := rest - {k};
      }
      NoValues();
    }

    /** Fails on a readonly variable, and then changes nothing. */
    method SetValue(v: Value, index: nat) returns (ok: bool)
      modifies this
      ensures ok <==> !readonly
      ensures value == if ok then old(value)[index := v] else old(value)
    {
      if readonly { return false; }
      value := value[index := v];
      ok := true;
    }

    method UnsetValue(index: nat) returns (ok: bool)
      modifies this
      ensures ok <==> !readonly
      ensures value == if ok then old(value) - {index} else old(value)
    {
      if readonly { return false; }
      value := value - {index};
      ok := true;
    }

    /** Copies elements down in place, creating the missing ones, and erases the tail. */
    method Shift(k: nat) returns (status: int)
      requires !readonly
      modifies this
      ensures value == Shifted(old(value), k) && status == ShiftStatus(old(value), k)
    {
      hide Shifted;
      var size := |value|;
      ghost var m := value;
      ShiftedEnds(m, k);
      if k > size { return 1; }
      if k == size { value := map[]; return 0; }
      var i := k + 1;
      while i <= size
        invariant k + 1 <= i <= size + 1
        invariant Copied(m, value, k, i - k - 1)
      {
        ghost var before := value;
        if i !in value { value := value[i := Str("")]; }
        value := value[i - k := value[i]];
        CopyStep(m, before, value, k, i - k - 1);
        i := i + 1;
      }
      ghost var copied := value;
      i := size - k + 1;
      while i <= size
        invariant size - k + 1 <= i <= size + 1
        invariant Erased(copied, value, size - k, i)
      {
        EraseStep(copied, value, size - k, i);
        value := value - {i};
        i := i + 1;
      }
      ErasedIsShifted(m, copied, value, k, size);
      status := 0;
    }
  }

  function Lookup(m: Values, j: nat): Option<Value> { if j in m then Some(m[j]) else None }

  /** After t copies: positions 1 .. t hold what stood k further on, the others what they held, and
      positions k + 1 .. t + k exist. */
  function CopiedAt(m: Values, k: nat, t: nat, j: nat): Option<Value> {
    if 1 <= j <= t then Some(ValueAt(m, j + k))
    else if k < j <= t + k then Some(ValueAt(m, j))
    else Lookup(m, j)
  }

  ghost predicate Copied(m: Values, v: Values, k: nat, t: nat) {
    forall j: nat :: Lookup(v, j) == CopiedAt(m, k, t, j)
  }

  lemma CopyStep(m: Values, v: Values, next: Values, k: nat, t: nat)
    requires Copied(m, v, k, t)
    requires next == (if k + t + 1 in v then v else v[k + t + 1 := Str("")])[t + 1 := ValueAt(v, k + t + 1)]
    ensures Copied(m, next, k, t + 1)
  {
    var i := k + t + 1;
    assert Lookup(v, i) == Lookup(m, i) && ValueAt(v, i) == ValueAt(m, i);
    forall j: nat
      ensures Lookup(next, j) == CopiedAt(m, k, t + 1, j)
    {
      assert Lookup(v, j) == CopiedAt(m, k, t, j);
    }
  }

  /** Positions strictly between lo and hi are gone, nothing else has changed. */
  ghost predicate Erased(m: Values, v: Values, lo: nat, hi: nat) {
    forall j: nat :: Lookup(v, j) == if lo < j < hi then None else Lookup(m, j)
  }

  lemma EraseStep(m: Values, v: Values, lo: nat, hi: nat)
    requires lo < hi && Erased(m, v, lo, hi)
    ensures Erased(m, v - {hi}, lo, hi + 1)
  {
    forall j: nat
      ensures Lookup(v - {hi}, j) == if lo < j < hi + 1 then None else Lookup(m, j)
    {
      assert Lookup(v, j) == if lo < j < hi then None else Lookup(m, j);
    }
  }

  lemma ShiftedEnds(m: Values, k: nat)
    ensures k > |m| ==> Shifted(m, k) == m
    ensures k == |m| ==> Shifted(m, k) == map[]
    ensures k < |m| ==> forall j: nat :: Lookup(Shifted(m, k), j) ==
                          if 1 <= j <= |m| - k then Some(ValueAt(m, j + k)) else if 1 <= j <= |m| then None else Lookup(m, j)
  {
    if k < |m| {
      forall j: nat
        ensures Lookup(Shifted(m, k), j) ==
                if 1 <= j <= |m| - k then Some(ValueAt(m, j + k)) else if 1 <= j <= |m| then None else Lookup(m, j)
      {
        var keys := m.Keys + UpTo(|m| - k);
        assert j in keys <==> j in m || 1 <= j <= |m| - k;
        assert j in Shifted(m, k) <==> j in keys && !(|m| - k < j <= |m|);
        assert j in Shifted(m, k) <==> (j in m || 1 <= j <= |m| - k) && !(|m| - k < j <= |m|);
      }
    }
  }

  lemma ErasedIsShifted(m: Values, copied: Values, v: Values, k: nat, size: nat)
    requires k < size == |m| && Copied(m, copied, k, size - k) && Erased(copied, v, size - k, size + 1)
    ensures v == Shifted(m, k)
  {
    hide Shifted;
    ShiftedEnds(m, k);
    var s := Shifted(m, k);
    forall j: nat
      ensures Lookup(v, j) == Lookup(s, j)
    {
      assert Lookup(copied, j) == CopiedAt(m, k, size - k, j);
    }
    SameLookups(v, s);
  }

  lemma SameLookups(a: Values, b: Values)
    requires forall j: nat :: Lookup(a, j) == Lookup(b, j)
    ensures a == b
  {
    forall j
      ensures j in a <==> j in b
      ensures j in a ==> a[j] == b[j]
    {
      assert Lookup(a, j) == Lookup(b, j);
    }
  }

  type Table = map<string, Variable>

  /** Two bindings never share a variable object. */
  ghost predicate Distinct(ts: seq<Table>) {
    forall i, x, j, y | 0 <= i < |ts| && x in ts[i] && 0 <= j < |ts| && y in ts[j] ::
      ts[i][x] == ts[j][y] ==> i == j && x == y
  }

  /** The table binds the names of the scope, to variables of these cells that read as the scope says;
      one variable may be excepted. */
  ghost predicate Shows(t: Table, s: Scope, cells: set<Variable>, except: Variable?)
    reads cells
  {
    && t.Keys == s.Keys
    && forall x | x in t :: t[x] == except || (t[x] in cells && t[x].Abs() == s[x])
  }

  ghost predicate ShowsAll(ts: seq<Table>, ss: seq<Scope>, cells: set<Variable>, except: Variable?)
    reads cells
  {
    |ts| == |ss| && forall i | 0 <= i < |ts| :: Shows(ts[i], ss[i], cells, except)
  }

  ghost predicate Stands(ts: seq<Table>, ss: seq<Scope>, cells: set<Variable>)
    reads cells
  {
    Distinct(ts) && ShowsAll(ts, ss, cells, null)
  }

  /** Binding a name in table h to a new variable. */
  lemma Rebound(ts: seq<Table>, ss: seq<Scope>, cells: set<Variable>, h: nat, name: string, x: Variable)
    requires Stands(ts, ss, cells) && h < |ts| && x !in cells
    ensures Stands(ts[h := ts[h][name := x]], ss[h := ss[h][name := x.Abs()]], cells + {x})
  {
    var us, vs := ts[h := ts[h][name := x]], ss[h := ss[h][name := x.Abs()]];
    forall i | 0 <= i < |us|
      ensures Shows(us[i], vs[i], cells + {x}, null)
    {
      assert Shows(ts[i], ss[i], cells, null);
    }
    forall i, a, j, b | 0 <= i < |us| && a in us[i] && 0 <= j < |us| && b in us[j]
      ensures us[i][a] == us[j][b] ==> i == j && a == b
    {
      assert Shows(ts[i], ss[i], cells, null) && Shows(ts[j], ss[j], cells, null);
    }
  }

  /** After an edit of the variable bound to a name in table h, only that binding reads differently. */
  lemma Edited(ts: seq<Table>, ss: seq<Scope>, cells: set<Variable>, h: nat, name: string)
    requires h < |ts| && name in ts[h] && ts[h][name] in cells
    requires Distinct(ts) && ShowsAll(ts, ss, cells - {ts[h][name]}, ts[h][name])
    ensures Stands(ts, ss[h := ss[h][name := ts[h][name].Abs()]], cells)
  {
    var vs := ss[h := ss[h][name := ts[h][name].Abs()]];
    forall i | 0 <= i < |ts|
      ensures Shows(ts[i], vs[i], cells, null)
    {
      assert Shows(ts[i], ss[i], cells - {ts[h][name]}, ts[h][name]);
    }
  }

  /** Removing names from table h. */
  lemma Removed(ts: seq<Table>, ss: seq<Scope>, cells: set<Variable>, h: nat, name: string)
    requires Stands(ts, ss, cells) && h < |ts|
    ensures Stands(ts[h := ts[h] - {name}], ss[h := ss[h] - {name}], cells)
  {
    var us, vs := ts[h := ts[h] - {name}], ss[h := ss[h] - {name}];
    forall i | 0 <= i < |us|
      ensures Shows(us[i], vs[i], cells, null)
    {
      assert Shows(ts[i], ss[i], cells, null);
    }
    forall i, a, j, b | 0 <= i < |us| && a in us[i] && 0 <= j < |us| && b in us[j]
      ensures us[i][a] == us[j][b] ==> i == j && a == b
    {
      assert a in ts[i] && b in ts[j] && us[i][a] == ts[i][a] && us[j][b] == ts[j][b];
    }
  }

  lemma Pushed(ts: seq<Table>, ss: seq<Scope>, cells: set<Variable>)
    requires Stands(ts, ss, cells)
    ensures Stands(ts + [map[]], ss + [map[]], cells)
  {
    var us, vs := ts + [map[]], ss + [map[]];
    forall i | 0 <= i < |us|
      ensures Shows(us[i], vs[i], cells, null)
    {
      if i < |ts| { assert Shows(ts[i], ss[i], cells, null); }
    }
  }

  lemma Popped(ts: seq<Table>, ss: seq<Scope>, cells: set<Variable>)
    requires Stands(ts, ss, cells) && ts != []
    ensures Stands(ts[..|ts| - 1], ss[..|ss| - 1], cells)
  {
    var us, vs := ts[..|ts| - 1], ss[..|ss| - 1];
    forall i | 0 <= i < |us|
      ensures Shows(us[i], vs[i], cells, null)
    {
      assert Shows(ts[i], ss[i], cells, null);
    }
  }

  class Interpreter {
    var members: Table
    var localMembers: seq<Table>
    ghost var cells: set<Variable>
    ghost var view: Store

    /** The tables, outermost first. */
    ghost function Tables(): seq<Table>
      reads this
    {
      [members] + localMembers
    }

    ghost predicate Valid()
      reads this, cells
    {
      Stands(Tables(), view.Scopes(), cells)
    }

    constructor ()
      ensures Valid() && fresh(cells) && view == Store(map[], [])
    {
      members, localMembers, cells, view := map[], [], {}, Store(map[], []);
    }

    /** resolve_variable: the frames from the innermost out, then the globals. */
    method ResolveVariable(name: string) returns (v: Variable?)
      requires Valid()
      ensures v == null <==> Home(view, name).None?
      ensures v != null ==>
        var h := Home(view, name).value; h < |Tables()| && name in Tables()[h] && v == Tables()[h][name]
      ensures v != null ==> v in cells && Resolve(view, name) == Some(v.Abs())
    {
      if name == "" { return null; }
      var i := |localMembers|;
      while i > 0
        invariant 0 <= i <= |localMembers|
        invariant Innermost(view.Scopes(), i + 1, name) == Home(view, name)
        decreases i
      {
        assert Shows(Tables()[i], view.Scopes()[i], cells, null);
        if name in localMembers[i - 1] { return localMembers[i - 1][name]; }
        i := i - 1;
      }
      assert Shows(Tables()[0], view.Scopes()[0], cells, null);
      if name !in members { return null; }
      v := members[name];
    }

    /** The operation succeeded with the store `o`, or failed and changed nothing. */
    ghost predicate Became(o: Option<Store>, before: Store, ok: bool)
      reads this
    {
      (ok <==> o.Some?) && view == if o.Some? then o.value else before
    }

    method Define(name: string, v: Var)
      requires Valid()
      modifies this
      ensures Valid() && fresh(cells - old(cells)) && old(cells) <= cells
      ensures view == VariableStore.Define(old(view), name, v)
    {
      hide Stands;
      var x := new Variable(v);
      assert Stands(Tables(), view.Scopes(), cells);
      Rebound(Tables(), view.Scopes(), cells, 0, name, x);
      members := members[name := x];
      cells := cells + {x};
      view := VariableStore.Define(view, name, v);
      assert Tables() == old(Tables())[0 := old(members)[name := x]];
      assert view.Scopes() == old(view.Scopes())[0 := old(view.globals)[name := x.Abs()]];
    }

    method DefineLocal(name: string, v: Var) returns (ok: bool)
      requires Valid()
      modifies this
      ensures Valid() && fresh(cells - old(cells)) && old(cells) <= cells
      ensures Became(VariableStore.DefineLocal(old(view), name, v), old(view), ok)
    {
      SameDepth();
      hide Stands;
      if localMembers == [] { return false; }
      var top := |localMembers| - 1;
      var x := new Variable(v);
      assert Stands(Tables(), view.Scopes(), cells);
      Rebound(Tables(), view.Scopes(), cells, top + 1, name, x);
      localMembers := localMembers[top := localMembers[top][name := x]];
      cells := cells + {x};
      view := VariableStore.DefineLocal(view, name, v).value;
      assert Tables() == old(Tables())[top + 1 := old(Tables())[top + 1][name := x]];
      assert view.Scopes() == old(view.Scopes())[top + 1 := old(view.Scopes())[top + 1][name := x.Abs()]];
      ok := true;
    }

    lemma SameDepth()
      requires Valid()
      ensures |localMembers| == |view.frames|
    {
    }

    /** Updates the visible variable in place, or defines a global one. */
    method SetValue(name: string, v: Value, index: nat) returns (ok: bool)
      requires Valid()
      modifies this, cells
      ensures Valid() && fresh(cells - old(cells))
      ensures Became(VariableStore.SetValue(old(view), name, v, index), old(view), ok)
    {
      hide Stands, Innermost, Shows, Distinct;
      var x := ResolveVariable(name);
      if x == null {
        Define(name, Var(map[index := v], false));
        return true;
      }
      ghost var h := Home(view, name).value;
      Exempt(x);
      SameDepth();
      ok := x.SetValue(v, index);
      Reread(h, name);
      Unchanged(old(view), h, name);
    }

    static lemma Unchanged(st: Store, h: nat, name: string)
      requires h <= |st.frames| && name in st.Scopes()[h]
      ensures st.WithScope(h, st.Scopes()[h][name := st.Scopes()[h][name]]) == st
    {
      assert st.Scopes()[h][name := st.Scopes()[h][name]] == st.Scopes()[h];
    }

    lemma Exempt(x: Variable)
      requires Valid()
      ensures Distinct(Tables()) && ShowsAll(Tables(), view.Scopes(), cells - {x}, x)
    {
      forall i | 0 <= i < |Tables()|
        ensures Shows(Tables()[i], view.Scopes()[i], cells - {x}, x)
      {
        assert Shows(Tables()[i], view.Scopes()[i], cells, null);
      }
    }

    /** Follows an edit of the variable bound to the name in table h. */
    ghost method Reread(h: nat, name: string)
      requires |view.frames| == |localMembers|
      requires h < |Tables()| && name in Tables()[h] && Tables()[h][name] in cells && Distinct(Tables())
      requires ShowsAll(Tables(), view.Scopes(), cells - {Tables()[h][name]}, Tables()[h][name])
      modifies this`view
      ensures Valid()
      ensures view == old(view).WithScope(h, old(view).Scopes()[h][name := Tables()[h][name].Abs()])
    {
      hide Stands, Shows, Distinct;
      Edited(Tables(), view.Scopes(), cells, h, name);
      var s := view.Scopes()[h][name := Tables()[h][name].Abs()];
      WithScopeScopes(view, h, s);
      view := view.WithScope(h, s);
    }

    method UnsetIndex(name: string, index: nat) returns (ok: bool)
      requires Valid()
      modifies this, cells
      ensures Valid() && cells == old(cells)
      ensures Became(UnsetAt(old(view), name, index), old(view), ok)
    {
      hide Stands, Innermost, Shows, Distinct;
      if IsNumber(name) { return false; }
      var x := ResolveVariable(name);
      if x == null { return true; }
      if x.readonly { return false; }
      ghost var h := Home(view, name).value;
      Exempt(x);
      SameDepth();
      ok := x.UnsetValue(index);
      Reread(h, name);
    }

    /** One application of unset's lambda, to table i. */
    method Unsetter(i: nat, name: string) returns (found: bool, removed: bool)
      requires Valid() && i <= |localMembers|
      modifies this
      ensures Valid() && cells == old(cells)
      ensures i <= |old(view).frames| && (found <==> name in old(view).Scopes()[i])
      ensures removed <==> found && !old(view).Scopes()[i][name].readonly
      ensures view == if removed then old(view).WithScope(i, old(view).Scopes()[i] - {name}) else old(view)
      ensures !removed ==> Tables() == old(Tables())
    {
      SameDepth();
      var table := if i == 0 then members else localMembers[i - 1];
      assert table == Tables()[i] && Shows(Tables()[i], view.Scopes()[i], cells, null);
      found, removed := name in table, false;
      if !found { return; }
      if table[name].readonly { return; }
      RemoveFrom(i, name);
      removed := true;
    }

    method RemoveFrom(i: nat, name: string)
      requires Valid() && i <= |localMembers|
      modifies this
      ensures Valid() && cells == old(cells)
      ensures i <= |old(view).frames| && view == old(view).WithScope(i, old(view).Scopes()[i] - {name})
    {
      SameDepth();
      hide Stands;
      Removed(Tables(), view.Scopes(), cells, i, name);
      WithScopeScopes(view, i, view.Scopes()[i] - {name});
      if i == 0 {
        members := members - {name};
      } else {
        localMembers := localMembers[i - 1 := localMembers[i - 1] - {name}];
      }
      view := view.WithScope(i, view.Scopes()[i] - {name});
      assert Tables() == old(Tables())[i := old(Tables())[i] - {name}];
    }

    /** unset: the innermost table that has the name loses it; the frames are searched from the top and
        the globals only if none of them had it. */
    method Unset(name: string) returns (ok: bool)
      requires Valid()
      modifies this
      ensures Valid() && cells == old(cells)
      ensures Became(VariableStore.Unset(old(view), name), old(view), ok)
    {
      hide Stands, Innermost;
      if IsNumber(name) { return false; }
      SameDepth();
      UnsetSearches(view, |view.frames| + 1, name);
      var i := |localMembers|;
      while i > 0
        invariant 0 <= i <= |localMembers| && Valid() && view == old(view) && Tables() == old(Tables()) && cells == old(cells)
        invariant UnsetFrom(view, i + 1, name) == VariableStore.Unset(view, name)
        decreases i
      {
        var found, removed := Unsetter(i, name);
        if found { return removed; }
        i := i - 1;
      }
      var found, removed := Unsetter(0, name);
      ok := !found || removed;
    }

    /** local_scope: its constructor and its destructor. */
    method PushScope()
      requires Valid()
      modifies this
      ensures Valid() && cells == old(cells) && view == VariableStore.PushScope(old(view))
    {
      hide Stands;
      Pushed(Tables(), view.Scopes(), cells);
      localMembers := localMembers + [map[]];
      view := VariableStore.PushScope(view);
      assert Tables() == old(Tables()) + [map[]] && view.Scopes() == old(view.Scopes()) + [map[]];
    }

    method PopScope()
      requires Valid() && localMembers != []
      modifies this
      ensures Valid() && cells == old(cells)
      ensures old(view).frames != [] && view == VariableStore.PopScope(old(view))
    {
      SameDepth();
      hide Stands;
      Popped(Tables(), view.Scopes(), cells);
      localMembers := localMembers[..|localMembers| - 1];
      view := VariableStore.PopScope(view);
      assert Tables() == old(Tables())[..|old(Tables())| - 1];
      assert view.Scopes() == old(view.Scopes())[..|old(view.Scopes())| - 1];
    }

    /** shift: a negative number is refused, else `*` is shifted, whose object the source takes for
        granted. */
    method Shift(k: int) returns (status: int)
      requires Valid()
      requires k >= 0 ==> Resolve(view, "*").Some? && !Resolve(view, "*").value.readonly
      modifies this, cells
      ensures Valid() && cells == old(cells)
      ensures ShiftStar(old(view), k) == Some((status, view))
    {
      hide Stands, Innermost, Shows, Distinct, Shifted;
      var x := ResolveVariable("*");
      if k < 0 { return 1; }
      ghost var h := Home(view, "*").value;
      Exempt(x);
      SameDepth();
      status := x.Shift(k);
      Reread(h, "*");
    }

    /** define_positional_arguments, and with it define_function_arguments. */
    method DefinePositionalArguments(args: seq<string>)
      requires Valid()
      modifies this
      ensures Valid() && fresh(cells - old(cells))
      ensures view == SetPositional(old(view), args)
    {
      hide Stands, Positional;
      SameDepth();
      var positional := CollectArguments(args);
      if |localMembers| < 1 {
        Define("*", Var(positional, false));
      } else {
        var ok := DefineLocal("*", Var(positional, false));
      }
    }

    /** get_max_index: 0 for an unbound name or an empty array. */
    method GetMaxIndex(name: string) returns (index: nat)
      requires Valid()
      ensures index == TopIndex(view, name)
    {
      var x := ResolveVariable(name);
      index := if x == null || x.value == map[] then 0 else MaxKey(x.value.Keys);
    }

    method IsUnsetOrNull(name: string, index: nat) returns (b: bool)
      requires Valid()
      ensures b <==> ResolveString(view, name, index) == ""
    {
      var x := ResolveVariable(name);
      b := x == null || index !in x.value || x.value[index].AsString() == "";
    }

    /** `name+=(…)`: the index from which bare elements go, the elements, and set_value for each in key
        order; nothing at all if a subscript is negative. */
    method AppendArray(name: string, elements: seq<Element>) returns (ok: bool)
      requires Valid() && name != ""
      modifies this, cells
      ensures Valid() && fresh(cells - old(cells))
      ensures Became(ArrayAppended(old(view), name, elements), old(view), ok)
    {
      hide Stands, Innermost, Shows, Distinct, ElementValues, TopIndex, SetAll;
      var top := GetMaxIndex(name);
      var index := top + 1;
      if index == 1 {
        var none := IsUnsetOrNull(name, 0);
        if none { index := 0; }
      }
      var values := CollectElements(index, elements);
      if values.None? { return false; }
      ok := SetElements(name, values.value);
    }

    /** `name=(…)` outside `local`. */
    method DefineArray(name: string, elements: seq<Element>) returns (ok: bool)
      requires Valid()
      modifies this
      ensures Valid() && fresh(cells - old(cells))
      ensures Became(ArrayDefined(old(view), name, elements), old(view), ok)
    {
      hide Stands, ElementValues;
      var values := CollectElements(0, elements);
      if values.None? { return false; }
      Define(name, Var(values.value, false));
      ok := true;
    }

    /** set_value for each element, in key order. */
    method SetElements(name: string, values: Values) returns (ok: bool)
      requires Valid() && name != ""
      modifies this, cells
      ensures Valid() && fresh(cells - old(cells))
      ensures Became(SetAll(old(view), name, values), old(view), ok)
    {
      hide Valid, Stands, Innermost, Shows, Distinct, SetAll, MinKey, MaxKey, VariableStore.SetValue;
      var rest := values;
      ghost var done: Values := map[];
      ok := true;
      NothingSet(view, name);
      while rest != map[]
        invariant Valid() && fresh(cells - old(cells)) && ok
        invariant SetAll(old(view), name, done) == Some(view)
        invariant done + rest == values && (done == map[] ==> view == old(view))
        decreases |rest|
      {
        var k := MinKey(rest.Keys);
        Without(rest, k);
        SetOneMore(old(view), name, done, view, k, rest[k]);
        ghost var before := view;
        ok := SetValue(name, rest[k], k);
        if !ok {
          SetAllFails(old(view), name, done, k, rest[k], values);
          return;
        }
        assert done[k := rest[k]] + (rest - {k}) == done + rest;
        done := done[k := rest[k]];
        rest := rest - {k};
      }
      assert done + rest == done;
    }
  }

  /** The loop that numbers the arguments from 1. */
  method CollectArguments(args: seq<string>) returns (m: Values)
    ensures m == Positional(args)
  {
    m := map[];
    var i := 1;
    NoArguments();
    while i <= |args|
      invariant 1 <= i <= |args| + 1
      invariant m == Positional(args[..i - 1])
    {
      PositionalSnoc(args[..i - 1], args[i - 1]);
      assert args[..i - 1] + [args[i - 1]] == args[..i];
      m := m[i := Str(args[i - 1])];
      i := i + 1;
    }
    assert args[..|args|] == args;
  }

  lemma NoArguments()
    ensures Positional([]) == map[]
  {
  }

  /** unset on the first k tables, searched from the innermost. */
  function UnsetFrom(st: Store, k: nat, name: string): Option<Store>
    requires k <= |st.frames| + 1
  {
    if k == 0 then Some(st)
    else if name in st.Scopes()[k - 1] then
      if st.Scopes()[k - 1][name].readonly then None else Some(st.WithScope(k - 1, st.Scopes()[k - 1] - {name}))
    else UnsetFrom(st, k - 1, name)
  }

  lemma {:induction false} UnsetSearches(st: Store, k: nat, name: string)
    requires k <= |st.frames| + 1
    ensures name == "" ==> UnsetFrom(st, k, name) == UnsetEmptyName(st, k)
    ensures name != "" ==>
      UnsetFrom(st, k, name) == (match Innermost(st.Scopes(), k, name)
       case None => Some(st)
       case Some(h) => if st.Scopes()[h][name].readonly then None else Some(st.WithScope(h, st.Scopes()[h] - {name})))
  {
    if k > 0 { UnsetSearches(st, k - 1, name); }
  }

  // ---- Array elements ----

  /** An element of an array literal, with its subscript if it has one. */
  datatype Element = Bare(s: string) | At(index: int, s: string)

  /** array_def_helper: a bare element goes behind the one before it; a negative subscript is an
      error. */
  function ElementValues(values: Values, index: nat, elements: seq<Element>): Option<Values>
    decreases |elements|
  {
    if elements == [] then Some(values)
    else if elements[0].At? && elements[0].index < 0 then None
    else
      var k := if elements[0].At? then elements[0].index else index;
      ElementValues(values[k := Str(elements[0].s)], k + 1, elements[1..])
  }

  method CollectElements(start: nat, elements: seq<Element>) returns (result: Option<Values>)
    ensures result == ElementValues(map[], start, elements)
  {
    var values: Values := map[];
    var index: nat := start;
    var i := 0;
    assert elements[0..] == elements;
    while i < |elements|
      invariant 0 <= i <= |elements|
      invariant ElementValues(values, index, elements[i..]) == ElementValues(map[], start, elements)
    {
      assert elements[i..][0] == elements[i] && elements[i..][1..] == elements[i + 1..];
      if elements[i].At? {
        if elements[i].index < 0 { return None; }
        index := elements[i].index;
      }
      values := values[index := Str(elements[i].s)];
      index := index + 1;
      i := i + 1;
    }
    result := Some(values);
  }

  function ArrayDefined(st: Store, name: string, elements: seq<Element>): Option<Store> {
    var values :- ElementValues(map[], 0, elements);
    Some(VariableStore.Define(st, name, Var(values, false)))
  }

  function ArrayAppended(st: Store, name: string, elements: seq<Element>): Option<Store> {
    var values :- ElementValues(map[], AppendStart(st, name), elements);
    SetAll(st, name, values)
  }

  function TopIndex(st: Store, name: string): nat {
    match Resolve(st, name) case Some(v) => (if v.values == map[] then 0 else MaxKey(v.values.Keys)) case None => 0
  }

  function AppendStart(st: Store, name: string): nat {
    if TopIndex(st, name) == 0 && ResolveString(st, name, 0) == "" then 0 else TopIndex(st, name) + 1
  }

  /** All these elements set in the visible variable, or in a new global one; none at all if it is
      readonly. */
  function SetAll(st: Store, name: string, values: Values): Option<Store> {
    if values == map[] then Some(st)
    else
      var h := Home(st, name);
      if h.None? then Some(VariableStore.Define(st, name, Var(values, false)))
      else
        var prev := st.Scopes()[h.value][name];
        if prev.readonly then None
        else Some(st.WithScope(h.value, st.Scopes()[h.value][name := Var(prev.values + values, false)]))
  }

  lemma NothingSet(st: Store, name: string)
    ensures SetAll(st, name, map[]) == Some(st)
  {
  }

  lemma SetOneMore(st: Store, name: string, done: Values, now: Store, k: nat, v: Value)
    requires name != "" && SetAll(st, name, done) == Some(now)
    ensures VariableStore.SetValue(now, name, v, k) == SetAll(st, name, done[k := v])
  {
    hide Innermost;
    if Home(st, name).None? {
      SetOneMoreNew(st, name, done, now, k, v);
    } else {
      SetOneMoreBound(st, name, done, now, k, v);
    }
  }

  lemma SetOneMoreNew(st: Store, name: string, done: Values, now: Store, k: nat, v: Value)
    requires name != "" && SetAll(st, name, done) == Some(now) && Home(st, name).None?
    ensures VariableStore.SetValue(now, name, v, k) == SetAll(st, name, done[k := v])
  {
    hide Innermost;
    assert k in done[k := v];
    if done == map[] {
      assert done[k := v] == map[k := v];
    } else {
      NewGlobal(st, name, Var(done, false));
      assert now.Scopes()[0] == now.globals;
      assert st.globals[name := Var(done, false)][name := Var(done[k := v], false)] == st.globals[name := Var(done[k := v], false)];
    }
  }

  lemma SetOneMoreBound(st: Store, name: string, done: Values, now: Store, k: nat, v: Value)
    requires name != "" && SetAll(st, name, done) == Some(now) && Home(st, name).Some?
    ensures VariableStore.SetValue(now, name, v, k) == SetAll(st, name, done[k := v])
  {
    hide Innermost;
    var h := Home(st, name).value;
    var scope := st.Scopes()[h];
    var prev := scope[name];
    assert k in done[k := v];
    assert prev.values + map[] == prev.values;
    assert (prev.values + done)[k := v] == prev.values + done[k := v];
    if done != map[] {
      var s := scope[name := Var(prev.values + done, false)];
      var t := scope[name := Var(prev.values + done[k := v], false)];
      WithScopeScopes(st, h, s);
      InnermostAgree(now.Scopes(), st.Scopes(), |st.frames| + 1, name);
      assert now.Scopes()[h] == s;
      assert s[name := Var((prev.values + done)[k := v], false)] == t;
      Overwrite(st, h, s, t);
    }
  }

  lemma Overwrite(st: Store, h: nat, s: Scope, t: Scope)
    requires h <= |st.frames|
    ensures st.WithScope(h, s).WithScope(h, t) == st.WithScope(h, t)
  {
  }

  lemma NewGlobal(st: Store, name: string, v: Var)
    requires Home(st, name).None? && name != ""
    ensures Home(VariableStore.Define(st, name, v), name) == Some(0)
  {
    var now := VariableStore.Define(st, name, v);
    assert forall j | 1 <= j <= |st.frames| :: name !in now.Scopes()[j] by {
      assert forall j | 1 <= j <= |st.frames| :: now.Scopes()[j] == st.Scopes()[j];
    }
    assert name in now.Scopes()[0];
  }

  lemma SetAllFails(st: Store, name: string, done: Values, k: nat, v: Value, values: Values)
    requires SetAll(st, name, done).Some? && SetAll(st, name, done[k := v]).None? && values != map[]
    ensures done == map[] && SetAll(st, name, values).None?
  {
    assert k in done[k := v];
  }

  /** An array literal fails exactly at a negative subscript. */
  lemma {:induction false} ElementsFailIff(values: Values, index: nat, elements: seq<Element>)
    ensures ElementValues(values, index, elements).None? <==> exists i | 0 <= i < |elements| :: elements[i].At? && elements[i].index < 0
    decreases |elements|
  {
    if elements != [] && !(elements[0].At? && elements[0].index < 0) {
      var k := if elements[0].At? then elements[0].index else index;
      ElementsFailIff(values[k := Str(elements[0].s)], k + 1, elements[1..]);
      assert forall i | 0 < i < |elements| :: elements[i] == elements[1..][i - 1];
    }
  }

  /** Without subscripts the literal is the sequence of its elements, and set in the variable it is what
      AppendFrom makes of it. */
  lemma {:induction false} BareElementsAppend(m: Values, values: Values, index: nat, items: seq<string>)
    ensures var r := ElementValues(values, index, BareAll(items));
            r.Some? && m + r.value == AppendFrom(m + values, index, items)
    decreases |items|
  {
    if items != [] {
      assert BareAll(items)[1..] == BareAll(items[1..]);
      BareElementsAppend(m, values[index := Str(items[0])], index + 1, items[1..]);
      assert m + values[index := Str(items[0])] == (m + values)[index := Str(items[0])];
    }
  }

  function BareAll(items: seq<string>): (r: seq<Element>)
    ensures |r| == |items|
  {
    seq(|items|, i requires 0 <= i < |items| => Bare(items[i]))
  }

  /** Hence `name+=(…)` without subscripts on a bound array appends to its values in order, if and only if
      it is not a single null element at index 0 and there is something to append. */
  lemma AppendArrayIff(st: Store, name: string, items: seq<string>)
    requires Resolve(st, name).Some?
    ensures var m := Resolve(st, name).value.values;
            var values := ElementValues(map[], AppendStart(st, name), BareAll(items));
            && values.Some?
            && (AllValues(m + values.value) == AllValues(m) + items <==> !(m.Keys == {0} && m[0].AsString() == "" && items != []))
  {
    hide AllValues, ElementValues, AppendFrom, BareAll;
    var m := Resolve(st, name).value.values;
    BareElementsAppend(m, map[], AppendStart(st, name), items);
    assert m + map[] == m;
    AppendIff(m, items);
    assert AppendStart(st, name) == AppendIndex(m);
  }
}
