/** Sparse arrays read as sequences: all values in key order, append, slices, and the positional
    parameters with `shift`. */
module Arrays {
  import opened Text
  import opened VariableStore

  type Values = map<nat, Value>

  lemma {:induction false} MaxExists(keys: set<nat>)
    requires keys != {}
    ensures exists k :: k in keys && forall j | j in keys :: j <= k
    decreases |keys|
  {
    var x :| x in keys;
    var rest := keys - {x};
    if rest == {} {
      assert keys == {x};
    } else {
      MaxExists(rest);
      var k :| k in rest && forall j | j in rest :: j <= k;
      var best := if x > k then x else k;
      assert best in keys && forall j | j in keys :: j == x || j in rest;
    }
  }

  /** `value.rbegin()->first`. */
  function MaxKey(keys: set<nat>): (k: nat)
    requires keys != {}
    ensures k in keys && forall j | j in keys :: j <= k
  {
    MaxExists(keys);
    var k :| k in keys && forall j | j in keys :: j <= k;
    k
  }

  /** get_all_values: the values in the order of their keys. */
  function AllValues(m: Values): (s: seq<string>)
    ensures |s| == |m|
    decreases |m|
  {
    if m == map[] then []
    else
      var k := MaxKey(m.Keys);
      var rest := m - {k};
      assert rest.Keys == m.Keys - {k} && |rest| == |rest.Keys| && |m| == |m.Keys|;
      AllValues(rest) + [m[k].AsString()]
  }

  /** Adding a key above all others adds its value at the end. */
  lemma AllValuesAppend(m: Values, k: nat, v: Value)
    requires forall j | j in m :: j < k
    ensures AllValues(m[k := v]) == AllValues(m) + [v.AsString()]
  {
    var big := m[k := v];
    assert k in big.Keys && MaxKey(big.Keys) == k;
    assert big - {k} == m;
  }

  // ---- Positional parameters ----

  function UpTo(n: nat): (s: set<nat>)
    ensures forall i :: i in s <==> 1 <= i <= n
  {
    if n == 0 then {} else UpTo(n - 1) + {n}
  }

  /** Positional parameters: argument i under key i, counted from 1. */
  function Positional(args: seq<string>): (m: Values) {
    map i | i in UpTo(|args|) :: Str(args[i - 1])
  }

  lemma PositionalSnoc(args: seq<string>, x: string)
    ensures Positional(args + [x]) == Positional(args)[|args| + 1 := Str(x)]
  {
    var a, b := Positional(args + [x]), Positional(args)[|args| + 1 := Str(x)];
    assert a.Keys == b.Keys;
    assert forall i | i in a :: a[i] == b[i];
  }

  lemma {:induction false} PositionalInOrder(args: seq<string>)
    ensures AllValues(Positional(args)) == args
    ensures forall i :: i in Positional(args) ==> i <= |args|
  {
    if args == [] {
      assert Positional(args) == map[];
    } else {
      var front, last := args[..|args| - 1], args[|args| - 1];
      assert args == front + [last];
      PositionalInOrder(front);
      PositionalSnoc(front, last);
      hide Positional, AllValues;
      AllValuesAppend(Positional(front), |args|, Str(last));
    }
  }

  /** What variable::shift leaves, for any sparse array: positions 1 .. size - k take the element k
      further on (created empty if there was none), the next k positions go, others stay. */
  function Shifted(m: Values, k: nat): Values {
    var size := |m|;
    if k > size then m
    else if k == size then map[]
    else map j | j in m.Keys + UpTo(size - k) && !(size - k < j <= size) :: ShiftedAt(m, k, size, j)
  }

  function ShiftedAt(m: Values, k: nat, size: nat, j: nat): Value
    requires j in m || 1 <= j <= size - k
  {
    if 1 <= j <= size - k then ValueAt(m, j + k) else m[j]
  }

  function ValueAt(m: Values, i: nat): Value { if i in m then m[i] else Str("") }

  function ShiftStatus(m: Values, k: nat): int { if k > |m| then 1 else 0 }

  lemma PositionalSize(args: seq<string>)
    ensures |Positional(args)| == |args|
  {
    PositionalInOrder(args);
  }

  /** Shifting dense parameters by k drops the first k; beyond the end nothing changes and the status
      is 1. */
  lemma ShiftDrops(args: seq<string>, k: nat)
    ensures k <= |args| ==> Shifted(Positional(args), k) == Positional(args[k..]) && ShiftStatus(Positional(args), k) == 0
    ensures k > |args| ==> Shifted(Positional(args), k) == Positional(args) && ShiftStatus(Positional(args), k) == 1
  {
    PositionalSize(args);
    if k < |args| {
      var s, t := Shifted(Positional(args), k), Positional(args[k..]);
      assert s.Keys == t.Keys;
      assert s == t;
    } else if k == |args| {
      assert Positional(args[k..]) == map[];
    }
  }

  /** Shifts add up. */
  lemma ShiftsCompose(args: seq<string>, i: nat, j: nat)
    requires i + j <= |args|
    ensures Shifted(Shifted(Positional(args), i), j) == Shifted(Positional(args), i + j)
  {
    hide Shifted, Positional, ShiftStatus;
    ShiftDrops(args, i);
    ShiftDrops(args[i..], j);
    ShiftDrops(args, i + j);
    assert args[i..][j..] == args[i + j..];
  }

  /** What runs do to the parameters: entering and leaving a function, `set --`, `shift`, and any
      other operation on variables that leaves `*` alone. */
  datatype ParamOp = Enter(args: seq<string>) | Leave | SetArgs(args: seq<string>) | Shift(k: int) | Other(op: Op)

  /** interpreter::shift on the visible `*`; a negative number is refused before `*` is touched, else
      None when there is none to shift or it is readonly. */
  function ShiftStar(st: Store, k: int): Option<(int, Store)> {
    var h := Home(st, "*");
    if k < 0 then Some((1, st))
    else if h.None? then None
    else
      var scope := st.Scopes()[h.value];
      if scope["*"].readonly then None
      else Some((ShiftStatus(scope["*"].values, k),
                 st.WithScope(h.value, scope["*" := scope["*"].(values := Shifted(scope["*"].values, k))])))
  }

  /** define_positional_arguments: global outside functions, else in the innermost frame. */
  function SetPositional(st: Store, args: seq<string>): Store {
    var v := Var(Positional(args), false);
    if st.frames == [] then Define(st, "*", v) else DefineLocal(st, "*", v).value
  }

  function ApplyParam(st: Store, op: ParamOp): Store {
    match op
    case Enter(args) => SetPositional(PushScope(st), args)
    case Leave => if st.frames == [] then st else PopScope(st)
    case SetArgs(args) => SetPositional(st, args)
    case Shift(k) => (match ShiftStar(st, k) case Some((_, st')) => st' case None => st)
    case Other(o) => Apply(st, o)
  }

  function ApplyParams(st: Store, ops: seq<ParamOp>): Store
    decreases |ops|
  {
    if ops == [] then st else ApplyParams(ApplyParam(st, ops[0]), ops[1..])
  }

  /** `*` is written through calls, `set --` and `shift` only. */
  predicate LeavesStar(op: ParamOp) {
    op.Other? ==>
      match op.op
      case OpPush => true
      case OpPop => true
      case o => o.name != "*"
  }

  ghost predicate Dense(s: Scope) {
    "*" in s ==> exists args :: s["*"].values == Positional(args)
  }

  ghost predicate AllDense(st: Store) {
    forall i | 0 <= i <= |st.frames| :: Dense(st.Scopes()[i])
  }

  lemma DenseWrite(st: Store, h: nat, s: Scope)
    requires AllDense(st) && h <= |st.frames| && Dense(s)
    ensures AllDense(st.WithScope(h, s))
  {
    WithScopeScopes(st, h, s);
  }

  lemma DenseShift(st: Store, k: int)
    requires AllDense(st)
    ensures AllDense(ApplyParam(st, Shift(k)))
  {
    var h := Home(st, "*");
    if h.Some? && k >= 0 && !st.Scopes()[h.value]["*"].readonly {
      var scope := st.Scopes()[h.value];
      assert Dense(scope);
      var args :| scope["*"].values == Positional(args);
      ShiftDrops(args, k);
      var v := scope["*"].(values := Shifted(scope["*"].values, k));
      assert v.values == Positional(if k <= |args| then args[k..] else args);
      DenseWrite(st, h.value, scope["*" := v]);
    }
  }

  lemma DenseSet(st: Store, args: seq<string>)
    requires AllDense(st)
    ensures AllDense(SetPositional(st, args))
  {
    var n := |st.frames|;
    var top := if n == 0 then st.globals else st.frames[n - 1];
    var s := top["*" := Var(Positional(args), false)];
    assert Dense(s);
    DenseWrite(st, n, s);
  }

  lemma DenseOther(st: Store, op: Op)
    requires AllDense(st) && LeavesStar(Other(op))
    ensures AllDense(Apply(st, op))
  {
    match op
    case OpPush =>
      var p := Apply(st, op).Scopes();
      assert forall i | 0 <= i <= |st.frames| :: p[i] == st.Scopes()[i];
      assert p[|st.frames| + 1] == map[];
    case OpPop =>
      if st.frames != [] {
        var p := Apply(st, op).Scopes();
        assert forall i | 0 <= i < |st.frames| :: p[i] == st.Scopes()[i];
      }
    case OpDefine(n, v) =>
      assert Dense(st.Scopes()[0]);
      DenseWrite(st, 0, st.globals[n := v]);
    case OpLocal(n, v) =>
      if st.frames != [] {
        var t := |st.frames|;
        assert Dense(st.Scopes()[t]);
        DenseWrite(st, t, st.frames[t - 1][n := v]);
      }
    case _ =>
      if op.name == "" {
        DenseEmptyName(st, op);
      } else if Apply(st, op) != st {
        var h, s := ScopeWrite(st, op);
        assert SameBinding(s, st.Scopes()[h], "*") && Dense(st.Scopes()[h]);
        DenseWrite(st, h, s);
      }
  }

  lemma DenseEmptyName(st: Store, op: Op)
    requires AllDense(st) && (op.OpSet? || op.OpUnset? || op.OpUnsetAt?) && op.name == ""
    ensures AllDense(Apply(st, op))
  {
    if op.OpSet? {
      assert Dense(st.Scopes()[0]);
      DenseWrite(st, 0, st.globals["" := Var(map[op.index := op.value], false)]);
    } else if op.OpUnset? {
      UnsetEmptyOther(st, |st.frames| + 1, "*");
      var r := Apply(st, op);
      forall i | 0 <= i <= |r.frames|
        ensures Dense(r.Scopes()[i])
      {
        assert SameBinding(r.Scopes()[i], st.Scopes()[i], "*") && Dense(st.Scopes()[i]);
      }
    }
  }

  /** Through every run the positional parameters of every scope stay dense on 1 .. n. */
  lemma {:induction false} ParametersStayDense(st: Store, ops: seq<ParamOp>)
    requires AllDense(st)
    requires forall i | 0 <= i < |ops| :: LeavesStar(ops[i])
    ensures AllDense(ApplyParams(st, ops))
    decreases |ops|
  {
    if ops != [] {
      match ops[0] {
        case Enter(args) =>
          DenseOther(st, OpPush);
          DenseSet(PushScope(st), args);
        case Leave => DenseOther(st, OpPop);
        case SetArgs(args) => DenseSet(st, args);
        case Shift(k) => DenseShift(st, k);
        case Other(op) => DenseOther(st, op);
      }
      ParametersStayDense(ApplyParam(st, ops[0]), ops[1..]);
    }
  }

  // ---- Slices ----

  /** get_real_offset. */
  function RealOffset(offset: int, size: nat): Option<nat> {
    var o := if offset >= 0 then offset else size + offset;
    if 0 <= o < size then Some(o) else None
  }

  function FirstOf(s: string): string { if s == "" then "" else s[..1] }

  function Ifs(st: Store): string { ResolveString(st, "IFS", 0) }

  /** get_subarray: `${name[@]:offset:length}`. */
  function Subarray(st: Store, name: string, offset: int, length: nat): string {
    var star := name == "*" || name == "@";
    var o := if star && offset > 0 then offset - 1 else offset;
    var head := if star && offset == 0 then [ResolveString(st, "0", 0)] else [];
    match Resolve(st, name)
    case None => ""
    case Some(v) =>
      var elems := head + AllValues(v.values);
      match RealOffset(o, |elems|)
      case None => ""
      case Some(start) =>
        var take := if length > |elems| - start then |elems| - start else length;
        Join(elems[start..start + take], FirstOf(Ifs(st)))
  }

  /** The sequence slice from `from`, at most `length` long; empty when it starts past the end. */
  function Clamp<T>(s: seq<T>, from: nat, length: nat): seq<T> {
    if from >= |s| then [] else if length > |s| - from then s[from..] else s[from..from + length]
  }

  lemma ClampIsSlice<T>(s: seq<T>, from: nat, n: nat)
    requires from < |s|
    ensures var take := if n > |s| - from then |s| - from else n;
            s[from..from + take] == Clamp(s, from, n)
  {
  }

  lemma ClampTail<T>(x: T, s: seq<T>, from: nat, n: nat)
    requires from > 0
    ensures Clamp([x] + s, from, n) == Clamp(s, from - 1, n)
  {
  }

  /** `${*:k:n}` is the slice of $0 and the arguments from k, at most n long, although the code
      decrements the offset. */
  lemma StarSlice(st: Store, args: seq<string>, k: nat, n: nat)
    requires Resolve(st, "*").Some? && Resolve(st, "*").value.values == Positional(args)
    ensures Subarray(st, "*", k, n) == Join(Clamp([ResolveString(st, "0", 0)] + args, k, n), FirstOf(Ifs(st)))
  {
    hide AllValues, Positional, Clamp, Join, FirstOf, Resolve;
    PositionalInOrder(args);
    var zero := ResolveString(st, "0", 0);
    if k > 0 {
      assert [] + args == args;
      ClampTail(zero, args, k, n);
      if k <= |args| { ClampIsSlice(args, k - 1, n); } else { EmptyClamp(args, k - 1, n, FirstOf(Ifs(st))); }
    } else {
      ClampIsSlice([zero] + args, 0, n);
    }
  }

  lemma EmptyClamp(s: seq<string>, from: nat, n: nat, sep: string)
    requires from >= |s|
    ensures Join(Clamp(s, from, n), sep) == ""
  {
  }

  /** Without positional parameters the slice is empty, so `${*:k:n}` is then as promised if and only
      if it does not begin with a non-empty $0. */
  lemma StarSliceUnsetIff(st: Store, k: nat, n: nat)
    requires Resolve(st, "*").None?
    ensures Subarray(st, "*", k, n) == Join(Clamp([ResolveString(st, "0", 0)], k, n), FirstOf(Ifs(st)))
            <==> k > 0 || n == 0 || ResolveString(st, "0", 0) == ""
  {
    var all := [ResolveString(st, "0", 0)];
    if k == 0 && n > 0 { assert all[0..] == all && all[0..1] == all; }
    if k == 0 && n == 0 { assert all[0..0] == []; }
  }

  /** A negative offset counts from the end of the arguments. */
  lemma StarSliceFromEnd(st: Store, args: seq<string>, k: int, n: nat)
    requires Resolve(st, "*").Some? && Resolve(st, "*").value.values == Positional(args)
    requires k < 0
    ensures Subarray(st, "*", k, n) ==
            if |args| + k < 0 then "" else Join(Clamp(args, |args| + k, n), FirstOf(Ifs(st)))
  {
    hide AllValues, Positional, Clamp, Join, FirstOf, Resolve;
    PositionalInOrder(args);
    assert [] + args == args;
    if |args| + k >= 0 { ClampIsSlice(args, |args| + k, n); }
  }

  /** `${name[@]:k:n}` of any other array is the slice of its values in key order from k, at most n long; a
      negative k counts from the end, and nothing comes from outside or from an unbound name. */
  lemma NamedSlice(st: Store, name: string, k: int, n: nat)
    requires name != "*" && name != "@"
    ensures Resolve(st, name).None? ==> Subarray(st, name, k, n) == ""
    ensures Resolve(st, name).Some? ==>
      var values := AllValues(Resolve(st, name).value.values);
      var from := if k < 0 then |values| + k else k;
      Subarray(st, name, k, n) == if from < 0 then "" else Join(Clamp(values, from, n), FirstOf(Ifs(st)))
  {
    hide AllValues, Clamp, Join, FirstOf, Resolve;
    if Resolve(st, name).Some? {
      var values := AllValues(Resolve(st, name).value.values);
      var from := if k < 0 then |values| + k else k;
      assert [] + values == values;
      if 0 <= from < |values| {
        ClampIsSlice(values, from, n);
      } else if from >= 0 {
        EmptyClamp(values, from, n, FirstOf(Ifs(st)));
      }
    }
  }

  // ---- Append ----

  /** Where `name+=(…)` puts its first element. */
  function AppendIndex(m: Values): nat {
    var index := (if m == map[] then 0 else MaxKey(m.Keys)) + 1;
    if index == 1 && (0 !in m || m[0].AsString() == "") then 0 else index
  }

  function AppendFrom(m: Values, index: nat, items: seq<string>): Values
    decreases |items|
  {
    if items == [] then m else AppendFrom(m[index := Str(items[0])], index + 1, items[1..])
  }

  lemma {:induction false} AppendFromOrder(m: Values, index: nat, items: seq<string>)
    requires forall j | j in m :: j < index
    ensures AllValues(AppendFrom(m, index, items)) == AllValues(m) + items
    decreases |items|
  {
    hide AllValues;
    if items == [] {
      assert AllValues(m) + items == AllValues(m);
    } else {
      AllValuesAppend(m, index, Str(items[0]));
      AppendFromOrder(m[index := Str(items[0])], index + 1, items[1..]);
      assert AllValues(m) + [items[0]] + items[1..] == AllValues(m) + items;
    }
  }

  /** `+=(…)` without explicit indices appends, unless the array is one null element at index 0 and
      there is something to append: that element is then replaced. */
  lemma AppendIff(m: Values, items: seq<string>)
    ensures AllValues(AppendFrom(m, AppendIndex(m), items)) == AllValues(m) + items
            <==> !(m.Keys == {0} && m[0].AsString() == "" && items != [])
  {
    hide AppendFrom, AllValues;
    if items == [] {
      AppendFromOrder(m, if m == map[] then 0 else MaxKey(m.Keys) + 1, items);
      AppendNothing(m, AppendIndex(m));
      AppendNothing(m, if m == map[] then 0 else MaxKey(m.Keys) + 1);
    } else if m == map[] {
      AppendFromOrder(m, 0, items);
    } else if MaxKey(m.Keys) > 0 {
      AppendFromOrder(m, MaxKey(m.Keys) + 1, items);
    } else {
      AppendToOne(m, items);
    }
  }

  lemma AppendNothing(m: Values, index: nat)
    ensures AppendFrom(m, index, []) == m
  {
  }

  lemma ReplaceOne(m: Values, items: seq<string>)
    requires m.Keys == {0} && items != []
    ensures AppendFrom(m, 0, items) == AppendFrom(map[], 0, items)
    ensures AllValues(map[]) == [] && |AllValues(m)| == 1
  {
    assert m[0 := Str(items[0])] == map[][0 := Str(items[0])];
    assert |m| == |m.Keys| == 1;
  }

  lemma AppendToOne(m: Values, items: seq<string>)
    requires m != map[] && MaxKey(m.Keys) == 0 && items != []
    ensures m.Keys == {0}
    ensures AllValues(AppendFrom(m, AppendIndex(m), items)) == AllValues(m) + items <==> m[0].AsString() != ""
  {
    hide AppendFrom, AllValues;
    assert m.Keys == {0};
    if m[0].AsString() == "" {
      ReplaceOne(m, items);
      AppendFromOrder(map[], 0, items);
      assert [] + items == items;
    } else {
      AppendFromOrder(m, 1, items);
    }
  }
}
