/** The `inherit` builtin as the source writes it: a loop over the eclasses, editing the symbol tables. */
module InheritBuiltin {
  import opened Text
  import opened VariableStore
  import opened ArithmeticWalker
  import opened Inherit

  /** Runs that complete: the bound n suffices and nothing throws. */
  class Builtin {
    const walker: SymbolTable
    const bk: Names

    constructor (w: SymbolTable)
      ensures walker == w && bk == EBUILD
    {
      walker, bk := w, EBUILD;
    }

    method SetValue(name: string, v: Value)
      requires Put(walker.st, name, v).Some?
      modifies walker
      ensures Put(old(walker.st), name, v) == Some(walker.st)
    {
      walker.st := Put(walker.st, name, v).value;
    }

    method Unset(name: string)
      requires VariableStore.Unset(walker.st, name).Some?
      modifies walker
      ensures VariableStore.Unset(old(walker.st), name) == Some(walker.st)
    {
      walker.st := VariableStore.Unset(walker.st, name).value;
    }

    /** exec. */
    method Exec(lib: Library, eclasses: seq<string>, ghost n: nat) returns (ghost log: seq<Done>)
      requires Inherit.Exec(bk, lib, eclasses, walker.st, n).Some?
      modifies walker
      ensures Inherit.Exec(bk, lib, eclasses, old(walker.st), n) == Some(After(walker.st, log))
      decreases n, 4
    {
      hide Put, VariableStore.Unset, LongOf, TextOf, One;
      SetValue(bk.depth, Num(LongOf(walker.st, bk.depth) + 1));
      var caller := TextOf(walker.st, bk.eclass);
      ghost var start := walker.st;
      log := [];
      var i := 0;
      ghost var whole := Each(bk, lib, eclasses, start, n).value.log;
      assert eclasses[0..] == eclasses && [] + whole == whole;
      while i < |eclasses|
        invariant 0 <= i <= |eclasses|
        invariant Each(bk, lib, eclasses[i..], walker.st, n).Some?
        invariant Each(bk, lib, eclasses, start, n) ==
                  (var r := Each(bk, lib, eclasses[i..], walker.st, n).value; Some(After(r.st, log + r.log)))
      {
        assert eclasses[i..][0] == eclasses[i] && eclasses[i..][1..] == eclasses[i + 1..];
        ghost var more := One(bk, lib, eclasses[i], walker.st, n).value.log;
        ghost var rest := Each(bk, lib, eclasses[i + 1..], One(bk, lib, eclasses[i], walker.st, n).value.st, n).value.log;
        assert log + (more + rest) == log + more + rest;
        log := log + more;
        OneEclass(lib, eclasses[i], n);
        i := i + 1;
      }
      assert eclasses[i..] == [] && log + [] == log;
      SetValue(bk.depth, Num(LongOf(walker.st, bk.depth) - 1));
      if LongOf(walker.st, bk.depth) > 0 {
        SetValue(bk.eclass, Str(caller));
      } else {
        Unset(bk.eclass);
        Unset(bk.funcs);
      }
    }

    /** The body of the loop. */
    method OneEclass(lib: Library, eclass: string, ghost n: nat)
      requires One(bk, lib, eclass, walker.st, n).Some?
      modifies walker
      ensures One(bk, lib, eclass, old(walker.st), n).value.st == walker.st
      decreases n, 2
    {
      hide Put, VariableStore.Unset, TextOf, RunSteps, Backup, Restore, Append, Contains;
      SetValue(bk.eclass, Str(eclass));
      walker.st := Define(walker.st, bk.funcs, Var(map[0 := Str(FuncsName(TextOf(walker.st, bk.depth)))], false));
      Unset(TextOf(walker.st, bk.funcs));
      var saved := BackupGlobals(bk.metas);
      SourceFile(lib, eclass, n);
      AppendGlobals(bk.metas);
      RestoreGlobals(bk.metas, saved);
      Unset(TextOf(walker.st, bk.funcs));
      if !Hasq(eclass, TextOf(walker.st, bk.inherited)) {
        SetValue(bk.inherited, Str(TextOf(walker.st, bk.inherited) + " " + eclass));
      }
    }

    static predicate Hasq(value: string, target: string) { Contains(target, value) }

    method BackupGlobals(ms: seq<string>) returns (saved: seq<string>)
      requires Backup(walker.st, ms).Some?
      modifies walker
      ensures Backup(old(walker.st), ms) == Some((walker.st, saved))
    {
      hide VariableStore.Unset, TextOf;
      saved := [];
      var i := 0;
      assert ms[0..] == ms && [] + Backup(walker.st, ms).value.1 == Backup(walker.st, ms).value.1;
      while i < |ms|
        invariant 0 <= i <= |ms|
        invariant Backup(walker.st, ms[i..]).Some?
        invariant Backup(old(walker.st), ms) ==
                  (var r := Backup(walker.st, ms[i..]).value; Some((r.0, saved + r.1)))
      {
        assert ms[i..][0] == ms[i] && ms[i..][1..] == ms[i + 1..];
        ghost var rest := Backup(VariableStore.Unset(walker.st, ms[i]).value, ms[i + 1..]).value.1;
        assert saved + ([TextOf(walker.st, ms[i])] + rest) == saved + [TextOf(walker.st, ms[i])] + rest;
        saved := saved + [TextOf(walker.st, ms[i])];
        Unset(ms[i]);
        i := i + 1;
      }
      assert ms[i..] == [] && saved + [] == saved;
    }

    method AppendGlobals(ms: seq<string>)
      requires Append(walker.st, ms).Some?
      modifies walker
      ensures Append(old(walker.st), ms) == Some(walker.st)
    {
      hide Put, TextOf;
      var i := 0;
      assert ms[0..] == ms;
      while i < |ms|
        invariant 0 <= i <= |ms| && Append(walker.st, ms[i..]).Some?
        invariant Append(walker.st, ms[i..]) == Append(old(walker.st), ms)
      {
        assert ms[i..][0] == ms[i] && ms[i..][1..] == ms[i + 1..];
        if TextOf(walker.st, ms[i]) != "" {
          SetValue(Collected(ms[i]), Str(TextOf(walker.st, Collected(ms[i])) + " " + TextOf(walker.st, ms[i])));
        }
        i := i + 1;
      }
      assert ms[i..] == [];
    }

    method RestoreGlobals(ms: seq<string>, saved: seq<string>)
      requires |ms| == |saved| && Restore(walker.st, ms, saved).Some?
      modifies walker
      ensures Restore(old(walker.st), ms, saved) == Some(walker.st)
    {
      hide Put, VariableStore.Unset;
      var i := 0;
      assert ms[0..] == ms && saved[0..] == saved;
      while i < |ms|
        invariant 0 <= i <= |ms| && Restore(walker.st, ms[i..], saved[i..]).Some?
        invariant Restore(walker.st, ms[i..], saved[i..]) == Restore(old(walker.st), ms, saved)
      {
        assert ms[i..][0] == ms[i] && ms[i..][1..] == ms[i + 1..];
        assert saved[i..][0] == saved[i] && saved[i..][1..] == saved[i + 1..];
        if saved[i] != "" {
          SetValue(ms[i], Str(saved[i]));
        } else {
          Unset(ms[i]);
        }
        i := i + 1;
      }
      assert ms[i..] == [];
    }

    /** The source builtin: the file's commands, of which some inherit in their turn. */
    method SourceFile(lib: Library, eclass: string, ghost n: nat)
      requires Source(bk, lib, eclass, walker.st, n).Some?
      modifies walker
      ensures Source(bk, lib, eclass, old(walker.st), n).value.st == walker.st
      decreases n, 1
    {
      hide RunStep;
      var steps := lib(eclass).value;
      var i := 0;
      assert steps[0..] == steps;
      while i < |steps|
        invariant 0 <= i <= |steps| && RunSteps(bk, lib, steps[i..], walker.st, n - 1).Some?
        invariant RunSteps(bk, lib, steps[i..], walker.st, n - 1).value.st == RunSteps(bk, lib, steps, old(walker.st), n - 1).value.st
      {
        assert steps[i..][0] == steps[i] && steps[i..][1..] == steps[i + 1..];
        OneStep(lib, steps[i], n - 1);
        i := i + 1;
      }
      assert steps[i..] == [];
    }

    method OneStep(lib: Library, s: Step, ghost n: nat)
      requires RunStep(bk, lib, s, walker.st, n).Some?
      modifies walker
      ensures RunStep(bk, lib, s, old(walker.st), n).value.st == walker.st
      decreases n, 5
    {
      hide Put, VariableStore.Unset, Inherit.Exec;
      match s
      case Write(name, value) => SetValue(name, Str(value(walker.st)));
      case Erase(name) => Unset(name);
      case Inherits(eclasses) => ghost var log := Exec(lib, eclasses(walker.st), n);
    }
  }
}
