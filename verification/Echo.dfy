/** The options and the output of `echo`. */
module Echo {
  import opened Text

  /** A dash and letters among n, e and E; the empty text passes for an option as well. */
  predicate IsOption(s: string) {
    s == "" || (|s| >= 2 && s[0] == '-' && forall i | 1 <= i < |s| :: s[i] in {'n', 'e', 'E'})
  }

  /** The last e or E switches escapes on or off. */
  function Switched(s: string, was: bool): bool {
    if s == "" then was
    else if s[|s| - 1] == 'e' then true
    else if s[|s| - 1] == 'E' then false
    else Switched(s[..|s| - 1], was)
  }

  /** What is written; None stands for text with escapes, which are not part of this model. */
  function Output(args: seq<string>): Option<string> { if args == [] then Some("\n") else Behind(args, false, false) }

  function Behind(args: seq<string>, bare: bool, escapes: bool): Option<string> {
    if args == [] then Some("")
    else if IsOption(args[0]) then Behind(args[1..], bare || 'n' in args[0], Switched(args[0], escapes))
    else if escapes then None
    else Some(Join(args, " ") + if bare then "" else "\n")
  }

  /** The loop over the arguments up to the first that is no option. */
  method Collect(args: seq<string>) returns (text: Option<string>)
    ensures text == Output(args)
  {
    if args == [] { return Some("\n"); }
    var bare, escapes := false, false;
    var i := 0;
    assert args[0..] == args;
    while i < |args|
      invariant 0 <= i <= |args|
      invariant Behind(args[i..], bare, escapes) == Output(args)
    {
      if !IsOption(args[i]) {
        if escapes { return None; }
        return Some(Join(args[i..], " ") + if bare then "" else "\n");
      }
      assert args[i..][1..] == args[i + 1..];
      bare := bare || 'n' in args[i];
      escapes := Switched(args[i], escapes);
      i := i + 1;
    }
    text := Some("");
  }

  // ---- What it writes ----

  function All(words: seq<string>): string { if words == [] then "" else words[0] + All(words[1..]) }

  lemma {:induction false} SwitchedTwice(a: string, b: string, was: bool)
    ensures Switched(a + b, was) == Switched(b, Switched(a, was))
    decreases |b|
  {
    if b == "" {
      assert a + b == a;
    } else {
      assert (a + b)[..|a + b| - 1] == a + b[..|b| - 1];
      SwitchedTwice(a, b[..|b| - 1], was);
    }
  }

  lemma {:induction false} OptionsFirst(options: seq<string>, words: seq<string>, bare: bool, escapes: bool)
    requires forall o | o in options :: IsOption(o)
    ensures Behind(options + words, bare, escapes) == Behind(words, bare || 'n' in All(options), Switched(All(options), escapes))
    decreases |options|
  {
    hide IsOption, Switched;
    if options == [] {
      assert options + words == words;
      assert Switched("", escapes) == escapes by { NoSwitch(escapes); }
    } else {
      var o, rest := options[0], options[1..];
      assert (options + words)[0] == o && (options + words)[1..] == rest + words;
      OptionsFirst(rest, words, bare || 'n' in o, Switched(o, escapes));
      SwitchedTwice(o, All(rest), escapes);
    }
  }

  lemma NoSwitch(was: bool)
    ensures Switched("", was) == was
  {
  }

  /** The words behind the options, one blank between two, and a newline unless an option has an n; nothing
      at all, not even the newline, when there are options and no words. */
  lemma WritesWords(options: seq<string>, words: seq<string>)
    requires (forall o | o in options :: IsOption(o)) && (words != [] ==> !IsOption(words[0]))
    requires !Switched(All(options), false)
    ensures words != [] ==> Output(options + words) == Some(Join(words, " ") + if 'n' in All(options) then "" else "\n")
    ensures words == [] && options != [] ==> Output(options) == Some("")
    ensures Output([]) == Some("\n")
  {
    hide IsOption, Switched;
    OptionsFirst(options, words, false, false);
    assert words == [] ==> options + words == options;
  }

  /** Escapes are on if and only if the last e or E of the options is an e. */
  lemma {:induction false} LastLetterDecides(s: string, was: bool)
    ensures Switched(s, was) <==>
            (exists i | 0 <= i < |s| :: s[i] == 'e' && forall j | i < j < |s| :: s[j] != 'E') ||
            (was && forall i | 0 <= i < |s| :: s[i] != 'e' && s[i] != 'E')
  {
    if s != "" {
      var front, c := s[..|s| - 1], s[|s| - 1];
      LastLetterDecides(front, was);
      if c == 'e' {
        assert s[|s| - 1] == 'e';
      } else if c != 'E' && exists i | 0 <= i < |front| :: front[i] == 'e' && forall j | i < j < |front| :: front[j] != 'E' {
        var i :| 0 <= i < |front| && front[i] == 'e' && forall j | i < j < |front| :: front[j] != 'E';
        assert s[i] == 'e' && forall j | i < j < |s| :: s[j] != 'E';
      }
      assert forall i | 0 <= i < |front| :: s[i] == front[i];
    }
  }
}
