/** The flattened AST: a linear token stream with Down/Up markers, and the two
    hand-made moves that step over a whole subtree by counting depth. */
module TokenStream {
  import opened Text

  /** Token types are numbers, as in the generated recognizers. */
  type Kind = nat

  const LIST: Kind := 4
  const COMMAND: Kind := 5
  const STRING: Kind := 6
  const WORD_PART: Kind := 7
  const NAME: Kind := 8
  const NUMBER: Kind := 9
  const LOGICAND: Kind := 10
  const LOGICOR: Kind := 11
  const REDIR: Kind := 12
  const LESS_THAN: Kind := 13
  const GREATER_THAN: Kind := 14
  const VARIABLE_DEFINITIONS: Kind := 15
  const LOCAL: Kind := 16
  const EQUALS: Kind := 17
  const BANG: Kind := 18
  const FUNCTION: Kind := 19
  const CURRENT_SHELL: Kind := 20
  const COMPOUND_COND: Kind := 21
  const KEYWORD_TEST: Kind := 22
  const BUILTIN_TEST: Kind := 23
  const NEGATION: Kind := 24
  const BUILTIN_LOGIC_AND: Kind := 25
  const BUILTIN_LOGIC_OR: Kind := 26
  const LETTER: Kind := 27
  const NOT_EQUALS: Kind := 29
  const ESC_LT: Kind := 30
  const ESC_GT: Kind := 31
  const FOR: Kind := 32
  const CFOR: Kind := 33
  const FOR_INIT: Kind := 34
  const FOR_COND: Kind := 35
  const FOR_MOD: Kind := 36
  const WHILE: Kind := 37
  const UNTIL: Kind := 38
  const IF_STATEMENT: Kind := 39
  const IF: Kind := 40
  const ELSE: Kind := 41
  const CASE: Kind := 42
  const CASE_PATTERN: Kind := 43
  const CASE_COMMAND: Kind := 44
  const BRANCH: Kind := 45
  const MATCH_ALL: Kind := 46
  const MATCH_ONE: Kind := 47
  const SINGLE_QUOTED_STRING: Kind := 48
  const VAR_REF: Kind := 49
  const COMMAND_SUB: Kind := 50
  const ARITHMETIC_EXPRESSION: Kind := 51
  const ARITHMETIC: Kind := 52
  const ARITHMETIC_CONDITION: Kind := 53
  const PIPE: Kind := 54
  const CARET: Kind := 55
  const AMP: Kind := 56
  const LEQ: Kind := 57
  const GEQ: Kind := 58
  const EQUALS_TO: Kind := 59
  const LSHIFT: Kind := 60
  const RSHIFT: Kind := 61
  const PLUS: Kind := 62
  const MINUS: Kind := 63
  const TIMES: Kind := 64
  const SLASH: Kind := 65
  const PCT: Kind := 66
  const EXP: Kind := 67
  const PLUS_SIGN: Kind := 68
  const MINUS_SIGN: Kind := 69
  const TILDE: Kind := 70
  const PRE_INCR: Kind := 71
  const PRE_DECR: Kind := 72
  const POST_INCR: Kind := 73
  const POST_DECR: Kind := 74
  const MUL_ASSIGN: Kind := 75
  const DIVIDE_ASSIGN: Kind := 76
  const MOD_ASSIGN: Kind := 77
  const PLUS_ASSIGN: Kind := 78
  const MINUS_ASSIGN: Kind := 79
  const LSHIFT_ASSIGN: Kind := 80
  const RSHIFT_ASSIGN: Kind := 81
  const AND_ASSIGN: Kind := 82
  const XOR_ASSIGN: Kind := 83
  const OR_ASSIGN: Kind := 84

  /** Eof is what the stream answers beyond its end. */
  datatype Token = Tok(kind: Kind, text: string) | Down | Up | Eof

  datatype Tree = Node(kind: Kind, text: string, children: seq<Tree>)

  /** The node stream of a tree: Down and Up only around children. */
  function Flatten(t: Tree): (s: seq<Token>)
    ensures |s| > 0
    decreases t
  {
    [Tok(t.kind, t.text)] + if t.children == [] then [] else [Down] + FlattenAll(t.children) + [Up]
  }

  function FlattenAll(ts: seq<Tree>): seq<Token>
    decreases ts
  {
    if ts == [] then [] else Flatten(ts[0]) + FlattenAll(ts[1..])
  }

  function Size(t: Tree): (n: nat)
    ensures n > 0
    decreases t
  {
    if t.children == [] then 1 else 3 + SizeAll(t.children)
  }

  function SizeAll(ts: seq<Tree>): nat
    decreases ts
  {
    if ts == [] then 0 else Size(ts[0]) + SizeAll(ts[1..])
  }

  /** Tree `t` occupies positions c .. c + Size(t) of stream s. */
  ghost predicate Holds(s: seq<Token>, c: nat, t: Tree)
    decreases t
  {
    && c + Size(t) <= |s|
    && s[c] == Tok(t.kind, t.text)
    && (t.children != [] ==>
          && s[c + 1] == Down
          && HoldsAll(s, c + 2, t.children)
          && s[c + Size(t) - 1] == Up)
  }

  ghost predicate HoldsAll(s: seq<Token>, c: nat, ts: seq<Tree>)
    decreases ts
  {
    if ts == [] then c <= |s|
    else Holds(s, c, ts[0]) && HoldsAll(s, c + Size(ts[0]), ts[1..])
  }

  lemma {:induction false} FlattenSize(t: Tree)
    ensures |Flatten(t)| == Size(t)
    decreases t
  {
    FlattenAllSize(t.children);
  }

  lemma {:induction false} FlattenAllSize(ts: seq<Tree>)
    ensures |FlattenAll(ts)| == SizeAll(ts)
    decreases ts
  {
    if ts != [] {
      FlattenSize(ts[0]);
      FlattenAllSize(ts[1..]);
    }
  }

  /** Occupying positions of a stream is being a slice of it. */
  lemma {:induction false} HoldsIsSlice(s: seq<Token>, c: nat, t: Tree)
    ensures Holds(s, c, t) <==> c + Size(t) <= |s| && s[c..c + Size(t)] == Flatten(t)
    decreases t
  {
    if c + Size(t) <= |s| {
      FlattenSize(t);
      var w, f := s[c..c + Size(t)], Flatten(t);
      if t.children == [] {
        assert w == [s[c]];
      } else {
        var n := SizeAll(t.children);
        FlattenAllSize(t.children);
        HoldsAllIsSlice(s, c + 2, t.children);
        assert f == [f[0], Down] + FlattenAll(t.children) + [Up];
        assert w == [s[c], s[c + 1]] + s[c + 2..c + 2 + n] + [s[c + 2 + n]];
        assert w[2..2 + n] == s[c + 2..c + 2 + n] && f[2..2 + n] == FlattenAll(t.children);
        assert w[0] == s[c] && w[1] == s[c + 1] && w[2 + n] == s[c + 2 + n] && f[2 + n] == Up && f[1] == Down;
      }
    }
  }

  lemma {:induction false} HoldsAllIsSlice(s: seq<Token>, c: nat, ts: seq<Tree>)
    ensures HoldsAll(s, c, ts) <==> c + SizeAll(ts) <= |s| && s[c..c + SizeAll(ts)] == FlattenAll(ts)
    decreases ts
  {
    if ts == [] {
      if c <= |s| { assert s[c..c] == []; }
    } else {
      HoldsIsSlice(s, c, ts[0]);
      HoldsAllIsSlice(s, c + Size(ts[0]), ts[1..]);
      FlattenSize(ts[0]);
      FlattenAllSize(ts[1..]);
      SliceSplit(s, c, c + Size(ts[0]), c + SizeAll(ts), Flatten(ts[0]), FlattenAll(ts[1..]));
    }
  }

  lemma SliceSplit<T>(s: seq<T>, i: nat, j: nat, k: nat, a: seq<T>, b: seq<T>)
    requires i <= j <= k && |a| == j - i && |b| == k - j
    ensures k <= |s| ==> (s[i..k] == a + b <==> s[i..j] == a && s[j..k] == b)
  {
    if k <= |s| {
      assert s[i..k] == s[i..j] + s[j..k];
      assert s[i..k][..j - i] == s[i..j] && s[i..k][j - i..] == s[j..k];
      assert (a + b)[..j - i] == a && (a + b)[j - i..] == b;
    }
  }

  /** Siblings split where the sequence of trees splits. */
  lemma {:induction false} HoldsAllSplit(s: seq<Token>, c: nat, a: seq<Tree>, b: seq<Tree>)
    ensures SizeAll(a + b) == SizeAll(a) + SizeAll(b)
    ensures HoldsAll(s, c, a + b) <==> HoldsAll(s, c, a) && HoldsAll(s, c + SizeAll(a), b)
    decreases a
  {
    if a == [] {
      assert a + b == b;
      if HoldsAll(s, c, b) { HoldsAllBound(s, c, b); }
    } else {
      assert (a + b)[1..] == a[1..] + b;
      HoldsAllSplit(s, c + Size(a[0]), a[1..], b);
    }
  }

  lemma NodeTokens(s: seq<Token>, c: nat, t: Tree)
    requires Holds(s, c, t)
    ensures c + Size(t) <= |s| && s[c] == Tok(t.kind, t.text)
    ensures t.children == [] ==> Size(t) == 1
    ensures t.children != [] ==>
      && Size(t) == 3 + SizeAll(t.children)
      && s[c + 1] == Down && HoldsAll(s, c + 2, t.children) && s[c + 2 + SizeAll(t.children)] == Up
  {
  }

  lemma OneTree(s: seq<Token>, c: nat, t: Tree)
    ensures SizeAll([t]) == Size(t)
    ensures HoldsAll(s, c, [t]) <==> Holds(s, c, t)
  {
    assert [t][1..] == [];
  }

  lemma FirstTree(s: seq<Token>, c: nat, t: Tree, rest: seq<Tree>)
    ensures SizeAll([t] + rest) == Size(t) + SizeAll(rest)
    ensures HoldsAll(s, c, [t] + rest) <==> Holds(s, c, t) && HoldsAll(s, c + Size(t), rest)
  {
    assert ([t] + rest)[1..] == rest;
  }

  lemma {:induction false} HoldsAllBound(s: seq<Token>, c: nat, ts: seq<Tree>)
    requires HoldsAll(s, c, ts)
    ensures c + SizeAll(ts) <= |s|
    decreases ts
  {
    if ts != [] { HoldsAllBound(s, c + Size(ts[0]), ts[1..]); }
  }

  /** A flattened tree can be read back in only one way, whatever follows it. */
  lemma {:induction false} FlattenUnique(t: Tree, u: Tree, x: seq<Token>, y: seq<Token>)
    requires Flatten(t) + x == Flatten(u) + y
    requires (t.children == [] ==> x == [] || x[0] != Down) && (u.children == [] ==> y == [] || y[0] != Down)
    ensures t == u && x == y
    decreases t
  {
    var a, b := Flatten(t) + x, Flatten(u) + y;
    assert a[0] == Tok(t.kind, t.text) && b[0] == Tok(u.kind, u.text);
    if t.children == [] { assert a[1..] == x; } else { assert a[1] == Down; }
    if u.children == [] { assert b[1..] == y; } else { assert b[1] == Down; }
    if t.children != [] {
      assert a[2..] == FlattenAll(t.children) + ([Up] + x);
      assert b[2..] == FlattenAll(u.children) + ([Up] + y);
      FlattenAllUnique(t.children, u.children, [Up] + x, [Up] + y);
      assert x == ([Up] + x)[1..] && y == ([Up] + y)[1..];
    }
  }

  lemma {:induction false} FlattenAllUnique(ts: seq<Tree>, us: seq<Tree>, x: seq<Token>, y: seq<Token>)
    requires FlattenAll(ts) + x == FlattenAll(us) + y
    requires x != [] && x[0] == Up && y != [] && y[0] == Up
    ensures ts == us && x == y
    decreases ts
  {
    FlattenHead(ts, x);
    FlattenHead(us, y);
    var a, b := FlattenAll(ts) + x, FlattenAll(us) + y;
    if ts == [] || us == [] {
      assert a == x || b == y;
      assert ts == [] && us == [];
    } else {
      var p, q := FlattenAll(ts[1..]) + x, FlattenAll(us[1..]) + y;
      assert a == Flatten(ts[0]) + p && b == Flatten(us[0]) + q;
      FlattenHead(ts[1..], x);
      FlattenHead(us[1..], y);
      FlattenUnique(ts[0], us[0], p, q);
      FlattenAllUnique(ts[1..], us[1..], x, y);
    }
  }

  lemma FlattenHead(ts: seq<Tree>, x: seq<Token>)
    requires x != [] && x[0] == Up
    ensures (FlattenAll(ts) + x)[0] != Down
    ensures (FlattenAll(ts) + x)[0] == Up <==> ts == []
  {
    if ts != [] {
      assert (FlattenAll(ts) + x)[0] == Flatten(ts[0])[0] == Tok(ts[0].kind, ts[0].text);
    } else {
      assert FlattenAll(ts) + x == x;
    }
  }

  /** Where a depth-counting scan from position p at the given depth stops. */
  function Scan(s: seq<Token>, p: nat, depth: nat): Option<nat>
    decreases |s| - p
  {
    if depth == 0 then Some(p)
    else if p >= |s| then None
    else Scan(s, p + 1, if s[p] == Down then depth + 1 else if s[p] == Up then depth - 1 else depth)
  }

  lemma {:induction false} ScanTree(s: seq<Token>, c: nat, t: Tree, depth: nat)
    requires Holds(s, c, t) && depth > 0
    ensures Scan(s, c, depth) == Scan(s, c + Size(t), depth)
    decreases t
  {
    if t.children != [] {
      ScanTrees(s, c + 2, t.children, depth + 1);
      HoldsAllBound(s, c + 2, t.children);
    }
  }

  lemma {:induction false} ScanTrees(s: seq<Token>, c: nat, ts: seq<Tree>, depth: nat)
    requires HoldsAll(s, c, ts) && depth > 0
    ensures Scan(s, c, depth) == Scan(s, c + SizeAll(ts), depth)
    decreases ts
  {
    if ts != [] {
      ScanTree(s, c, ts[0], depth);
      ScanTrees(s, c + Size(ts[0]), ts[1..], depth);
    }
  }

  /** `seek_to_next_tree` counts from LA(4) at depth 1. At a tree with children it stops exactly one
      past the closing Up, wherever in a stream the tree stands. */
  lemma {:induction false} SkipTree(s: seq<Token>, c: nat, t: Tree)
    requires Holds(s, c, t) && t.children != []
    ensures Scan(s, c + 3, 1) == Some(c + Size(t))
  {
    assert Holds(s, c + 2, t.children[0]);
    ScanTrees(s, c + 2, t.children, 1);
    assert s[c + 2] == Tok(t.children[0].kind, t.children[0].text);
    assert Scan(s, c + 2, 1) == Scan(s, c + 3, 1);
    HoldsAllBound(s, c + 2, t.children);
    var e := c + Size(t);
    assert Scan(s, e - 1, 1) == Scan(s, e, 0);
  }

  /** At a leaf followed by a tree (CASE_COMMAND, then LIST) it stops one past both. */
  lemma {:induction false} SkipLeafThenTree(s: seq<Token>, c: nat, leaf: Tree, t: Tree)
    requires leaf.children == [] && t.children != []
    requires HoldsAll(s, c, [leaf, t])
    ensures Scan(s, c + 3, 1) == Some(c + SizeAll([leaf, t]))
  {
    assert [leaf, t][1..] == [t] && [t][1..] == [];
    assert Holds(s, c + 1, t);
    assert HoldsAll(s, c + 3, t.children);
    ScanTrees(s, c + 3, t.children, 1);
    HoldsAllBound(s, c + 3, t.children);
    var e := c + 1 + Size(t);
    assert Scan(s, e - 1, 1) == Scan(s, e, 0);
    assert SizeAll([t]) == Size(t) + SizeAll([t][1..]);
  }

  /** What `skip_next_token_or_tree` lands on: one token, or one tree. */
  function SkipOperand(s: seq<Token>, c: nat): Option<nat> {
    if c + 1 < |s| && s[c + 1] == Down then Scan(s, c + 3, 1) else Some(c + 1)
  }

  /** It steps over exactly the operand's siblings if and only if there is exactly one of them. */
  lemma {:induction false} SkipOperandExactIff(s: seq<Token>, c: nat, ts: seq<Tree>)
    requires HoldsAll(s, c, ts) && ts != []
    requires c + SizeAll(ts) < |s| && s[c + SizeAll(ts)] != Down
    ensures SkipOperand(s, c) == Some(c + SizeAll(ts)) <==> |ts| == 1
  {
    var t := ts[0];
    assert Holds(s, c, t);
    if t.children == [] {
      if |ts| == 1 { assert ts[1..] == []; }
      else { assert Holds(s, c + 1, ts[1]); assert ts[1..][0] == ts[1]; }
    } else {
      SkipTree(s, c, t);
    }
    if |ts| > 1 { assert SizeAll(ts[1..]) >= Size(ts[1..][0]); } else { assert ts[1..] == []; }
  }

  ghost predicate KindAt(s: seq<Token>, c: nat, k: Kind) {
    c < |s| && s[c].Tok? && s[c].kind == k
  }

  /** The node stream of a tree parser: the tokens and the cursor that rules move. */
  class NodeStream {
    const tokens: seq<Token>
    var cursor: nat

    constructor (tokens: seq<Token>)
      ensures this.tokens == tokens && cursor == 0
    {
      this.tokens := tokens;
      cursor := 0;
    }

    function LA(i: nat): Token
      requires i > 0
      reads this
    {
      if cursor + i - 1 < |tokens| then tokens[cursor + i - 1] else Eof
    }

    predicate Sees(k: Kind)
      reads this
    {
      LA(1).Tok? && LA(1).kind == k
    }

    method Seek(c: nat)
      modifies this
      ensures cursor == c
    {
      cursor := c;
    }

    method Consume()
      modifies this
      ensures cursor == old(cursor) + 1
    {
      cursor := cursor + 1;
    }

    /** Skips a tree by counting depth from LA(4); never reads past the stream. */
    method SeekToNextTree()
      requires Scan(tokens, cursor + 3, 1).Some?
      modifies this
      ensures Scan(tokens, old(cursor) + 3, 1) == Some(cursor)
    {
      var depth: nat := 1;
      var index: nat := 4;
      while depth != 0
        invariant cursor == old(cursor) && index >= 4
        invariant Scan(tokens, cursor + index - 1, depth) == Scan(tokens, cursor + 3, 1)
        decreases |tokens| - index, depth
      {
        assert cursor + index - 1 < |tokens|;
        if LA(index) == Down {
          depth := depth + 1;
        } else if LA(index) == Up {
          depth := depth - 1;
        }
        index := index + 1;
      }
      Seek(cursor + index - 2);
      Consume();
    }

    method SkipNextTokenOrTree()
      requires SkipOperand(tokens, cursor).Some?
      modifies this
      ensures SkipOperand(tokens, old(cursor)) == Some(cursor)
    {
      if LA(2) != Down {
        Seek(cursor + 1);
      } else {
        SeekToNextTree();
      }
    }
  }
}
