/** The body of a backtick command substitution: two in-place find-and-erase passes remove the
    escaping (POSIX XCU section 2.6.3). */
module Backtick {
  predicate PairAt(s: string, a: char, b: char, i: nat) {
    i + 1 < |s| && s[i] == a && s[i + 1] == b
  }

  /** The first position from pos on where the two characters stand; |s| when there is none. */
  method Find(s: string, a: char, b: char, pos: nat) returns (r: nat)
    requires pos <= |s|
    ensures pos <= r <= |s|
    ensures r < |s| ==> PairAt(s, a, b, r)
    ensures forall i: nat | pos <= i < r :: !PairAt(s, a, b, i)
  {
    r := pos;
    while r < |s|
      invariant pos <= r <= |s|
      invariant forall i: nat | pos <= i < r :: !PairAt(s, a, b, i)
    {
      if PairAt(s, a, b, r) { return; }
      r := r + 1;
    }
  }

  /** Left to right, every a directly before b is dropped and the b is not looked at again. */
  function Dropped(s: string, a: char, b: char): string {
    if s == "" then ""
    else if PairAt(s, a, b, 0) then [b] + Dropped(s[2..], a, b)
    else [s[0]] + Dropped(s[1..], a, b)
  }

  lemma {:induction false} DroppedSkips(s: string, a: char, b: char, k: nat)
    requires k <= |s|
    requires forall i: nat | i < k :: !PairAt(s, a, b, i)
    ensures Dropped(s, a, b) == s[..k] + Dropped(s[k..], a, b)
  {
    if k > 0 {
      assert forall i: nat | i < k - 1 :: PairAt(s[1..], a, b, i) == PairAt(s, a, b, i + 1);
      DroppedSkips(s[1..], a, b, k - 1);
      assert s[1..][k - 1..] == s[k..];
      assert s[..k] == [s[0]] + s[1..][..k - 1];
    }
  }

  /** One in-place pass: as long as the pair is found, its first character goes and the search moves past the
      second. */
  method ErasePass(s: string, a: char, b: char) returns (sub: string)
    ensures sub == Dropped(s, a, b)
  {
    sub := s;
    var pos := 0;
    assert s[..0] + Dropped(s[0..], a, b) == Dropped(s, a, b) by { assert s[0..] == s; }
    pos := Find(sub, a, b, pos);
    EraseSkip(s, a, b, sub, 0, pos);
    while pos != |sub|
      invariant pos <= |sub| && (pos < |sub| ==> PairAt(sub, a, b, pos))
      invariant sub[..pos] + Dropped(sub[pos..], a, b) == Dropped(s, a, b)
      decreases |sub| - pos
    {
      ghost var prev := sub;
      sub := sub[..pos] + sub[pos + 1..];
      assert prev[pos..][2..] == prev[pos + 2..] == sub[pos + 1..];
      assert sub[..pos + 1] == prev[..pos] + [b];
      assert prev[..pos] + ([b] + Dropped(prev[pos + 2..], a, b)) == sub[..pos + 1] + Dropped(sub[pos + 1..], a, b);
      pos := pos + 1;
      var next := Find(sub, a, b, pos);
      EraseSkip(s, a, b, sub, pos, next);
      pos := next;
    }
    assert sub[|sub|..] == "" && sub[..|sub|] == sub;
  }

  lemma EraseSkip(s: string, a: char, b: char, sub: string, pos: nat, next: nat)
    requires pos <= next <= |sub|
    requires sub[..pos] + Dropped(sub[pos..], a, b) == Dropped(s, a, b)
    requires forall i: nat | pos <= i < next :: !PairAt(sub, a, b, i)
    ensures sub[..next] + Dropped(sub[next..], a, b) == Dropped(s, a, b)
  {
    hide Dropped;
    var t := sub[pos..];
    assert forall i: nat | i < next - pos :: PairAt(t, a, b, i) == PairAt(sub, a, b, pos + i);
    DroppedSkips(t, a, b, next - pos);
    assert t[next - pos..] == sub[next..];
    assert sub[..pos] + t[..next - pos] == sub[..next];
  }

  function Unescaped(s: string): string { Dropped(Dropped(s, '\\', '\\'), '\\', '`') }

  /** The two passes over the text between the backticks. */
  method Unescape(s: string) returns (sub: string)
    ensures sub == Unescaped(s)
  {
    sub := ErasePass(s, '\\', '\\');
    sub := ErasePass(sub, '\\', '`');
  }

  // ---- Partner: the escaping that nests a command inside backticks ----

  function DoubleBackslashes(s: string): string {
    if s == "" then "" else (if s[0] == '\\' then "\\\\" else [s[0]]) + DoubleBackslashes(s[1..])
  }

  function EscapeTicks(s: string): string {
    if s == "" then "" else (if s[0] == '`' then "\\`" else [s[0]]) + EscapeTicks(s[1..])
  }

  function Escaped(s: string): string { EscapeTicks(DoubleBackslashes(s)) }

  lemma EscapedStep(s: string)
    requires s != ""
    ensures Escaped(s) == (if s[0] == '\\' then "\\\\" else if s[0] == '`' then "\\`" else [s[0]]) + Escaped(s[1..])
  {
    var rest := DoubleBackslashes(s[1..]);
    if s[0] == '\\' {
      var d, t := "\\\\" + rest, "\\" + rest;
      assert d[1..] == t && t[1..] == rest;
      assert EscapeTicks(d) == "\\" + EscapeTicks(t) && EscapeTicks(t) == "\\" + EscapeTicks(rest);
      assert "\\" + ("\\" + EscapeTicks(rest)) == "\\\\" + EscapeTicks(rest);
    } else {
      assert ([s[0]] + rest)[1..] == rest;
    }
  }

  lemma {:induction false} FirstPass(s: string)
    ensures Dropped(Escaped(s), '\\', '\\') == EscapeTicks(s)
  {
    if s != "" {
      EscapedStep(s);
      FirstPass(s[1..]);
      var e, rest := Escaped(s), Escaped(s[1..]);
      hide Escaped;
      if s[0] == '\\' {
        assert e[2..] == rest;
      } else if s[0] == '`' {
        KeepTick(rest);
      } else {
        assert e[1..] == rest;
      }
    }
  }

  lemma KeepTick(rest: string)
    ensures Dropped("\\`" + rest, '\\', '\\') == "\\`" + Dropped(rest, '\\', '\\')
  {
    var e, t := "\\`" + rest, "`" + rest;
    assert e[1..] == t && t[1..] == rest;
    assert Dropped(e, '\\', '\\') == "\\" + Dropped(t, '\\', '\\');
    assert Dropped(t, '\\', '\\') == "`" + Dropped(rest, '\\', '\\');
  }

  lemma {:induction false} SecondPass(s: string)
    ensures Dropped(EscapeTicks(s), '\\', '`') == s
  {
    if s != "" {
      SecondPass(s[1..]);
      var e, rest := EscapeTicks(s), EscapeTicks(s[1..]);
      assert s == [s[0]] + s[1..];
      if s[0] == '`' { assert e[2..] == rest; } else { assert e[1..] == rest; }
    }
  }

  /** Unescaping inverts escaping, for every text. */
  lemma UnescapeInverts(s: string)
    ensures Unescaped(Escaped(s)) == s
  {
    FirstPass(s);
    SecondPass(s);
  }

  function Nested(s: string, depth: nat): string { if depth == 0 then s else Escaped(Nested(s, depth - 1)) }

  function Peeled(s: string, depth: nat): string
    decreases depth
  {
    if depth == 0 then s else Peeled(Unescaped(s), depth - 1)
  }

  /** Hence a command nested any number of backticks deep comes out as written. */
  lemma {:induction false} NestingInverts(s: string, depth: nat)
    ensures Peeled(Nested(s, depth), depth) == s
  {
    if depth > 0 {
      UnescapeInverts(Nested(s, depth - 1));
      NestingInverts(s, depth - 1);
    }
  }
}
