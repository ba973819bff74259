/**
 CCXML event patterns: `*` stands for any run of characters, letters match without regard to
 ASCII case (section 9 of CCXML 1.0).
 */
module CcxmlMatcher {

  const STAR: char := '*'

  function Fold(c: char): char {
    if 'A' <= c <= 'Z' then (c as int - 'A' as int + 'a' as int) as char else c
  }

  /** The same character, or the two cases of one ASCII letter. */
  predicate Alike(c: char, d: char) {
    || c == d
    || ('A' <= c <= 'Z' && d as int == c as int + 32)
    || ('A' <= d <= 'Z' && c as int == d as int + 32)
  }

  /** Folding identifies exactly the two cases of a letter. */
  lemma FoldMeans(c: char, d: char)
    ensures Fold(c) == Fold(d) <==> Alike(c, d)
  {
  }

  /** What a pattern means. */
  predicate Glob(pattern: string, name: string)
    decreases |pattern|, |name|
  {
    if pattern == [] then name == []
    else if pattern[0] == STAR then Glob(pattern[1..], name) || (name != [] && Glob(pattern, name[1..]))
    else name != [] && Alike(pattern[0], name[0]) && Glob(pattern[1..], name[1..])
  }

  // ----- facts about patterns ----------------------------------------------

  /** A star in front takes in any number of further characters. */
  lemma {:induction false} StarAbsorbs(pattern: string, name: string, k: nat)
    requires pattern != [] && pattern[0] == STAR && k <= |name| && Glob(pattern, name[k..])
    ensures Glob(pattern, name)
    decreases k
  {
    if k == 0 {
      assert name[0..] == name;
    } else {
      assert name[1..][k - 1..] == name[k..];
      StarAbsorbs(pattern, name[1..], k - 1);
    }
  }

  /** A star matches if and only if some suffix matches what follows it. */
  lemma {:induction false} StarSplits(pattern: string, name: string)
    requires pattern != [] && pattern[0] == STAR
    ensures Glob(pattern, name) <==> exists k :: 0 <= k <= |name| && Glob(pattern[1..], name[k..])
    decreases |name|
  {
    assert name[0..] == name;
    if name != [] {
      StarSplits(pattern, name[1..]);
      if Glob(pattern, name[1..]) {
        var k :| 0 <= k <= |name[1..]| && Glob(pattern[1..], name[1..][k..]);
        assert name[1..][k..] == name[k + 1..];
      }
      forall k | 1 <= k <= |name| && Glob(pattern[1..], name[k..]) ensures Glob(pattern, name[1..]) {
        assert name[1..][k - 1..] == name[k..];
      }
    }
  }

  /** Literals at the front of a pattern consume as many characters. */
  lemma {:induction false} LiteralPrefix(pattern: string, name: string, q: nat)
    requires q <= |pattern| && (forall i :: 0 <= i < q ==> pattern[i] != STAR) && Glob(pattern, name)
    ensures q <= |name| && Glob(pattern[q..], name[q..])
    decreases q
  {
    if q == 0 {
      assert pattern[0..] == pattern && name[0..] == name;
    } else {
      LiteralPrefix(pattern[1..], name[1..], q - 1);
      assert pattern[1..][q - 1..] == pattern[q..] && name[1..][q - 1..] == name[q..];
    }
  }

  /** Trailing stars, and only those, match nothing. */
  lemma {:induction false} EmptyName(pattern: string)
    ensures Glob(pattern, []) <==> forall i :: 0 <= i < |pattern| ==> pattern[i] == STAR
  {
    if pattern != [] {
      EmptyName(pattern[1..]);
      if forall i :: 0 <= i < |pattern| ==> pattern[i] == STAR {
        assert forall i :: 0 <= i < |pattern[1..]| ==> pattern[1..][i] == pattern[i + 1];
      } else if pattern[0] == STAR {
        var i :| 0 <= i < |pattern| && pattern[i] != STAR;
        assert pattern[1..][i - 1] == pattern[i];
      }
    }
  }

  // ----- the matcher -------------------------------------------------------

  /** Some longer reach of the star at `w` would still match. */
  ghost predicate Longer(pattern: string, name: string, w: int, from: nat)
    requires -1 <= w < |pattern|
  {
    0 <= w && exists k :: from < k <= |name| && Glob(pattern[w + 1..], name[k..])
  }

  /** Where the matcher stands. `w` is the last star passed, or -1, and `from` where its reach ends. */
  ghost predicate Standing(pattern: string, name: string, p: nat, n: nat, w: int, from: nat) {
    && p <= |pattern| && n <= |name| && -1 <= w < |pattern| && from <= n
    && (w >= 0 ==> w < p && n - from == p - w - 1 && forall i :: w < i < p ==> pattern[i] != STAR)
    && (Glob(pattern, name) <==> Glob(pattern[p..], name[n..]) || Longer(pattern, name, w, from))
  }

  /** A new star makes the choices left at the last one superfluous. */
  lemma StarSupersedes(pattern: string, name: string, p: nat, n: nat, w: int, from: nat)
    requires Standing(pattern, name, p, n, w, from) && p < |pattern| && pattern[p] == STAR
    ensures Longer(pattern, name, w, from) ==> Glob(pattern[p..], name[n..])
    ensures Standing(pattern, name, p + 1, n, p, n)
  {
    if Longer(pattern, name, w, from) {
      var k :| from < k <= |name| && Glob(pattern[w + 1..], name[k..]);
      var q := p - w - 1;
      LiteralPrefix(pattern[w + 1..], name[k..], q);
      assert pattern[w + 1..][q..] == pattern[p..] && name[k..][q..] == name[k + q..];
      assert name[n..][k - from..] == name[k + q..];
      StarAbsorbs(pattern[p..], name[n..], k - from);
    }
    StarStanding(pattern, name, p, n);
  }

  lemma StarStanding(pattern: string, name: string, p: nat, n: nat)
    requires p < |pattern| && pattern[p] == STAR && n <= |name|
    ensures Glob(pattern[p..], name[n..]) <==> Glob(pattern[p + 1..], name[n..]) || Longer(pattern, name, p, n)
  {
    var rest := name[n..];
    StarSplits(pattern[p..], rest);
    assert pattern[p..][1..] == pattern[p + 1..];
    if Glob(pattern[p..], rest) {
      var k :| 0 <= k <= |rest| && Glob(pattern[p + 1..], rest[k..]);
      assert rest[k..] == name[n + k..];
    }
    if Glob(pattern[p + 1..], rest) { assert rest[0..] == rest; }
    forall k | n < k <= |name| && Glob(pattern[p + 1..], name[k..]) ensures Glob(pattern[p..], rest) {
      assert rest[k - n..] == name[k..];
    }
  }

  /** Going back, when nothing else is left: the star takes one character more. */
  lemma Backtrack(pattern: string, name: string, w: int, from: nat)
    requires 0 <= w < |pattern| && from < |name| && (Glob(pattern, name) <==> Longer(pattern, name, w, from))
    ensures Standing(pattern, name, w + 1, from + 1, w, from + 1)
  {
  }

  /** At the end of the name no longer reach can help. */
  lemma NoLonger(pattern: string, name: string, p: nat, w: int, from: nat)
    requires Standing(pattern, name, p, |name|, w, from)
    ensures !Longer(pattern, name, w, from)
  {
    if Longer(pattern, name, w, from) {
      var k :| from < k <= |name| && Glob(pattern[w + 1..], name[k..]);
      LiteralPrefix(pattern[w + 1..], name[k..], p - w - 1);
      assert false;
    }
  }

  /** A literal that matches is passed; anything else but a star leaves only a longer reach. */
  lemma Advance(pattern: string, name: string, p: nat, n: nat, w: int, from: nat)
    requires Standing(pattern, name, p, n, w, from) && n < |name|
    ensures p < |pattern| && pattern[p] != STAR && Fold(pattern[p]) == Fold(name[n]) ==>
              Standing(pattern, name, p + 1, n + 1, w, from)
    ensures !(p < |pattern| && (pattern[p] == STAR || Fold(pattern[p]) == Fold(name[n]))) ==>
              (Glob(pattern, name) <==> Longer(pattern, name, w, from))
  {
    if p < |pattern| {
      FoldMeans(pattern[p], name[n]);
      assert pattern[p..][1..] == pattern[p + 1..] && name[n..][1..] == name[n + 1..];
    }
  }

  /** The stars that end a pattern. */
  method SkipStars(pattern: string, start: nat) returns (p: nat)
    requires start <= |pattern|
    ensures start <= p <= |pattern| && (forall i :: start <= i < p ==> pattern[i] == STAR)
    ensures p < |pattern| ==> pattern[p] != STAR
  {
    p := start;
    while p < |pattern| && pattern[p] == STAR
      invariant start <= p <= |pattern| && forall i :: start <= i < p ==> pattern[i] == STAR
    {
      p := p + 1;
    }
  }

  /** event_pattern_matches: one pass with a single point to go back to. */
  method Matches(pattern: string, name: string) returns (matched: bool)
    ensures matched == Glob(pattern, name)
  {
    var p: nat, n: nat := 0, 0;
    var w: int := -1;
    var from: nat := 0;
    assert pattern[0..] == pattern && name[0..] == name;
    while n < |name|
      invariant Standing(pattern, name, p, n, w, from)
      decreases |pattern| - w, |name| - from, |name| - n
    {
      Advance(pattern, name, p, n, w, from);
      if p < |pattern| && pattern[p] != STAR && Fold(pattern[p]) == Fold(name[n]) {
        p, n := p + 1, n + 1;
      } else if p < |pattern| && pattern[p] == STAR {
        StarSupersedes(pattern, name, p, n, w, from);
        w, from := p, n;
        p := p + 1;
      } else if w != -1 {
        Backtrack(pattern, name, w, from);
        from := from + 1;
        p, n := w + 1, from;
      } else {
        return false;
      }
    }
    AtEnd(pattern, name, p, w, from);
    ghost var start := p;
    p := SkipStars(pattern, p);
    matched := p == |pattern|;
    if !matched { assert pattern[start..][p - start] != STAR; }
  }

  /** With the name used up, a match needs the rest of the pattern to be stars. */
  lemma AtEnd(pattern: string, name: string, p: nat, w: int, from: nat)
    requires Standing(pattern, name, p, |name|, w, from)
    ensures Glob(pattern, name) <==> forall i :: 0 <= i < |pattern[p..]| ==> pattern[p..][i] == STAR
  {
    NoLonger(pattern, name, p, w, from);
    assert name[|name|..] == [];
    EmptyName(pattern[p..]);
  }

  // ----- fatal events ------------------------------------------------------

  predicate Recased(a: string, b: string) { |a| == |b| && forall i :: 0 <= i < |a| ==> Alike(a[i], b[i]) }

  predicate StartsWith(name: string, prefix: string) { |prefix| <= |name| && Recased(prefix, name[..|prefix|]) }

  lemma {:induction false} LiteralMeans(pattern: string, name: string)
    requires forall i :: 0 <= i < |pattern| ==> pattern[i] != STAR
    ensures Glob(pattern, name) <==> Recased(pattern, name)
  {
    if pattern != [] && name != [] {
      LiteralMeans(pattern[1..], name[1..]);
      if Recased(pattern[1..], name[1..]) && Alike(pattern[0], name[0]) {
        forall i | 0 <= i < |pattern| ensures Alike(pattern[i], name[i]) {
          if i > 0 { assert pattern[i] == pattern[1..][i - 1] && name[i] == name[1..][i - 1]; }
        }
      }
      if Recased(pattern, name) {
        forall i | 0 <= i < |pattern[1..]| ensures Alike(pattern[1..][i], name[1..][i]) {
          assert pattern[1..][i] == pattern[i + 1] && name[1..][i] == name[i + 1];
        }
      }
    }
  }

  lemma {:induction false} AnySuffix(name: string)
    ensures Glob([STAR], name)
  {
    StarSplits([STAR], name);
    assert name[|name|..] == [];
    assert [STAR][1..] == [];
  }

  lemma {:induction false} PrefixMeans(prefix: string, name: string)
    requires forall i :: 0 <= i < |prefix| ==> prefix[i] != STAR
    ensures Glob(prefix + [STAR], name) <==> StartsWith(name, prefix)
  {
    var pattern := prefix + [STAR];
    if prefix == [] {
      assert pattern == [STAR];
      AnySuffix(name);
    } else if name != [] {
      assert pattern[1..] == prefix[1..] + [STAR];
      PrefixMeans(prefix[1..], name[1..]);
      if |prefix| <= |name| {
        var taken := name[..|prefix|];
        assert name[1..][..|prefix| - 1] == taken[1..];
        RecasedCons(prefix, taken);
      }
    }
  }

  lemma RecasedCons(a: string, b: string)
    requires a != [] && b != []
    ensures Recased(a, b) <==> Alike(a[0], b[0]) && Recased(a[1..], b[1..])
  {
    if Alike(a[0], b[0]) && Recased(a[1..], b[1..]) {
      forall i | 0 <= i < |a| ensures Alike(a[i], b[i]) {
        if i > 0 { assert a[i] == a[1..][i - 1] && b[i] == b[1..][i - 1]; }
      }
    }
  }

  /** The error events and the kill events end a session that has no transition for them. */
  predicate EndsUnhandled(name: string) {
    StartsWith(name, "error.") || Recased("ccxml.kill", name) || StartsWith(name, "ccxml.kill.")
  }

  /** unhandled_event_is_fatal: exactly the error events and the kill events. */
  method UnhandledIsFatal(name: string) returns (fatal: bool)
    ensures fatal <==> EndsUnhandled(name)
  {
    PrefixMeans("error.", name);
    LiteralMeans("ccxml.kill", name);
    PrefixMeans("ccxml.kill.", name);
    assert "error." + [STAR] == "error.*" && "ccxml.kill." + [STAR] == "ccxml.kill.*";
    fatal := Matches("error.*", name);
    if fatal { return; }
    fatal := Matches("ccxml.kill", name);
    if fatal { return; }
    fatal := Matches("ccxml.kill.*", name);
  }

  // ----- case does not matter ----------------------------------------------

  lemma AlikeTransits(c: char, d: char, e: char)
    ensures Alike(c, d) && Alike(d, e) ==> Alike(c, e)
    ensures Alike(c, d) ==> Alike(d, c)
    ensures c == STAR && Alike(c, d) ==> d == STAR
  {
  }

  /** Changing the case of letters, in the pattern or in the name, changes no answer. */
  lemma {:induction false} CaseIsIgnored(pattern: string, pattern': string, name: string, name': string)
    requires Recased(pattern, pattern') && Recased(name, name')
    ensures Glob(pattern, name) <==> Glob(pattern', name')
    decreases |pattern|, |name|
  {
    if pattern != [] {
      RecasedCons(pattern, pattern');
      AlikeTransits(pattern[0], pattern'[0], pattern[0]);
      AlikeTransits(pattern'[0], pattern[0], pattern'[0]);
      CaseIsIgnored(pattern[1..], pattern'[1..], name, name');
      if name != [] {
        RecasedCons(name, name');
        CaseIsIgnored(pattern, pattern', name[1..], name'[1..]);
        CaseIsIgnored(pattern[1..], pattern'[1..], name[1..], name'[1..]);
        LettersAgree(pattern[0], pattern'[0], name[0], name'[0]);
      }
    }
  }

  lemma LettersAgree(c: char, c': char, d: char, d': char)
    requires Alike(c, c') && Alike(d, d')
    ensures Alike(c, d) <==> Alike(c', d')
  {
  }

  /** So does changing the case of an event's name for whether it ends a session. */
  lemma {:induction false} FatalIgnoresCase(name: string, name': string)
    requires Recased(name, name')
    ensures EndsUnhandled(name) <==> EndsUnhandled(name')
  {
    PrefixMeans("error.", name);
    PrefixMeans("error.", name');
    LiteralMeans("ccxml.kill", name);
    LiteralMeans("ccxml.kill", name');
    PrefixMeans("ccxml.kill.", name);
    PrefixMeans("ccxml.kill.", name');
    SelfRecased("error." + [STAR], name, name');
    SelfRecased("ccxml.kill", name, name');
    SelfRecased("ccxml.kill." + [STAR], name, name');
  }

  lemma SelfRecased(pattern: string, name: string, name': string)
    requires Recased(name, name')
    ensures Glob(pattern, name) <==> Glob(pattern, name')
  {
    CaseIsIgnored(pattern, pattern, name, name');
  }
}
