/** Resource identifiers as patterns: evaluator.go's resourceIDMatches over path.Match. */
module Patterns {
  import opened Basics

  // ------------------------------------------------- path.Match of Go's standard library

  datatype Escaped = BadPattern | Escaped(c: char, rest: string)

  /** One possibly escaped character of a character class; a class must go on after it. */
  function GetEsc(p: string): (e: Escaped)
    ensures e.Escaped? ==> e.rest != "" && |e.rest| < |p|
  {
    if p == "" || p[0] == '-' || p[0] == ']' then BadPattern
    else if p[0] == '\\' then
      if |p| <= 2 then BadPattern else Escaped(p[1], p[2..])
    else if |p| == 1 then BadPattern else Escaped(p[0], p[1..])
  }

  datatype Class = BadClass | Class(found: bool, rest: string)

  /** The ranges of a class up to its bracket; `ranges` counts those already read. */
  function ReadClass(p: string, c: char, found: bool, ranges: nat): (k: Class)
    ensures k.Class? ==> |k.rest| < |p|
    decreases |p|
  {
    if p != "" && p[0] == ']' && ranges > 0 then Class(found, p[1..])
    else match GetEsc(p)
      case BadPattern => BadClass
      case Escaped(lo, rest) =>
        if rest[0] == '-' then
          match GetEsc(rest[1..])
          case BadPattern => BadClass
          case Escaped(hi, rest') => ReadClass(rest', c, found || lo <= c <= hi, ranges + 1)
        else ReadClass(rest, c, found || lo == c, ranges + 1)
  }

  /** path.Match(p, s) reports a match without ErrBadPattern. */
  predicate PathMatch(p: string, s: string)
    decreases |p|, |s|
  {
    if p == "" then s == ""
    else if p[0] == '*' then
      PathMatch(p[1..], s) || (s != "" && s[0] != '/' && PathMatch(p, s[1..]))
    else if s == "" then false
    else if p[0] == '?' then s[0] != '/' && PathMatch(p[1..], s[1..])
    else if p[0] == '[' then
      var negated := |p| > 1 && p[1] == '^';
      var k := ReadClass(if negated then p[2..] else p[1..], s[0], false, 0);
      k.Class? && k.found != negated && PathMatch(k.rest, s[1..])
    else if p[0] == '\\' then |p| > 1 && p[1] == s[0] && PathMatch(p[2..], s[1..])
    else p[0] == s[0] && PathMatch(p[1..], s[1..])
  }

  // ------------------------------------------------- resourceIDMatches

  predicate HasGlob(p: string) {
    exists i :: 0 <= i < |p| && (p[i] == '*' || p[i] == '?' || p[i] == '[')
  }

  /** On trimmed text: everything, the same text, all below a path (slash, two stars), or a glob. */
  predicate Covers(p: string, id: string) {
    || p == "*" || p == "" || p == id
    || (if HasSuffix(p, "/**") then
          var prefix := p[..|p| - 3];
          id == prefix || prefix + "/" <= id
        else HasGlob(p) && PathMatch(p, id))
  }

  predicate IdMatches(pattern: string, id: string) {
    Covers(Trim(pattern), Trim(id))
  }

  /** No character that any matcher reads specially. */
  predicate Plain(s: string) {
    forall i :: 0 <= i < |s| ==> s[i] != '*' && s[i] != '?' && s[i] != '[' && s[i] != '\\'
  }

  /** On the trimmed texts: everything, the same, at or below a tree's root, or a path.Match glob. */
  lemma IdMatchesInFields(pattern: string, id: string)
    ensures var p, i := Trim(pattern), Trim(id);
            var tree := |p| >= 3 && p[|p| - 3] == '/' && p[|p| - 2] == '*' && p[|p| - 1] == '*';
            IdMatches(pattern, id) <==>
            || p == "" || p == "*" || p == i
            || (tree && (i == p[..|p| - 3] || p[..|p| - 2] <= i))
            || (!tree && ('*' in p || '?' in p || '[' in p) && PathMatch(p, i))
  {
    var p, i := Trim(pattern), Trim(id);
    if |p| >= 3 {
      assert p[..|p| - 3] + [p[|p| - 3]] == p[..|p| - 2];
      assert p[|p| - 3..] == [p[|p| - 3], p[|p| - 2], p[|p| - 1]];
    }
  }

  /** A star matches any stretch without a slash, a question mark one such character, an escaped
      character itself. */
  lemma {:induction false} StarSplits(p: string, s: string)
    ensures PathMatch("*" + p, s) <==> exists i :: 0 <= i <= |s| && '/' !in s[..i] && PathMatch(p, s[i..])
    decreases |s|
  {
    assert ("*" + p)[1..] == p;
    if PathMatch(p, s) {
      assert s[..0] == "" && s[0..] == s;
    }
    if s == "" {
      assert forall i :: 0 <= i <= |s| ==> s[i..] == s;
    } else {
      StarSplits(p, s[1..]);
      if s[0] != '/' && PathMatch("*" + p, s[1..]) {
        var i :| 0 <= i <= |s[1..]| && '/' !in s[1..][..i] && PathMatch(p, s[1..][i..]);
        assert s[..i + 1] == [s[0]] + s[1..][..i] && s[i + 1..] == s[1..][i..];
      }
      if i :| 0 < i <= |s| && '/' !in s[..i] && PathMatch(p, s[i..]) {
        assert s[0] == s[..i][0] && s[..i] == [s[0]] + s[1..][..i - 1] && s[i..] == s[1..][i - 1..];
      }
      assert s[0..] == s;
    }
  }

  lemma OneCharacter(c: char, p: string, s: string)
    ensures PathMatch("?" + p, s) <==> s != "" && s[0] != '/' && PathMatch(p, s[1..])
    ensures PathMatch(['\\', c] + p, s) <==> s != "" && s[0] == c && PathMatch(p, s[1..])
    ensures c !in "*?[\\" ==> (PathMatch([c] + p, s) <==> s != "" && s[0] == c && PathMatch(p, s[1..]))
  {
    assert ("?" + p)[1..] == p && (['\\', c] + p)[2..] == p && ([c] + p)[1..] == p;
  }

  /** A character as a class may spell it, the special ones behind a backslash. */
  function Quote(c: char): string {
    if c == '-' || c == ']' || c == '\\' || c == '^' then ['\\', c] else [c]
  }

  /** The text of a character class: each range from its first character to its last, or the one
      character where they are the same. */
  function ClassText(ranges: seq<(char, char)>): string {
    if ranges == [] then "]"
    else
      var (lo, hi) := ranges[0];
      if lo == hi then Quote(lo) + ClassText(ranges[1..])
      else Quote(lo) + ("-" + Quote(hi)) + ClassText(ranges[1..])
  }

  lemma ReadsQuoted(c: char, rest: string)
    requires rest != ""
    ensures GetEsc(Quote(c) + rest) == Escaped(c, rest)
  {
    assert (Quote(c) + rest)[|Quote(c)|..] == rest;
  }

  lemma ReadsOne(lo: char, rest: string, c: char, found: bool, n: nat)
    requires rest != "" && rest[0] != '-'
    ensures ReadClass(Quote(lo) + rest, c, found, n) == ReadClass(rest, c, found || lo == c, n + 1)
  {
    ReadsQuoted(lo, rest);
  }

  lemma ReadsRange(lo: char, hi: char, rest: string, c: char, found: bool, n: nat)
    requires rest != ""
    ensures ReadClass(Quote(lo) + ("-" + (Quote(hi) + rest)), c, found, n) == ReadClass(rest, c, found || lo <= c <= hi, n + 1)
  {
    var tail := "-" + (Quote(hi) + rest);
    ReadsQuoted(lo, tail);
    ReadsQuoted(hi, rest);
    assert tail[1..] == Quote(hi) + rest;
  }

  lemma Associates(a: string, b: string, c: string)
    ensures a + b + c == a + (b + c)
  {
  }

  lemma ReadsFirst(ranges: seq<(char, char)>, p: string, c: char, found: bool, n: nat)
    requires ranges != []
    ensures ReadClass(ClassText(ranges) + p, c, found, n) ==
            ReadClass(ClassText(ranges[1..]) + p, c, found || ranges[0].0 <= c <= ranges[0].1, n + 1)
  {
    var (lo, hi) := ranges[0];
    var text := ClassText(ranges[1..]);
    assert text + p != "" && (text + p)[0] != '-';
    if lo == hi {
      Associates(Quote(lo), text, p);
      ReadsOne(lo, text + p, c, found, n);
    } else {
      Associates(Quote(lo), "-" + Quote(hi), text);
      Associates("-", Quote(hi), text);
      Associates(Quote(lo), "-" + (Quote(hi) + text), p);
      Associates("-", Quote(hi) + text, p);
      Associates(Quote(hi), text, p);
      ReadsRange(lo, hi, text + p, c, found, n);
    }
  }

  predicate InRanges(ranges: seq<(char, char)>, c: char) {
    exists r <- ranges :: r.0 <= c <= r.1
  }

  lemma {:induction false} ReadsRanges(ranges: seq<(char, char)>, p: string, c: char, found: bool, n: nat)
    requires ranges != [] || n > 0
    ensures ReadClass(ClassText(ranges) + p, c, found, n) == Class(found || InRanges(ranges, c), p)
    decreases ranges
  {
    if ranges == [] {
      assert ("]" + p)[1..] == p;
    } else {
      ReadsFirst(ranges, p, c, found, n);
      ReadsRanges(ranges[1..], p, c, found || ranges[0].0 <= c <= ranges[0].1, n + 1);
      assert InRanges(ranges, c) <==> ranges[0].0 <= c <= ranges[0].1 || InRanges(ranges[1..], c) by {
        assert ranges == [ranges[0]] + ranges[1..];
      }
    }
  }

  lemma MatchesClass(text: string, s: string)
    requires text != "" && text[0] != '^' && s != ""
    ensures var k := ReadClass(text, s[0], false, 0);
            && (PathMatch("[" + text, s) <==> k.Class? && k.found && PathMatch(k.rest, s[1..]))
            && (PathMatch("[^" + text, s) <==> k.Class? && !k.found && PathMatch(k.rest, s[1..]))
  {
    assert ("[" + text)[1..] == text && ("[^" + text)[2..] == text && ("[" + text)[1] == text[0];
  }

  /** A class matches one character in, or with the caret out of, its ranges; one of no ranges is
      malformed and matches nothing. */
  lemma ClassMatches(ranges: seq<(char, char)>, p: string, s: string)
    ensures PathMatch("[" + (ClassText(ranges) + p), s) <==>
            ranges != [] && s != "" && InRanges(ranges, s[0]) && PathMatch(p, s[1..])
    ensures PathMatch("[^" + (ClassText(ranges) + p), s) <==>
            ranges != [] && s != "" && !InRanges(ranges, s[0]) && PathMatch(p, s[1..])
  {
    var text := ClassText(ranges) + p;
    if s != "" {
      MatchesClass(text, s);
      if ranges != [] {
        ReadsRanges(ranges, p, s[0], false, 0);
      }
    }
  }

  // ------------------------------------------------- kinds of patterns

  predicate Everything(p: string) {
    p == "*" || p == ""
  }

  /** A path with all below it. */
  predicate Tree(p: string) {
    HasSuffix(p, "/**")
  }

  function Root(p: string): string
    requires Tree(p)
  {
    p[..|p| - 3]
  }

  /** An identifier naming one resource. */
  predicate Literal(id: string) {
    Trim(id) != "" && !HasGlob(Trim(id))
  }

  /** Whatever is left: patterns that path.Match decides. */
  predicate Glob(pattern: string) {
    var p := Trim(pattern);
    !Everything(p) && HasGlob(p) && !Tree(p)
  }

  /** Everything, one resource, or a plain path with all below it. */
  predicate Straight(p: string) {
    Everything(p) || !HasGlob(p) || (Tree(p) && Root(p) != "" && Plain(Root(p)))
  }

  /** A pattern whose textual matches are contained in it. */
  predicate Containing(pattern: string) {
    Straight(Trim(pattern))
  }

  // ------------------------------------------------- containment of patterns

  /** One pattern holds another, as a caller can check on their trimmed texts. */
  predicate Within(p: string, c: string) {
    || Everything(p) || p == c
    || (if Everything(c) then false
        else if !HasGlob(c) then Covers(p, c)
        else if Tree(c) then Tree(p) && (Root(p) == Root(c) || Root(p) + "/" <= Root(c))
        else Tree(p) && Plain(Root(p)) && Root(p) + "/" <= c)
  }

  predicate PatternWithin(parent: string, child: string) {
    Within(Trim(parent), Trim(child))
  }

  /** What a glob matches starts with the glob's own plain beginning. */
  lemma {:induction false} PlainBeginning(l: string, p: string, s: string)
    requires Plain(l) && l <= p && PathMatch(p, s)
    ensures l <= s
  {
    if l == "" {
    } else {
      assert l[0] == p[0] && l[1..] <= p[1..];
      PlainBeginning(l[1..], p[1..], s[1..]);
      assert l == [l[0]] + l[1..] && s == [s[0]] + s[1..];
    }
  }

  lemma CoversOnlyItself(p: string, id: string)
    requires p != "" && !HasGlob(p) && Covers(p, id)
    ensures id == p
  {
    assert p[0] != '*' && p[|p| - 1] != '*';
  }

  lemma WithinContains(p: string, c: string, id: string)
    requires Within(p, c) && Covers(c, id)
    ensures Covers(p, id)
  {
    if Everything(p) || p == c {
    } else if !HasGlob(c) {
      CoversOnlyItself(c, id);
    } else if Tree(c) {
      assert id == c ==> Root(c) + "/" <= id;
    } else if id != c {
      assert PathMatch(c, id);
      var below := Root(p) + "/";
      assert Plain(below);
      PlainBeginning(below, c, id);
    }
  }

  /** On patterns of these kinds the textual test accepts only what is contained. */
  lemma TextualWithin(p: string, c: string)
    requires (Straight(p) || (c != "" && !HasGlob(c))) && Covers(p, c)
    ensures Within(p, c)
  {
    if Everything(p) || p == c {
    } else if c != "" && !HasGlob(c) {
      assert c[0] != '*';
    } else if !HasGlob(p) {
      CoversOnlyItself(p, c);
    } else {
      var r := Root(p);
      assert r[0] != '*';
      if Tree(c) && c != r {
        var q := Root(c);
        assert r + "/" <= c && c[|r|] == '/';
        assert c[|q|..] == "/**";
        assert c[|q| + 1] == c[|q|..][1] && c[|q| + 2] == c[|q|..][2];
        assert forall i :: 0 <= i < |r| ==> r[i] == c[i];
        assert |r| <= |q|;
        assert r == c[..|r|] && q[..|r|] == c[..|r|];
      }
    }
  }

  /** The containment that authoritySubset needs of its textual test, with its condition. */
  lemma PatternContainment(parent: string, child: string, id: string)
    requires IdMatches(parent, child)
    requires Containing(parent) || Literal(child)
    requires IdMatches(child, id)
    ensures IdMatches(parent, id)
  {
    TextualWithin(Trim(parent), Trim(child));
    WithinContains(Trim(parent), Trim(child), Trim(id));
  }

  /** So the textual test decides containment: it never turns down a pattern that is contained,
      and on these patterns it accepts no other. */
  lemma TextualTestExact(parent: string, child: string)
    requires Containing(parent) || Literal(child)
    ensures IdMatches(parent, child) <==> forall id :: IdMatches(child, id) ==> IdMatches(parent, id)
    ensures IdMatches(parent, child) <==> PatternWithin(parent, child)
  {
    forall id | IdMatches(parent, child) && IdMatches(child, id)
      ensures IdMatches(parent, id)
    {
      PatternContainment(parent, child, id);
    }
    assert IdMatches(child, child);
    if IdMatches(parent, child) {
      TextualWithin(Trim(parent), Trim(child));
    }
    if PatternWithin(parent, child) {
      WithinContains(Trim(parent), Trim(child), Trim(child));
    }
  }

  // ------------------------------------------------- the converse: what escapes

  function Slashes(s: string): nat {
    if s == "" then 0 else (if s[0] == '/' then 1 else 0) + Slashes(s[1..])
  }

  /** Only a character of the pattern's own matches a slash. */
  lemma {:induction false} GlobBoundsSlashes(p: string, s: string)
    requires PathMatch(p, s)
    ensures Slashes(s) <= |p|
    decreases |p|, |s|
  {
    if p == "" || s == "" {
    } else if p[0] == '*' {
      if PathMatch(p[1..], s) {
        GlobBoundsSlashes(p[1..], s);
      } else {
        GlobBoundsSlashes(p, s[1..]);
      }
    } else if p[0] == '[' {
      var k := ReadClass(if |p| > 1 && p[1] == '^' then p[2..] else p[1..], s[0], false, 0);
      GlobBoundsSlashes(k.rest, s[1..]);
    } else if p[0] == '\\' {
      GlobBoundsSlashes(p[2..], s[1..]);
    } else {
      GlobBoundsSlashes(p[1..], s[1..]);
    }
  }

  function Xs(n: nat): (s: string)
    ensures |s| == n && forall i :: 0 <= i < n ==> s[i] == 'x'
  {
    seq(n, i => 'x')
  }

  function Steps(n: nat): (s: string)
    ensures |s| == 2 * n && Slashes(s) == n && (n > 0 ==> s[|s| - 1] == 'x')
  {
    if n == 0 then "" else "/x" + Steps(n - 1)
  }

  /** Longer in its first segment, and deeper, than any pattern shorter than n reaches. */
  function Deep(n: nat): string {
    Xs(n) + Steps(n)
  }

  lemma {:induction false} SlashesAppend(a: string, b: string)
    ensures Slashes(a + b) == Slashes(a) + Slashes(b)
  {
    if a == "" {
      assert a + b == b;
    } else {
      SlashesAppend(a[1..], b);
      assert (a + b)[1..] == a[1..] + b;
    }
  }

  /** What a short pattern covers so deep down, it covers by being everything or a tree from above. */
  lemma ReachesDeep(p: string, above: string, n: nat)
    requires |p| < n && Covers(p, above + Deep(n))
    ensures Everything(p) || (Tree(p) && Root(p) + "/" <= above)
  {
    var id := above + Deep(n);
    assert |id| > |p|;
    assert forall k :: |above| <= k < |above| + n ==> id[k] == Xs(n)[k - |above|] == 'x';
    assert id == above + Xs(n) + Steps(n);
    SlashesAppend(above + Xs(n), Steps(n));
    if !Everything(p) && !Tree(p) {
      GlobBoundsSlashes(p, id);
    } else if !Everything(p) {
      assert Root(p) + "/" <= id && id[|Root(p)|] == '/';
    }
  }

  /** An identifier that the child matches and, of the parents shorter than n, only those that
      hold the child. */
  function Witness(child: string, n: nat): string {
    var c := Trim(child);
    if Everything(c) then Deep(n) else if Tree(c) then Root(c) + "/" + Deep(n) else c
  }

  lemma WitnessMatches(child: string, n: nat)
    requires n > 0
    ensures Trim(Witness(child, n)) == Witness(child, n) && IdMatches(child, Witness(child, n))
  {
    TrimEnds(child);
    var c, w := Trim(child), Witness(child, n);
    assert Deep(n)[0] == 'x' && Deep(n)[|Deep(n)| - 1] == Steps(n)[2 * n - 1] == 'x';
    assert w[|w| - 1] == if Everything(c) || Tree(c) then 'x' else c[|c| - 1];
    assert Tree(c) ==> w[0] == c[0];
  }

  lemma WitnessDecides(parent: string, child: string, n: nat)
    requires |Trim(parent)| < n && (!Glob(child) || Containing(parent))
    requires IdMatches(parent, Witness(child, n))
    ensures PatternWithin(parent, child)
  {
    var p, c := Trim(parent), Trim(child);
    WitnessMatches(child, n);
    if Everything(c) {
      assert "" + Deep(n) == Deep(n);
      ReachesDeep(p, "", n);
    } else if Tree(c) {
      ReachesDeep(p, Root(c) + "/", n);
      if !Everything(p) {
        assert Root(p) + "/" <= Root(c) + "/";
        assert |Root(p)| < |Root(c)| ==> Root(p) + "/" <= Root(c);
        assert |Root(p)| == |Root(c)| ==> Root(p) == (Root(p) + "/")[..|Root(p)|] == (Root(c) + "/")[..|Root(p)|] == Root(c);
      }
    } else {
      TextualWithin(p, c);
    }
  }

  /** The check is exact but for globs against globs: it holds if and only if every identifier
      of the child is one of the parent's. */
  lemma PatternWithinExact(parent: string, child: string)
    ensures PatternWithin(parent, child) ==> forall id :: IdMatches(child, id) ==> IdMatches(parent, id)
    ensures !Glob(child) || Containing(parent) ==>
              (PatternWithin(parent, child) <==> forall id :: IdMatches(child, id) ==> IdMatches(parent, id))
  {
    forall id | PatternWithin(parent, child) && IdMatches(child, id)
      ensures IdMatches(parent, id)
    {
      WithinContains(Trim(parent), Trim(child), Trim(id));
    }
    if (!Glob(child) || Containing(parent)) && forall id :: IdMatches(child, id) ==> IdMatches(parent, id) {
      var n := |Trim(parent)| + 1;
      WitnessMatches(child, n);
      WitnessDecides(parent, child, n);
    }
  }

  /** No glob holds a tree: the tree reaches deeper than any glob. */
  lemma GlobNeverHoldsTree(parent: string, child: string)
    requires Glob(parent) && Tree(Trim(child))
    ensures exists id :: IdMatches(child, id) && !IdMatches(parent, id)
  {
    var p, c := Trim(parent), Trim(child);
    assert c[|c| - 1] == '*' && !Everything(c);
    assert !PatternWithin(parent, child);
    PatternWithinExact(parent, child);
  }

  lemma {:induction false} PlainBeginningDrops(l: string, p: string, s: string)
    requires Plain(l)
    ensures PathMatch(l + p, l + s) <==> PathMatch(p, s)
  {
    if l == "" {
      assert l + p == p && l + s == s;
    } else {
      PlainBeginningDrops(l[1..], p, s);
      assert (l + p)[1..] == l[1..] + p && (l + s)[1..] == l[1..] + s;
    }
  }

  /** What the matcher makes of the two simplest patterns: plain text matches itself, and a
      star after it anything that goes on without a slash. */
  lemma {:induction false} PlainAndStar(l: string, s: string)
    requires Plain(l)
    ensures PathMatch(l, s) <==> s == l
    ensures PathMatch(l + "*", s) <==> l <= s && forall i :: |l| <= i < |s| ==> s[i] != '/'
    decreases |l|, |s|
  {
    if l == "" {
      assert l + "*" == "*" && "*"[1..] == "";
      if s != "" {
        PlainAndStar(l, s[1..]);
        assert (forall i :: 0 <= i < |s| ==> s[i] != '/') <==> s[0] != '/' && forall i :: 0 <= i < |s[1..]| ==> s[1..][i] != '/';
      }
    } else {
      assert (l + "*")[1..] == l[1..] + "*" && (l + "*")[0] == l[0];
      if s != "" && s[0] == l[0] {
        PlainAndStar(l[1..], s[1..]);
        assert l == [l[0]] + l[1..] && s == [s[0]] + s[1..];
        assert forall i :: |l| <= i < |s| ==> s[i] == s[1..][i - 1];
        assert forall i :: |l[1..]| <= i < |s[1..]| ==> s[1..][i] == s[i + 1];
      }
    }
  }

  /** The condition is needed: a one-star glob matches the text of the two-star pattern that
      reaches further. */
  lemma WideningMatches(path: string)
    requires path != "" && Plain(path) && !IsSpace(path[0])
    ensures IdMatches(path + "/*", path + "/**")
    ensures IdMatches(path + "/**", path + "/a/b")
    ensures !IdMatches(path + "/*", path + "/a/b")
  {
    var one, two, deep := path + "/*", path + "/**", path + "/a/b";
    assert Trim(one) == one && Trim(two) == two && Trim(deep) == deep;
    assert one[|path| + 1] == '*' && !HasSuffix(one, "/**") by {
      assert one[|one| - 3..] != "/**" by { assert one[|one| - 2] == '/'; }
    }
    assert PathMatch("*", "**") && !PathMatch("*", "a/b") by {
      assert PathMatch("*", "*");
      assert !PathMatch("*", "/b");
    }
    PlainBeginningDrops(path + "/", "*", "**");
    PlainBeginningDrops(path + "/", "*", "a/b");
    assert one == (path + "/") + "*" && two == (path + "/") + "**" && deep == (path + "/") + "a/b";
    assert two[..|two| - 3] == path && two[|two| - 3..] == "/**";
  }
}
