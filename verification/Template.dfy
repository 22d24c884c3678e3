/** Template placeholders: double braces around a dotted name (internal/ir/validate.go:16), and their
    replacement in a text (internal/ir/template.go). */
module Template {
  import opened Options

  predicate IsStart(c: char) {
    'a' <= c <= 'z' || 'A' <= c <= 'Z' || c == '_'
  }

  predicate IsName(c: char) {
    IsStart(c) || '0' <= c <= '9' || c == '-'
  }

  predicate IsSpace(c: char) {
    c == ' ' || c == '\t' || c == '\n' || c == '\r' || c == 12 as char
  }

  /** Leading name characters, leading white space. */
  function NameRun(s: string): (n: nat)
    ensures n <= |s| && forall i :: 0 <= i < n ==> IsName(s[i])
  {
    if s == "" || !IsName(s[0]) then 0 else 1 + NameRun(s[1..])
  }

  function SpaceRun(s: string): (n: nat)
    ensures n <= |s| && forall i :: 0 <= i < n ==> IsSpace(s[i])
  {
    if s == "" || !IsSpace(s[0]) then 0 else 1 + SpaceRun(s[1..])
  }

  /** Leading groups of a dot and a name. */
  function GroupRun(s: string): (n: nat)
    ensures n <= |s| && forall i :: 0 <= i < n ==> IsName(s[i]) || s[i] == '.'
  {
    if |s| < 2 || s[0] != '.' || !IsName(s[1]) then 0 else
      var n := 1 + NameRun(s[1..]);
      n + GroupRun(s[n..])
  }

  /** A leading dotted name; zero when there is none. */
  function RefRun(s: string): (n: nat)
    ensures n <= |s| && forall i :: 0 <= i < n ==> IsName(s[i]) || s[i] == '.'
  {
    if s == "" || !IsStart(s[0]) then 0 else
      var n := 1 + NameRun(s[1..]);
      n + GroupRun(s[n..])
  }

  /** What a placeholder may hold, character by character. */
  predicate IsInner(c: char) {
    c == '{' || c == '}' || c == '.' || IsName(c) || IsSpace(c)
  }

  /** A placeholder at the start of the text: its reference and its length. */
  datatype Match = Match(ref: string, length: nat)

  function MatchAt(s: string): (m: Option<Match>)
    ensures m.Some? ==> 5 <= m.value.length <= |s| && s[0] == '{' && s[1] == '{'
  {
    if |s| < 2 || s[0] != '{' || s[1] != '{' then None else
      var a := 2 + SpaceRun(s[2..]);
      var n := RefRun(s[a..]);
      if n == 0 then None else Closed(s, a, a + n)
  }

  /** The end of a placeholder whose reference is at `a..b`. */
  function Closed(s: string, a: nat, b: nat): (m: Option<Match>)
    requires a <= b <= |s|
    ensures m.Some? ==> b + 2 <= m.value.length <= |s|
  {
    var e := b + SpaceRun(s[b..]);
    if e + 2 > |s| || s[e] != '}' || s[e + 1] != '}' then None else Some(Match(s[a..b], e + 2))
  }

  predicate AllInner(s: string) {
    forall i :: 0 <= i < |s| ==> IsInner(s[i])
  }

  lemma InnerBoth(a: string, b: string)
    requires AllInner(a) && AllInner(b)
    ensures AllInner(a + b)
  {
  }

  lemma RunsInner(s: string)
    ensures AllInner(s[..SpaceRun(s)]) && AllInner(s[..RefRun(s)])
  {
  }

  lemma MatchEnds(s: string)
    requires MatchAt(s).Some?
    ensures var a := 2 + SpaceRun(s[2..]);
            var b := a + RefRun(s[a..]);
            var e := b + SpaceRun(s[b..]);
            s[..2] == "{{" && e + 2 <= |s| && s[e..e + 2] == "}}" && MatchAt(s).value == Match(s[a..b], e + 2)
  {
    hide SpaceRun, RefRun;
  }

  /** A placeholder has no quote and no backslash in it, nor any other character of a string's own. */
  lemma MatchInner(s: string)
    requires MatchAt(s).Some?
    ensures AllInner(s[..MatchAt(s).value.length])
  {
    hide SpaceRun, RefRun, MatchAt, AllInner;
    MatchEnds(s);
    var a := 2 + SpaceRun(s[2..]);
    var b := a + RefRun(s[a..]);
    var e := b + SpaceRun(s[b..]);
    RunsInner(s[2..]);
    RunsInner(s[a..]);
    RunsInner(s[b..]);
    BracesInner();
    Extend(s, 2, a);
    Extend(s, a, b);
    Extend(s, b, e);
    Extend(s, e, e + 2);
  }

  lemma BracesInner()
    ensures AllInner("{{") && AllInner("}}")
  {
  }

  lemma Extend(s: string, i: nat, j: nat)
    requires i <= j <= |s| && AllInner(s[..i]) && (AllInner(s[i..j]) || AllInner(s[i..][..j - i]))
    ensures AllInner(s[..j])
  {
    hide AllInner;
    assert s[i..][..j - i] == s[i..j];
    InnerBoth(s[..i], s[i..j]);
    assert s[..i] + s[i..j] == s[..j];
  }

  // ---------------------------------------------------------------- the grammar

  /** In ASCII, the characters of a name and of white space. */
  lemma CharactersAre(c: char)
    ensures IsStart(c) <==> c as int == 95 || 65 <= c as int <= 90 || 97 <= c as int <= 122
    ensures IsName(c) <==> IsStart(c) || c as int == 45 || 48 <= c as int <= 57
    ensures IsSpace(c) <==> c as int in {9, 10, 12, 13, 32}
  {
  }

  predicate Blank(s: string) {
    forall k :: 0 <= k < |s| ==> IsSpace(s[k])
  }

  /** A name and further names, each after a dot: it starts as a name does, and after every dot comes a
      character of a name. */
  predicate IsDotted(r: string) {
    && r != "" && IsStart(r[0])
    && (forall k :: 0 <= k < |r| ==> IsName(r[k]) || r[k] == '.')
    && (forall k :: 0 <= k < |r| && r[k] == '.' ==> k + 1 < |r| && IsName(r[k + 1]))
  }

  /** A placeholder: double braces around a dotted name with white space on either side of it. */
  function Placeholder(u: string, r: string, w: string): string {
    "{{" + u + r + w + "}}"
  }

  /** The text is its first `n` characters, and no name goes on there. */
  predicate EndsName(s: string, n: nat) {
    n < |s| ==> !IsName(s[n]) && s[n] != '.'
  }

  lemma {:induction false} SpaceRunIs(s: string, n: nat)
    requires n <= |s| && Blank(s[..n]) && (n < |s| ==> !IsSpace(s[n]))
    ensures SpaceRun(s) == n
    decreases n
  {
    if n > 0 {
      assert s[0] == s[..n][0] && s[1..][..n - 1] == s[..n][1..];
      SpaceRunIs(s[1..], n - 1);
    }
  }

  lemma {:induction false} NameRunIs(s: string, n: nat)
    requires n <= |s| && (forall k :: 0 <= k < n ==> IsName(s[k])) && (n < |s| ==> !IsName(s[n]))
    ensures NameRun(s) == n
    decreases n
  {
    if n > 0 {
      NameRunIs(s[1..], n - 1);
    }
  }

  /** Groups of a dot and a name, up to where they end. */
  predicate IsTail(g: string) {
    && (g != "" ==> g[0] == '.')
    && (forall k :: 0 <= k < |g| ==> IsName(g[k]) || g[k] == '.')
    && (forall k :: 0 <= k < |g| && g[k] == '.' ==> k + 1 < |g| && IsName(g[k + 1]))
  }

  /** The length of the name that a text of names and dots starts with. */
  lemma {:induction false} NameUpToDot(s: string, n: nat) returns (m: nat)
    requires n <= |s| && EndsName(s, n) && forall k :: 0 <= k < n ==> IsName(s[k]) || s[k] == '.'
    ensures m <= n && NameRun(s) == m && (m < n ==> s[m] == '.') && forall k :: 0 <= k < m ==> IsName(s[k])
    decreases n
  {
    if n == 0 || s[0] == '.' {
      m := 0;
    } else {
      m := NameUpToDot(s[1..], n - 1);
      m := m + 1;
    }
  }

  lemma TailOf(s: string, i: nat)
    requires i <= |s| && (i < |s| ==> s[i] == '.')
    requires forall k :: 0 <= k < |s| ==> IsName(s[k]) || s[k] == '.'
    requires forall k :: 0 <= k < |s| && s[k] == '.' ==> k + 1 < |s| && IsName(s[k + 1])
    ensures IsTail(s[i..])
  {
    hide IsName;
    forall k | 0 <= k < |s| - i && s[i..][k] == '.'
      ensures k + 1 < |s| - i && IsName(s[i..][k + 1])
    {
      assert s[i..][k] == s[i + k] && s[i + k + 1] == s[i..][k + 1];
    }
  }

  lemma {:induction false} GroupRunIs(s: string, n: nat)
    requires n <= |s| && IsTail(s[..n]) && EndsName(s, n)
    ensures GroupRun(s) == n
    decreases n
  {
    hide NameRun, IsTail;
    var g := s[..n];
    TailFacts(g);
    if n == 0 {
      assert s == "" || s[0] != '.';
    } else {
      assert g[0] == s[0] && g[1] == s[1];
      var m := NameUpToDot(s[1..], n - 1);
      NameStarts(s[1..]);
      TailOf(g, m + 1);
      assert s[m + 1..][..n - m - 1] == g[m + 1..];
      GroupRunIs(s[m + 1..], n - m - 1);
    }
  }

  lemma NameStarts(s: string)
    ensures s != "" && IsName(s[0]) ==> NameRun(s) > 0
  {
  }

  lemma TailFacts(g: string)
    requires IsTail(g)
    ensures g != "" ==> g[0] == '.' && 1 < |g| && IsName(g[1])
    ensures forall k :: 0 <= k < |g| ==> IsName(g[k]) || g[k] == '.'
    ensures forall k :: 0 <= k < |g| && g[k] == '.' ==> k + 1 < |g| && IsName(g[k + 1])
  {
  }

  lemma RefRunIs(s: string, n: nat)
    requires n <= |s| && IsDotted(s[..n]) && EndsName(s, n)
    ensures RefRun(s) == n
  {
    hide NameRun, GroupRun, IsTail;
    var r := s[..n];
    assert r[0] == s[0];
    var m := NameUpToDot(s[1..], n - 1);
    TailOf(r, m + 1);
    assert s[m + 1..][..n - m - 1] == r[m + 1..];
    GroupRunIs(s[m + 1..], n - m - 1);
  }

  lemma {:induction false} GroupRunTail(s: string)
    ensures IsTail(s[..GroupRun(s)])
    decreases |s|
  {
    hide NameRun, IsTail;
    if |s| < 2 || s[0] != '.' || !IsName(s[1]) {
      assert s[..0] == "";
      NoTail();
    } else {
      var n := 1 + NameRun(s[1..]);
      NameStarts(s[1..]);
      var rest := s[n..];
      GroupRunTail(rest);
      assert s[..n + GroupRun(rest)] == s[..n] + rest[..GroupRun(rest)];
      forall k | 1 <= k < n
        ensures IsName(s[..n][k])
      {
        assert s[1..][k - 1] == s[k];
      }
      TailJoin(s[..n], rest[..GroupRun(rest)]);
    }
  }

  lemma NoTail()
    ensures IsTail("")
  {
  }

  lemma TailJoin(a: string, g: string)
    requires 1 < |a| && a[0] == '.' && (forall k :: 1 <= k < |a| ==> IsName(a[k])) && IsTail(g)
    ensures IsTail(a + g)
  {
    TailFacts(g);
    var s := a + g;
    forall k | 0 <= k < |s|
      ensures IsName(s[k]) || s[k] == '.'
      ensures s[k] == '.' ==> k + 1 < |s| && IsName(s[k + 1])
    {
      if k >= |a| {
        assert s[k] == g[k - |a|];
        assert g[k - |a|] == '.' ==> s[k + 1] == g[k - |a| + 1];
      } else {
        assert s[k] == a[k];
      }
    }
  }

  lemma RefRunDotted(s: string)
    ensures RefRun(s) > 0 ==> IsDotted(s[..RefRun(s)])
  {
    hide NameRun, GroupRun, IsTail;
    if RefRun(s) > 0 {
      var n := 1 + NameRun(s[1..]);
      var rest := s[n..];
      GroupRunTail(rest);
      assert s[..n + GroupRun(rest)] == s[..n] + rest[..GroupRun(rest)];
      forall k | 0 <= k < n
        ensures IsName(s[..n][k])
      {
        assert k > 0 ==> s[1..][k - 1] == s[k];
      }
      DottedJoin(s[..n], rest[..GroupRun(rest)]);
    }
  }

  lemma DottedJoin(a: string, g: string)
    requires a != "" && IsStart(a[0]) && (forall k :: 0 <= k < |a| ==> IsName(a[k])) && IsTail(g)
    ensures IsDotted(a + g)
  {
    hide IsStart, IsName;
    TailFacts(g);
    NoDot();
    var s := a + g;
    forall k | 0 <= k < |s|
      ensures IsName(s[k]) || s[k] == '.'
      ensures s[k] == '.' ==> k + 1 < |s| && IsName(s[k + 1])
    {
      if k >= |a| {
        assert s[k] == g[k - |a|];
        assert g[k - |a|] == '.' ==> s[k + 1] == g[k - |a| + 1];
      } else {
        assert s[k] == a[k];
      }
    }
  }

  lemma NoDot()
    ensures !IsName('.')
  {
  }

  /** Every placeholder is found, whatever white space it has and whatever follows it. */
  lemma PlaceholderMatches(u: string, r: string, w: string, rest: string)
    requires Blank(u) && IsDotted(r) && Blank(w)
    ensures MatchAt(Placeholder(u, r, w) + rest) == Some(Match(r, |u| + |r| + |w| + 4))
  {
    hide SpaceRun, RefRun, MatchAt;
    var tail := "}}" + rest;
    var s := "{{" + u + r + w + tail;
    Pieces(u, r, w, tail);
    SpaceRunOver(u, r + (w + tail));
    RefRunOver(r, w + tail);
    SpaceRunOver(w, tail);
    assert Placeholder(u, r, w) + rest == s;
    MatchBetween(s, 2 + |u|, 2 + |u| + |r|, 2 + |u| + |r| + |w|);
  }

  lemma Pieces(u: string, r: string, w: string, tail: string)
    requires |tail| >= 2
    ensures var s, a := "{{" + u + r + w + tail, 2 + |u|;
            var b, e := a + |r|, a + |r| + |w|;
            && |s| >= e + 2 && s[..2] == "{{" && s[2..] == u + (r + (w + tail)) && s[a..] == r + (w + tail)
            && s[b..] == w + tail && s[a..b] == r && s[e..e + 2] == tail[..2]
  {
  }

  lemma MatchBetween(s: string, a: nat, b: nat, e: nat)
    requires 2 <= a < b <= e && e + 2 <= |s| && s[..2] == "{{" && s[e..e + 2] == "}}"
    requires SpaceRun(s[2..]) == a - 2 && RefRun(s[a..]) == b - a && SpaceRun(s[b..]) == e - b
    ensures MatchAt(s) == Some(Match(s[a..b], e + 2))
  {
    hide SpaceRun, RefRun;
    assert s[0] == s[..2][0] && s[1] == s[..2][1];
    assert s[e] == s[e..e + 2][0] && s[e + 1] == s[e..e + 2][1];
  }

  lemma Cut(a: string, b: string)
    ensures |a + b| == |a| + |b| && (a + b)[..|a|] == a && (a + b)[|a|..] == b
  {
  }

  lemma SpaceRunOver(u: string, rest: string)
    requires Blank(u) && rest != "" && (IsStart(rest[0]) || rest[0] == '}')
    ensures SpaceRun(u + rest) == |u|
  {
    Cut(u, rest);
    SpaceRunIs(u + rest, |u|);
  }

  lemma RefRunOver(r: string, rest: string)
    requires IsDotted(r) && rest != "" && (IsSpace(rest[0]) || rest[0] == '}')
    ensures RefRun(r + rest) == |r|
  {
    Cut(r, rest);
    RefRunIs(r + rest, |r|);
  }

  /** Whatever is found is a placeholder. */
  lemma OnlyPlaceholdersMatch(s: string) returns (u: string, w: string)
    requires MatchAt(s).Some?
    ensures var m := MatchAt(s).value;
            && Blank(u) && IsDotted(m.ref) && Blank(w)
            && s == Placeholder(u, m.ref, w) + s[m.length..] && m.length == |u| + |m.ref| + |w| + 4
  {
    hide SpaceRun, RefRun, MatchAt, IsDotted;
    MatchEnds(s);
    var a := 2 + SpaceRun(s[2..]);
    var b := a + RefRun(s[a..]);
    var e := b + SpaceRun(s[b..]);
    u, w := s[2..a], s[b..e];
    assert s[2..][..a - 2] == u && s[b..][..e - b] == w && s[a..][..b - a] == s[a..b];
    RefRunDotted(s[a..]);
    MatchHasRef(s);
    SpacesBlank(s[2..]);
    SpacesBlank(s[b..]);
    assert s == s[..2] + u + s[a..b] + w + s[e..e + 2] + s[e + 2..];
  }

  lemma MatchHasRef(s: string)
    requires MatchAt(s).Some?
    ensures RefRun(s[2 + SpaceRun(s[2..])..]) > 0
  {
    hide SpaceRun, RefRun;
  }

  lemma SpacesBlank(s: string)
    ensures Blank(s[..SpaceRun(s)])
  {
  }

  ghost predicate StartsPlaceholder(s: string) {
    exists u, r, w :: Placeholder(u, r, w) <= s && Blank(u) && IsDotted(r) && Blank(w)
  }

  lemma MatchExactly(s: string)
    ensures MatchAt(s).Some? <==> StartsPlaceholder(s)
  {
    hide MatchAt, IsDotted, Blank;
    if MatchAt(s).Some? {
      var u, w := OnlyPlaceholdersMatch(s);
    }
    if u, r, w :| Placeholder(u, r, w) <= s && Blank(u) && IsDotted(r) && Blank(w) {
      var rest := s[|Placeholder(u, r, w)|..];
      assert s == Placeholder(u, r, w) + rest;
      PlaceholderMatches(u, r, w, rest);
    }
  }

  type Resolver = string -> Option<string>

  /** Every placeholder replaced, left to right; nothing when one does not resolve. */
  function Expand(s: string, resolve: Resolver): Option<string>
    decreases |s|
  {
    if s == "" then Some("") else
      var m := MatchAt(s);
      var head := if m.Some? then resolve(m.value.ref) else Some(s[..1]);
      var rest := Expand(s[if m.Some? then m.value.length else 1..], resolve);
      if head.None? || rest.None? then None else Some(head.value + rest.value)
  }

  predicate HasBraces(s: string) {
    exists i :: 0 <= i < |s| - 1 && s[i] == '{' && s[i + 1] == '{'
  }

  lemma MatchBraces(s: string)
    ensures MatchAt(s).Some? ==> HasBraces(s)
  {
    if MatchAt(s).Some? {
      assert s[0] == '{' && s[0 + 1] == '{';
    }
  }

  lemma {:induction false} NoBracesNoChange(s: string, resolve: Resolver)
    requires !HasBraces(s)
    ensures Expand(s, resolve) == Some(s)
    decreases |s|
  {
    if s != "" {
      MatchBraces(s);
      assert !HasBraces(s[1..]) by {
        forall i | 0 <= i < |s[1..]| - 1
          ensures !(s[1..][i] == '{' && s[1..][i + 1] == '{')
        {
          assert s[1..][i] == s[i + 1] && s[1..][i + 1] == s[i + 1 + 1];
        }
      }
      NoBracesNoChange(s[1..], resolve);
      assert s[..1] + s[1..] == s;
    }
  }

  /** A text that does not start with a brace keeps its first character. */
  lemma KeepFirst(s: string, resolve: Resolver)
    requires s != "" && s[0] != '{'
    ensures Expand(s, resolve) ==
            if Expand(s[1..], resolve).None? then None else Some([s[0]] + Expand(s[1..], resolve).value)
  {
    assert s[..1] == [s[0]];
  }

  lemma {:induction false} KeepSome(a: string, b: string, resolve: Resolver)
    requires forall i :: 0 <= i < |a| ==> a[i] != '{'
    ensures Expand(a + b, resolve) ==
            if Expand(b, resolve).None? then None else Some(a + Expand(b, resolve).value)
    decreases |a|
  {
    hide Expand;
    if a == "" {
      assert a + b == b;
      if Expand(b, resolve).Some? {
        assert a + Expand(b, resolve).value == Expand(b, resolve).value;
      }
    } else {
      KeepSome(a[1..], b, resolve);
      KeepFirst(a + b, resolve);
      assert (a + b)[1..] == a[1..] + b;
      if Expand(b, resolve).Some? {
        assert [a[0]] + (a[1..] + Expand(b, resolve).value) == a + Expand(b, resolve).value;
      }
    }
  }

  /** No placeholder starts in the first `n` characters. */
  ghost predicate PlainUpTo(s: string, n: nat) {
    n <= |s| && forall i :: 0 <= i < n ==> !StartsPlaceholder(s[i..])
  }

  /** Characters before the first placeholder stay. */
  lemma {:induction false} ExpandPlain(s: string, n: nat, resolve: Resolver)
    requires PlainUpTo(s, n)
    ensures Expand(s, resolve) == Concat(Some(s[..n]), Expand(s[n..], resolve))
    decreases n
  {
    hide MatchAt, StartsPlaceholder, Expand, Concat, PlainUpTo;
    PlainFits(s, n);
    if n == 0 {
      assert s[0..] == s && s[..0] == "";
      ConcatNothing(Expand(s, resolve));
    } else {
      var rest := s[1..];
      PlainFirst(s, n);
      ExpandStep(s, resolve);
      ExpandPlain(rest, n - 1, resolve);
      assert rest[n - 1..] == s[n..] && s[..1] + rest[..n - 1] == s[..n];
      ConcatNext(s[..1], Some(rest[..n - 1]), Expand(s[n..], resolve));
    }
  }

  lemma PlainFits(s: string, n: nat)
    requires PlainUpTo(s, n)
    ensures n <= |s|
  {
    hide StartsPlaceholder;
  }

  lemma PlainFirst(s: string, n: nat)
    requires n > 0 && PlainUpTo(s, n)
    ensures |s| >= n && MatchAt(s).None? && PlainUpTo(s[1..], n - 1)
  {
    hide MatchAt, StartsPlaceholder;
    assert s[0..] == s;
    MatchExactly(s);
    forall i | 0 <= i < n - 1
      ensures !StartsPlaceholder(s[1..][i..])
    {
      assert s[1..][i..] == s[i + 1..];
    }
  }

  /** The leftmost placeholder is replaced by what its reference resolves to; the text before it stays, and the
      text after it is expanded on its own. */
  lemma ExpandLeftmost(a: string, u: string, r: string, w: string, b: string, resolve: Resolver)
    requires PlainUpTo(a + (Placeholder(u, r, w) + b), |a|) && Blank(u) && IsDotted(r) && Blank(w)
    ensures Expand(a + (Placeholder(u, r, w) + b), resolve)
            == Concat(Some(a), Concat(resolve(r), Expand(b, resolve)))
  {
    hide MatchAt, StartsPlaceholder, IsDotted, Blank, Expand, Concat;
    var p := Placeholder(u, r, w);
    var s := a + (p + b);
    ExpandPlain(s, |a|, resolve);
    Cut(a, p + b);
    PlaceholderMatches(u, r, w, b);
    ExpandStep(p + b, resolve);
    Cut(p, b);
  }

  /** A text in which no placeholder starts stays as it is. */
  lemma ExpandNothing(s: string, resolve: Resolver)
    requires PlainUpTo(s, |s|)
    ensures Expand(s, resolve) == Some(s)
  {
    hide PlainUpTo;
    ExpandPlain(s, |s|, resolve);
    assert s[|s|..] == "" && s[..|s|] + "" == s;
  }

  /** Scan left to right, replacing each placeholder met. The first reference that does not resolve is
      remembered, the scan goes on, and in the end there is no text. */
  method ExpandTemplates(s: string, resolve: Resolver) returns (r: Option<string>)
    ensures r == Expand(s, resolve)
  {
    hide MatchAt, Expand;
    var text, failed, i := "", false, 0;
    assert s[0..] == s;
    ConcatNothing(Expand(s, resolve));
    while i < |s|
      invariant 0 <= i <= |s|
      invariant Concat(if failed then None else Some(text), Expand(s[i..], resolve)) == Expand(s, resolve)
    {
      ExpandStep(s[i..], resolve);
      var m := MatchAt(s[i..]);
      MatchFits(s[i..]);
      var head := if m.Some? then resolve(m.value.ref) else Some(s[i..][..1]);
      var n := if m.Some? then m.value.length else 1;
      assert s[i..][n..] == s[i + n..];
      ConcatNext(text, head, Expand(s[i + n..], resolve));
      if head.None? {
        failed := true;
      } else {
        text := text + head.value;
      }
      i := i + n;
    }
    ExpandStep("", resolve);
    assert s[|s|..] == "" && text + "" == text;
    return if failed then None else Some(text);
  }

  lemma ConcatNothing(rest: Option<string>)
    ensures Concat(Some(""), rest) == rest
  {
    if rest.Some? {
      assert "" + rest.value == rest.value;
    }
  }

  lemma ConcatNext(text: string, head: Option<string>, rest: Option<string>)
    ensures Concat(Some(text), Concat(head, rest)) == Concat(if head.None? then None else Some(text + head.value), rest)
    ensures Concat(None, Concat(head, rest)) == None
  {
    if head.Some? && rest.Some? {
      assert text + (head.value + rest.value) == text + head.value + rest.value;
    }
  }

  lemma ExpandStep(s: string, resolve: Resolver)
    ensures Expand(s, resolve) ==
            if s == "" then Some("") else
              var m := MatchAt(s);
              Concat(if m.Some? then resolve(m.value.ref) else Some(s[..1]),
                   Expand(s[if m.Some? then m.value.length else 1..], resolve))
  {
    hide MatchAt;
  }

  lemma MatchFits(s: string)
    ensures MatchAt(s).Some? ==> 5 <= MatchAt(s).value.length <= |s|
  {
  }
}
