/** Word-level pieces within one pair of lines (internal/report/diff.go, `tokenize` and `words`). */
module Words {
  import opened Sequences
  import opened Lcs

  /** Beyond this many items on a side the two are reported as wholly replaced. */
  const DIFF_LIMIT := 3000

  /** A run of text within a line, marked when it is part of what changed. */
  datatype Piece = Piece(text: string, changed: bool)

  // ---------------------------------------------------------------- tokens

  predicate IsSpace(c: char) {
    c == ' ' || c == '\t'
  }

  /** A blank or a tab, in ASCII, and nothing else. */
  lemma SpacesAre(c: char)
    ensures IsSpace(c) <==> c as int in {9, 32}
  {
  }

  /** All word, or all whitespace, and not empty. */
  ghost predicate IsRun(t: string) {
    t != [] && forall k :: 0 <= k < |t| ==> IsSpace(t[k]) == IsSpace(t[0])
  }

  function Concat(ts: seq<string>): string {
    if ts == [] then "" else ts[0] + Concat(ts[1..])
  }

  /** Alternating runs that rejoin to the line. */
  ghost predicate IsTokenization(s: string, ts: seq<string>) {
    && Concat(ts) == s
    && (forall k :: 0 <= k < |ts| ==> IsRun(ts[k]))
    && (forall k :: 0 < k < |ts| ==> IsSpace(ts[k - 1][0]) != IsSpace(ts[k][0]))
  }

  /** How far the first run of s reaches. */
  function RunLength(s: string): (n: nat)
    ensures n <= |s| && (s != [] ==> n > 0 && IsRun(s[..n]))
    ensures n < |s| ==> IsSpace(s[n]) != IsSpace(s[0])
  {
    if |s| <= 1 then |s|
    else if IsSpace(s[1]) == IsSpace(s[0]) then 1 + RunLength(s[1..])
    else 1
  }

  function Tokens(s: string): seq<string> {
    if s == [] then [] else [s[..RunLength(s)]] + Tokens(s[RunLength(s)..])
  }

  lemma {:induction false} TokensTokenize(s: string)
    ensures IsTokenization(s, Tokens(s))
  {
    if s != [] {
      var n := RunLength(s);
      TokensTokenize(s[n..]);
      assert s == s[..n] + s[n..];
      var rest := Tokens(s[n..]);
      if rest != [] {
        assert rest[0] == s[n..][..RunLength(s[n..])];
        assert rest[0][0] == s[n];
      }
    }
  }

  /** There is only one way to cut a line into alternating runs. */
  lemma {:induction false} TokenizationIsUnique(s: string, ts: seq<string>)
    requires IsTokenization(s, ts)
    ensures ts == Tokens(s)
  {
    hide IsTokenization, IsSpace, RunLength;
    if ts == [] {
      NoTokens(s);
    } else {
      var n := FirstToken(s, ts);
      TokenizationIsUnique(s[n..], ts[1..]);
      assert ts == [ts[0]] + ts[1..];
    }
  }

  lemma NoTokens(s: string)
    requires IsTokenization(s, [])
    ensures s == ""
  {
  }

  /** The first token of a tokenization is the first run, and the rest are of the rest. */
  lemma FirstToken(s: string, ts: seq<string>) returns (n: nat)
    requires IsTokenization(s, ts) && ts != []
    ensures s != "" && n == RunLength(s) && ts[0] == s[..n] && IsTokenization(s[n..], ts[1..])
  {
    hide IsSpace, RunLength;
    n := |ts[0]|;
    var rest := Concat(ts[1..]);
    assert s == ts[0] + rest;
    DropInto(ts[0], rest, n);
    assert ts[0][n..] == "" && ts[0][..n] == ts[0] && "" + rest == rest;
    if n < |s| {
      SecondToken(s, ts);
    }
    FirstRun(s, n);
  }

  lemma SecondToken(s: string, ts: seq<string>)
    requires IsTokenization(s, ts) && ts != [] && |ts[0]| < |s|
    ensures IsSpace(s[|ts[0]|]) != IsSpace(s[0])
  {
    hide IsSpace;
    var rest := Concat(ts[1..]);
    assert s == ts[0] + rest;
    assert ts[1..] != [];
    assert ts[1..][0] == ts[1] && rest == ts[1] + Concat(ts[1..][1..]);
    assert s[|ts[0]|] == rest[0] == ts[1][0] && s[0] == ts[0][0];
  }

  /** A run that ends at the end of the line or before a change of class is the first run. */
  lemma FirstRun(s: string, n: nat)
    requires 0 < n <= |s| && IsRun(s[..n])
    requires n < |s| ==> IsSpace(s[n]) != IsSpace(s[0])
    ensures RunLength(s) == n
  {
    hide IsRun;
    var m := RunLength(s);
    if m < n {
      RunAt(s, n, m);
    } else if n < m {
      RunAt(s, m, n);
    }
  }

  lemma RunAt(s: string, n: nat, k: nat)
    requires k < n <= |s| && IsRun(s[..n])
    ensures IsSpace(s[k]) == IsSpace(s[0])
  {
    assert s[..n][k] == s[k] && s[..n][0] == s[0];
  }

  lemma {:induction false} ConcatSnoc(ts: seq<string>, t: string)
    ensures Concat(ts + [t]) == Concat(ts) + t
  {
    if ts != [] {
      ConcatSnoc(ts[1..], t);
      assert (ts + [t])[1..] == ts[1..] + [t];
    }
  }

  /** Cutting the run s[start..i] off after the tokens of s[..start]. */
  lemma CutRun(s: string, out: seq<string>, start: nat, i: nat)
    requires start < i <= |s|
    requires IsTokenization(s[..start], out) && IsRun(s[start..i])
    requires out != [] ==> IsSpace(out[|out| - 1][0]) != IsSpace(s[start])
    ensures IsTokenization(s[..i], out + [s[start..i]])
  {
    ConcatSnoc(out, s[start..i]);
    assert s[..i] == s[..start] + s[start..i];
  }

  method Tokenize(s: string) returns (out: seq<string>)
    ensures out == Tokens(s)
    ensures IsTokenization(s, out)
  {
    out := [];
    var start := 0;
    var first, prevSpace := true, false;
    assert s[..0] == "" && s[..|s|] == s;
    for i := 0 to |s|
      invariant first <==> i == 0
      invariant if first then start == 0 && out == [] else start < i && prevSpace == IsSpace(s[start])
      invariant start <= i && (!first ==> IsRun(s[start..i]))
      invariant IsTokenization(s[..start], out)
      invariant out != [] ==> IsSpace(out[|out| - 1][0]) != prevSpace
    {
      var space := IsSpace(s[i]);
      assert s[start..i + 1] == s[start..i] + [s[i]];
      if first {
        first, prevSpace := false, space;
      } else if space != prevSpace {
        CutRun(s, out, start, i);
        out := out + [s[start..i]];
        start, prevSpace := i, space;
      }
    }
    if start < |s| {
      CutRun(s, out, start, |s|);
      assert s[start..|s|] == s[start..];
      out := out + [s[start..]];
    }
    TokenizationIsUnique(s, out);
  }

  // ---------------------------------------------------------------- pieces

  /** Append text, extending the last piece when it is marked the same way. */
  function Push(dst: seq<Piece>, text: string, changed: bool): seq<Piece> {
    var n := |dst|;
    if n > 0 && dst[n - 1].changed == changed
    then dst[n - 1 := Piece(dst[n - 1].text + text, changed)]
    else dst + [Piece(text, changed)]
  }

  /** Whether an edit shows on one side. */
  predicate Shows(e: Edit<string>, left: bool) {
    if left then !e.Insert? else !e.Drop?
  }

  /** What a script shows on one side, one piece a token. */
  function Marks(s: seq<Edit<string>>, left: bool): seq<Piece> {
    if s == [] then []
    else if Shows(s[0], left) then [Piece(s[0].item, !s[0].Keep?)] + Marks(s[1..], left)
    else Marks(s[1..], left)
  }

  function PushAll(dst: seq<Piece>, ps: seq<Piece>): seq<Piece>
    decreases ps
  {
    if ps == [] then dst else PushAll(Push(dst, ps[0].text, ps[0].changed), ps[1..])
  }

  /** The text of all pieces, or of the unmarked ones only. */
  function Show(ps: seq<Piece>, all: bool): string {
    if ps == [] then "" else
      var p := ps[|ps| - 1];
      Show(ps[..|ps| - 1], all) + (if all || !p.changed then p.text else "")
  }

  /** The line a list of pieces shows. */
  function Text(ps: seq<Piece>): string { Show(ps, true) }

  /** The text a list of pieces leaves unmarked. */
  function Unmarked(ps: seq<Piece>): string { Show(ps, false) }

  /** Neighbouring pieces are marked differently, so no run is split in two. */
  ghost predicate Merged(ps: seq<Piece>) {
    forall k :: 0 < k < |ps| ==> ps[k - 1].changed != ps[k].changed
  }

  lemma PushShows(ps: seq<Piece>, text: string, changed: bool, all: bool)
    ensures Show(Push(ps, text, changed), all) == Show(ps, all) + (if all || !changed then text else "")
    ensures Merged(ps) ==> Merged(Push(ps, text, changed))
  {
    var r := Push(ps, text, changed);
    if |r| == |ps| {
      assert r[..|r| - 1] == ps[..|ps| - 1];
    } else {
      assert r[..|r| - 1] == ps;
    }
  }

  /** The texts of a list of tokens or marks, from the front. */
  function Flat(ps: seq<Piece>, all: bool): string {
    if ps == [] then "" else (if all || !ps[0].changed then ps[0].text else "") + Flat(ps[1..], all)
  }

  lemma {:induction false} PushAllShows(dst: seq<Piece>, ps: seq<Piece>, all: bool)
    ensures Show(PushAll(dst, ps), all) == Show(dst, all) + Flat(ps, all)
    ensures Merged(dst) ==> Merged(PushAll(dst, ps))
    decreases ps
  {
    if ps != [] {
      var text, changed := ps[0].text, ps[0].changed;
      PushShows(dst, text, changed, all);
      PushAllShows(Push(dst, text, changed), ps[1..], all);
      hide Show, Push, Merged;
      Assoc(Show(dst, all), if all || !changed then text else "", Flat(ps[1..], all));
    }
  }

  /** One side of a script shows that side's tokens, and leaves the kept ones unmarked. */
  lemma {:induction false} MarksShow(s: seq<Edit<string>>, left: bool)
    ensures Flat(Marks(s, left), true) == Concat(if left then LeftOf(s) else RightOf(s))
    ensures Flat(Marks(s, left), false) == Concat(KeptOf(s))
  {
    if s != [] {
      MarksShow(s[1..], left);
    }
  }

  /** The pieces of a pair of lines: aligned token by token, or wholly marked past the limit. */
  function WordPieces(left: string, right: string): (seq<Piece>, seq<Piece>) {
    var a, b := Tokens(left), Tokens(right);
    if |a| > DIFF_LIMIT || |b| > DIFF_LIMIT then ([Piece(left, true)], [Piece(right, true)])
    else (PushAll([], Marks(Script(a, b), true)), PushAll([], Marks(Script(a, b), false)))
  }

  lemma SideRejoins(s: seq<Edit<string>>, left: bool)
    ensures var r := PushAll([], Marks(s, left));
            && Text(r) == Concat(if left then LeftOf(s) else RightOf(s))
            && Unmarked(r) == Concat(KeptOf(s)) && Merged(r)
  {
    MarksShow(s, left);
    PushAllShows([], Marks(s, left), true);
    PushAllShows([], Marks(s, left), false);
  }

  lemma WholeLine(line: string)
    ensures var r := [Piece(line, true)]; Text(r) == line && Unmarked(r) == "" && Merged(r)
    ensures Unmarked([]) == ""
  {
    var r := [Piece(line, true)];
    assert r[..0] == [] && Show([], true) == "" && Show([], false) == "";
    Assoc("", line, "");
  }

  /** A word diff rejoins to the line on each side, in either mode, and the unmarked text is the
      same on both. Lines of at most 3000 tokens each are aligned, and it is what the best alignment of the
      tokens keeps; any others are wholly marked. */
  lemma WordPiecesRejoin(left: string, right: string)
    ensures var (l, r) := WordPieces(left, right);
            && Text(l) == left && Text(r) == right && Unmarked(l) == Unmarked(r) && Merged(l) && Merged(r)
            && Unmarked(l) == if |Tokens(left)| <= 3000 && |Tokens(right)| <= 3000
                              then Concat(KeptOf(Script(Tokens(left), Tokens(right)))) else ""
  {
    var a, b := Tokens(left), Tokens(right);
    WholeLine(left);
    WholeLine(right);
    TokensTokenize(left);
    TokensTokenize(right);
    ScriptSides(a, b);
    SideRejoins(Script(a, b), true);
    SideRejoins(Script(a, b), false);
    hide Script, Tokens, Marks, PushAll, Flat, Show, Merged;
  }

  /** One step of the walk at (i, j), on one side. */
  lemma MarkAt(a: seq<string>, b: seq<string>, i: nat, j: nat, dst: seq<Piece>, left: bool)
    requires i <= |a| && j <= |b| && (i < |a| || j < |b|)
    ensures var e := Next(a[i..], b[j..]);
            PushAll(dst, Marks(Script(a[i..], b[j..]), left)) ==
              PushAll(if Shows(e, left) then Push(dst, e.item, !e.Keep?) else dst,
                      Marks(Script(RestLeft(e, a[i..]), RestRight(e, b[j..])), left))
  {
    hide Next, Length, Push;
    var e := Next(a[i..], b[j..]);
    var rest := Script(RestLeft(e, a[i..]), RestRight(e, b[j..]));
    assert Script(a[i..], b[j..]) == [e] + rest;
    assert ([e] + rest)[1..] == rest;
  }

  /** What one side still has to show when the walk stands at (i, j). */
  function Pending(a: seq<string>, b: seq<string>, i: nat, j: nat, dst: seq<Piece>, left: bool): seq<Piece>
    requires i <= |a| && j <= |b|
  {
    PushAll(dst, Marks(Script(a[i..], b[j..]), left))
  }

  /** Where the walk starts, or does not. */
  lemma WalkStarts(left: string, right: string)
    ensures var a, b := Tokens(left), Tokens(right);
            WordPieces(left, right) ==
              if |a| > DIFF_LIMIT || |b| > DIFF_LIMIT then ([Piece(left, true)], [Piece(right, true)])
              else (Pending(a, b, 0, 0, [], true), Pending(a, b, 0, 0, [], false))
  {
    hide Tokens, Script, Marks, PushAll;
    assert Tokens(left)[0..] == Tokens(left) && Tokens(right)[0..] == Tokens(right);
  }

  /** One step of the walk, as the loop takes it. */
  lemma WalkAt(a: seq<string>, b: seq<string>, i: nat, j: nat, lp: seq<Piece>, rp: seq<Piece>)
    requires i < |a| && j < |b|
    ensures var (l, r) := (Pending(a, b, i, j, lp, true), Pending(a, b, i, j, rp, false));
            if a[i] == b[j] then
              l == Pending(a, b, i + 1, j + 1, Push(lp, a[i], false), true) &&
              r == Pending(a, b, i + 1, j + 1, Push(rp, b[j], false), false)
            else if Length(a[i + 1..], b[j..]) >= Length(a[i..], b[j + 1..]) then
              l == Pending(a, b, i + 1, j, Push(lp, a[i], true), true) && r == Pending(a, b, i + 1, j, rp, false)
            else
              l == Pending(a, b, i, j + 1, lp, true) && r == Pending(a, b, i, j + 1, Push(rp, b[j], true), false)
  {
    NextAt(a, b, i, j);
    MarkAt(a, b, i, j, lp, true);
    MarkAt(a, b, i, j, rp, false);
    hide Length, Next, Push, PushAll, Marks, Script;
  }

  function AllChanged(texts: seq<string>): seq<Piece> {
    if texts == [] then [] else [Piece(texts[0], true)] + AllChanged(texts[1..])
  }

  lemma {:induction false} DrainedMarks(a: seq<string>, b: seq<string>)
    requires a == [] || b == []
    ensures Marks(Script(a, b), true) == AllChanged(a) && Marks(Script(a, b), false) == AllChanged(b)
    decreases |a| + |b|
  {
    if a != [] || b != [] {
      var e := Next(a, b);
      DrainedMarks(RestLeft(e, a), RestRight(e, b));
    }
  }

  /** Once a side runs out, what is left of the other is all marked. */
  lemma Drained(a: seq<string>, b: seq<string>, i: nat, j: nat, lp: seq<Piece>, rp: seq<Piece>)
    requires i <= |a| && j <= |b| && (i == |a| || j == |b|)
    ensures Pending(a, b, i, j, lp, true) == PushAll(lp, AllChanged(a[i..]))
    ensures Pending(a, b, i, j, rp, false) == PushAll(rp, AllChanged(b[j..]))
  {
    DrainedMarks(a[i..], b[j..]);
  }

  method PushRest(dst: seq<Piece>, texts: seq<string>, from: nat) returns (r: seq<Piece>)
    requires from <= |texts|
    ensures r == PushAll(dst, AllChanged(texts[from..]))
  {
    r := dst;
    for i := from to |texts|
      invariant PushAll(r, AllChanged(texts[i..])) == PushAll(dst, AllChanged(texts[from..]))
    {
      assert texts[i..][1..] == texts[i + 1..];
      hide Push;
      r := Push(r, texts[i], true);
    }
  }

  method WordDiff(left: string, right: string) returns (lp: seq<Piece>, rp: seq<Piece>)
    ensures (lp, rp) == WordPieces(left, right)
  {
    hide *;
    WalkStarts(left, right);
    var a := Tokenize(left);
    var b := Tokenize(right);
    if |a| > DIFF_LIMIT || |b| > DIFF_LIMIT {
      return [Piece(left, true)], [Piece(right, true)];
    }
    var table := Table(a, b);

    lp, rp := [], [];
    ghost var l, r := Pending(a, b, 0, 0, [], true), Pending(a, b, 0, 0, [], false);
    var i, j := 0, 0;
    while i < |a| && j < |b|
      invariant 0 <= i <= |a| && 0 <= j <= |b|
      invariant IsTable(table, a, b)
      invariant Pending(a, b, i, j, lp, true) == l && Pending(a, b, i, j, rp, false) == r
    {
      WalkAt(a, b, i, j, lp, rp);
      ReadTable(table, a, b, i + 1, j);
      ReadTable(table, a, b, i, j + 1);
      if a[i] == b[j] {
        lp := Push(lp, a[i], false);
        rp := Push(rp, b[j], false);
        i, j := i + 1, j + 1;
      } else if table[i + 1, j] >= table[i, j + 1] {
        lp := Push(lp, a[i], true);
        i := i + 1;
      } else {
        rp := Push(rp, b[j], true);
        j := j + 1;
      }
    }
    Drained(a, b, i, j, lp, rp);
    lp := PushRest(lp, a, i);
    rp := PushRest(rp, b, j);
  }
}
