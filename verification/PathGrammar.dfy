/** The grammar of a path (internal/eval/jsonpath.go), apart from the scanner that reads it: how each segment may be
    written, that exactly the paths so written are read, and where a segment leads. */
module PathGrammar {
  import opened Options
  import opened JsonPath

  // ---------------------------------------------------------------- characters

  /** In ASCII. */
  lemma CharactersAre(c: char)
    ensures IsIdentByte(c) <==> c as int in {45, 95} || 48 <= c as int <= 57 || 65 <= c as int <= 90
                                || 97 <= c as int <= 122
    ensures IsDigit(c) <==> 48 <= c as int <= 57
    ensures IsSpace(c) <==> 9 <= c as int <= 13 || c as int == 32
    ensures IsNumberChar(c) <==> 48 <= c as int <= 57 || c as int in {43, 45, 46, 69, 101}
  {
  }

  // ---------------------------------------------------------------- indexes

  function Power(n: nat): nat {
    if n == 0 then 1 else 10 * Power(n - 1)
  }

  lemma DigitAlone(c: char)
    requires IsDigit(c)
    ensures AllDigits([c]) && Digits([c]) == c as int - 48
  {
    assert [c][..0] == "" && Digits("") == 0;
  }

  lemma LastDigit(s: string, c: char)
    requires AllDigits(s) && IsDigit(c)
    ensures AllDigits(s + [c]) && Digits(s + [c]) == Digits(s) * 10 + (c as int - 48)
  {
    assert (s + [c])[..|s|] == s;
  }

  /** A digit is worth its distance from zero, and ten times as much for each digit after it. */
  lemma {:induction false} DigitsAre(s: string, c: char)
    requires AllDigits(s) && IsDigit(c)
    ensures AllDigits([c] + s) && Digits([c] + s) == (c as int - 48) * Power(|s|) + Digits(s)
    decreases |s|
  {
    hide Digits, IsDigit;
    if s == "" {
      DigitAlone(c);
      NoDigits();
      assert [c] + s == [c];
    } else {
      var init, last := s[..|s| - 1], s[|s| - 1];
      DigitsAre(init, c);
      LastDigit(init, last);
      LastDigit([c] + init, last);
      assert init + [last] == s && [c] + init + [last] == [c] + s;
      TenTimes(c as int - 48, Power(|init|));
    }
  }

  lemma NoDigits()
    ensures Digits("") == 0
  {
  }

  lemma TenTimes(a: int, p: int)
    ensures a * p * 10 == a * (10 * p)
  {
  }

  /** A decimal integer is its digits, with or without a sign, and nothing else is one; it must fit 64 bits. */
  predicate IsInteger(s: string, n: int) {
    && -9_223_372_036_854_775_808 <= n <= 9_223_372_036_854_775_807
    && ((s != "" && AllDigits(s) && n == Digits(s))
        || (s != "" && s[0] == '+' && s[1..] != "" && AllDigits(s[1..]) && n == Digits(s[1..]))
        || (s != "" && s[0] == '-' && s[1..] != "" && AllDigits(s[1..]) && n == 0 - Digits(s[1..])))
  }

  lemma AtoiExactly(s: string, n: int)
    ensures Atoi(s) == Some(n) <==> IsInteger(s, n)
  {
    hide Digits;
    if s != "" && AllDigits(s) {
      assert IsDigit(s[0]);
    }
  }

  predicate Blank(s: string) {
    forall k :: 0 <= k < |s| ==> IsSpace(s[k])
  }

  /** White space on either side is trimmed, and none within. */
  lemma {:induction false} Trimmed(u: string, s: string, w: string)
    requires Blank(u) && Blank(w) && (s != "" ==> !IsSpace(s[0]) && !IsSpace(s[|s| - 1]))
    ensures TrimSpace(u + s + w) == s
    decreases |u|
  {
    hide IsSpace;
    if u != "" {
      var all := u + s + w;
      assert all[1..] == u[1..] + s + w && all[0] == u[0];
      Trimmed(u[1..], s, w);
    } else {
      assert u + s + w == s + w;
      if s == "" {
        assert s + w == w;
        BlankLeft(w);
      } else {
        assert TrimLeft(s + w) == s + w;
        TrimmedRight(s, w);
      }
    }
  }

  lemma {:induction false} BlankLeft(w: string)
    requires Blank(w)
    ensures TrimLeft(w) == "" && TrimSpace(w) == ""
    decreases |w|
  {
    if w != "" {
      BlankLeft(w[1..]);
    }
  }

  lemma {:induction false} TrimmedRight(s: string, w: string)
    requires s != "" && !IsSpace(s[|s| - 1]) && Blank(w)
    ensures TrimRight(s + w) == s
    decreases |w|
  {
    hide IsSpace;
    if w == "" {
      assert s + w == s;
    } else {
      var all := s + w;
      assert all[|all| - 1] == w[|w| - 1] && all[..|all| - 1] == s + w[..|w| - 1];
      TrimmedRight(s, w[..|w| - 1]);
    }
  }

  /** What is left stands between the white space of either side. */
  lemma TrimLeaves(t: string) returns (u: string, w: string)
    ensures var s := TrimSpace(t);
            && t == u + s + w && Blank(u) && Blank(w) && (s != "" ==> !IsSpace(s[0]) && !IsSpace(s[|s| - 1]))
  {
    hide IsSpace;
    u := LeftLeaves(t);
    w := RightLeaves(TrimLeft(t));
    assert u + TrimSpace(t) + w == u + (TrimSpace(t) + w);
    var l, s := TrimLeft(t), TrimSpace(t);
    assert s != "" ==> s[0] == l[0];
  }

  lemma {:induction false} LeftLeaves(t: string) returns (u: string)
    ensures t == u + TrimLeft(t) && Blank(u) && (TrimLeft(t) != "" ==> !IsSpace(TrimLeft(t)[0]))
    decreases |t|
  {
    hide IsSpace;
    u := "";
    if t != "" && IsSpace(t[0]) {
      var more := LeftLeaves(t[1..]);
      u := [t[0]] + more;
      assert t == [t[0]] + t[1..];
    }
  }

  lemma {:induction false} RightLeaves(t: string) returns (w: string)
    ensures var r := TrimRight(t); t == r + w && Blank(w) && (r != "" ==> !IsSpace(r[|r| - 1]))
    decreases |t|
  {
    hide IsSpace;
    w := "";
    if t != "" && IsSpace(t[|t| - 1]) {
      var more := RightLeaves(t[..|t| - 1]);
      w := more + [t[|t| - 1]];
      assert t == t[..|t| - 1] + [t[|t| - 1]];
    }
  }

  // ---------------------------------------------------------------- segments

  predicate IsQuote(q: char) {
    q == '\'' || q == '"'
  }

  /** The ways to write a segment: a key after a dot, a key in quotes and brackets, or an index in brackets, with
      white space around it or not. */
  ghost predicate Spells(t: string, s: Seg) {
    if s.Key? then
      || (t == "." + s.name && s.name != "" && forall k :: 0 <= k < |s.name| ==> IsIdentByte(s.name[k]))
      || (exists q :: IsQuote(q) && q !in s.name && t == "[" + ([q] + s.name + [q]) + "]")
    else
      exists u, d, w :: t == Bracketed(u, d, w) && Blank(u) && Blank(w) && IsInteger(d, s.at)
  }

  function Bracketed(u: string, d: string, w: string): string {
    "[" + (u + d + w) + "]"
  }

  lemma DotRead(k: string, rest: string)
    requires k != "" && (forall i :: 0 <= i < |k| ==> IsIdentByte(k[i])) && (rest != "" ==> rest[0] in {'.', '['})
    ensures var r := Segments(rest);
            Segments("." + k + rest) == if r.None? then None else Some([Key(k)] + r.value)
  {
    var s := "." + k + rest;
    assert s[1..] == k + rest;
    IdentLengthIs(k + rest, |k|);
    assert s[1..|k| + 1] == k && s[|k| + 1..] == rest;
  }

  lemma QuoteRead(q: char, k: string, rest: string)
    requires IsQuote(q) && q !in k
    ensures Bracket([q] + k + [q] + "]" + rest) == Some((Key(k), rest))
  {
    var s := [q] + k + [q] + "]" + rest;
    assert s[1..] == k + ([q] + "]" + rest);
    BeforeIs(s[1..], q, |k|);
    assert s[1..|k| + 1] == k && s[|k| + 2] == ']' && s[|k| + 3..] == rest;
  }

  lemma IndexRead(u: string, d: string, w: string, n: int, rest: string)
    requires Blank(u) && Blank(w) && IsInteger(d, n)
    ensures Bracket(u + d + w + "]" + rest) == Some((Index(n), rest))
  {
    hide Atoi, TrimSpace, IsInteger;
    var t := u + d + w;
    var s := t + "]" + rest;
    IntegerText(d, n);
    forall k | 0 <= k < |t|
      ensures t[k] != ']' && !IsQuote(t[k])
    {
      assert k < |u| ==> t[k] == u[k];
      assert |u| <= k < |u| + |d| ==> t[k] == d[k - |u|];
      assert |u| + |d| <= k ==> t[k] == w[k - |u| - |d|];
    }
    assert s[0] == t[0];
    BeforeIs(s, ']', |t|);
    assert s[..|t|] == t && s[|t| + 1..] == rest;
    Trimmed(u, d, w);
    AtoiExactly(d, n);
  }

  lemma IntegerText(d: string, n: int)
    requires IsInteger(d, n)
    ensures d != "" && forall k :: 0 <= k < |d| ==> IsDigit(d[k]) || d[k] in {'+', '-'}
  {
    hide Digits;
    forall k | 0 < k < |d|
      ensures IsDigit(d[k])
    {
      assert d[k] == d[1..][k - 1];
    }
  }

  lemma BracketRead(t: string, rest: string)
    requires t != "" && t[0] == '['
    ensures var b := Bracket((t + rest)[1..]);
            Segments(t + rest)
            == if b.None? || Segments(b.value.1).None? then None else Some([b.value.0] + Segments(b.value.1).value)
  {
    hide Bracket;
  }

  /** A segment however it is written is read as that segment, before whatever follows a segment. */
  lemma SegmentRead(t: string, s: Seg, rest: string)
    requires Spells(t, s) && (rest != "" ==> rest[0] in {'.', '['})
    ensures var r := Segments(rest); Segments(t + rest) == if r.None? then None else Some([s] + r.value)
    ensures t != "" && t[0] in {'.', '['}
  {
    hide Segments, Bracket, IsInteger, Blank, IsIdentByte;
    if s.Index? {
      var u, d, w :| t == Bracketed(u, d, w) && Blank(u) && Blank(w) && IsInteger(d, s.at);
      IndexSegment(u, d, w, s.at, rest);
    } else if t == "." + s.name && s.name != "" && forall k :: 0 <= k < |s.name| ==> IsIdentByte(s.name[k]) {
      DotRead(s.name, rest);
    } else {
      var q :| IsQuote(q) && q !in s.name && t == "[" + ([q] + s.name + [q]) + "]";
      QuoteSegment(q, s.name, rest);
    }
  }

  lemma IndexSegment(u: string, d: string, w: string, n: int, rest: string)
    requires Blank(u) && Blank(w) && IsInteger(d, n)
    ensures var r := Segments(rest);
            Segments(Bracketed(u, d, w) + rest) == if r.None? then None else Some([Index(n)] + r.value)
  {
    hide Segments, Bracket, IsInteger, Blank;
    var t := Bracketed(u, d, w);
    assert (t + rest)[1..] == u + d + w + "]" + rest;
    IndexRead(u, d, w, n, rest);
    BracketRead(t, rest);
  }

  lemma QuoteSegment(q: char, k: string, rest: string)
    requires IsQuote(q) && q !in k
    ensures var r := Segments(rest);
            Segments("[" + ([q] + k + [q]) + "]" + rest) == if r.None? then None else Some([Key(k)] + r.value)
  {
    hide Segments, Bracket, IsQuote;
    var t := "[" + ([q] + k + [q]) + "]";
    assert (t + rest)[1..] == [q] + k + [q] + "]" + rest;
    QuoteRead(q, k, rest);
    BracketRead(t, rest);
  }

  function Together(ts: seq<string>): string {
    if ts == [] then "" else ts[0] + Together(ts[1..])
  }

  /** The texts spell the segments, one for one. */
  ghost predicate SpellsAll(ts: seq<string>, segs: seq<Seg>) {
    |ts| == |segs| && forall i :: 0 <= i < |ts| ==> Spells(ts[i], segs[i])
  }

  /** Every path so written is read as its segments. */
  lemma {:induction false} SpelledIsRead(ts: seq<string>, segs: seq<Seg>)
    requires SpellsAll(ts, segs)
    ensures Parse("$" + Together(ts)) == Some(segs)
  {
    hide Segments, Spells;
    SegmentsRead(ts, segs);
    assert ("$" + Together(ts))[1..] == Together(ts);
  }

  lemma {:induction false} SegmentsRead(ts: seq<string>, segs: seq<Seg>)
    requires SpellsAll(ts, segs)
    ensures Segments(Together(ts)) == Some(segs)
    ensures Together(ts) != "" ==> Together(ts)[0] in {'.', '['}
    decreases |ts|
  {
    hide Segments, Spells;
    if ts == [] {
      NoSegmentLeft();
    } else {
      SegmentsRead(ts[1..], segs[1..]);
      SegmentRead(ts[0], segs[0], Together(ts[1..]));
      assert [segs[0]] + segs[1..] == segs;
    }
  }

  /** What a bracket is read as is how it is written. */
  lemma BracketSpelled(s: string) returns (t: string)
    requires Bracket(s).Some?
    ensures "[" + s == t + Bracket(s).value.1 && Spells(t, Bracket(s).value.0)
  {
    hide Atoi, TrimSpace, Before, IsInteger, Blank;
    if s != "" && IsQuote(s[0]) {
      var n, q := Before(s[1..], s[0]), s[0];
      var k := s[1..n + 1];
      t := "[" + ([q] + k + [q]) + "]";
      assert s[n + 1] == s[1..][n] == q;
      assert forall i :: 0 <= i < n ==> k[i] == s[1..][i];
      assert s == [q] + k + [q] + "]" + s[n + 3..];
    } else {
      var n := Before(s, ']');
      var d := TrimSpace(s[..n]);
      var u, w := TrimLeaves(s[..n]);
      t := Bracketed(u, d, w);
      AtoiExactly(d, Bracket(s).value.0.at);
      assert s == s[..n] + "]" + s[n + 1..];
    }
  }

  lemma DotSpelled(s: string) returns (t: string)
    requires s != "" && s[0] == '.' && Segments(s).Some?
    ensures Segments(s).value != [] && |t| <= |s| && t != "" && s == t + s[|t|..]
    ensures Spells(t, Segments(s).value[0]) && Segments(s[|t|..]) == Some(Segments(s).value[1..])
  {
    var n := IdentLength(s[1..]);
    t := s[..n + 1];
    assert t == "." + s[1..n + 1];
    assert s[n + 1..] == s[1..][n..];
  }

  /** Whatever is read is a path so written. */
  lemma {:induction false} ReadIsSpelled(path: string) returns (ts: seq<string>)
    requires Parse(path).Some?
    ensures path == "$" + Together(ts) && SpellsAll(ts, Parse(path).value)
  {
    hide Segments, Spells;
    ts := ReadSpelled(path[1..]);
    assert path == "$" + path[1..];
  }

  lemma {:induction false} ReadSpelled(s: string) returns (ts: seq<string>)
    requires Segments(s).Some?
    ensures s == Together(ts) && SpellsAll(ts, Segments(s).value)
    decreases |s|
  {
    hide Spells, Bracket, IdentLength;
    if s == "" {
      ts := [];
    } else {
      var t, rest;
      if s[0] == '.' {
        t := DotSpelled(s);
        rest := s[|t|..];
      } else {
        t := BracketSpelled(s[1..]);
        rest := Bracket(s[1..]).value.1;
        assert s == "[" + s[1..];
        assert Segments(s).value[1..] == Segments(rest).value;
      }
      var more := ReadSpelled(rest);
      ts := [t] + more;
      assert ts[1..] == more;
      var segs := Segments(s).value;
      forall i | 0 <= i < |ts|
        ensures Spells(ts[i], segs[i])
      {
        assert i > 0 ==> segs[i] == segs[1..][i - 1];
      }
    }
  }

  // ---------------------------------------------------------------- where a segment leads

  /** A key leads to the field of that name; an index to the item there, counted from the end when it is negative;
      and anything else leads nowhere. */
  lemma FollowTold(items: seq<Json>, fields: map<string, Json>, name: string, k: nat, j: Json)
    ensures Follow(Object(fields), Key(name)) == if name in fields then Some(fields[name]) else None
    ensures Follow(List(items), Index(k)) == if k < |items| then Some(items[k]) else None
    ensures 0 < k <= |items| ==> Follow(List(items), Index(0 - k)) == Some(items[|items| - k])
    ensures k > |items| ==> Follow(List(items), Index(0 - k)) == None
    ensures !j.Object? ==> Follow(j, Key(name)) == None
    ensures !j.List? ==> Follow(j, Index(k)) == Follow(j, Index(0 - k)) == None
  {
  }
}
