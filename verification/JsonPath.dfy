/** The path subset that names a place in a JSON document (internal/eval/jsonpath.go): reading a path,
    printing one, and following one. Strings are taken byte by byte. */
module JsonPath {
  import opened Options

  predicate IsNumberChar(c: char) {
    '0' <= c <= '9' || c == '-' || c == '+' || c == '.' || c == 'e' || c == 'E'
  }

  /** What a number is written with. */
  predicate IsNumber(s: string) {
    s != "" && forall i :: 0 <= i < |s| ==> IsNumberChar(s[i])
  }

  type NumberText = s: string | IsNumber(s) witness "0"

  /** A decoded document; a number is held by the one text it is written with. */
  datatype Json =
    | Null
    | Bool(b: bool)
    | Number(literal: NumberText)
    | Text(text: string)
    | List(items: seq<Json>)
    | Object(fields: map<string, Json>)

  datatype Seg = Key(name: string) | Index(at: int)

  /** The range of Go's int on 64-bit platforms, which Atoi checks. */
  const MAX_INT := 0x7FFF_FFFF_FFFF_FFFF
  const MIN_INT := -0x8000_0000_0000_0000

  predicate IsIdentByte(c: char) {
    c == '_' || c == '-' || 'a' <= c <= 'z' || 'A' <= c <= 'Z' || '0' <= c <= '9'
  }

  predicate IsDigit(c: char) {
    '0' <= c <= '9'
  }

  predicate IsSpace(c: char) {
    c == ' ' || c == '\t' || c == '\n' || c == '\r' || c == 11 as char || c == 12 as char
  }

  // ---------------------------------------------------------------- numbers

  function Digits(s: string): nat
    requires forall i :: 0 <= i < |s| ==> IsDigit(s[i])
  {
    if s == "" then 0 else
      assert IsDigit(s[|s| - 1]);
      Digits(s[..|s| - 1]) * 10 + (s[|s| - 1] as int - '0' as int)
  }

  predicate AllDigits(s: string) {
    forall i :: 0 <= i < |s| ==> IsDigit(s[i])
  }

  /** A decimal integer with an optional sign, when it fits. */
  function Atoi(s: string): Option<int> {
    var signed := s != "" && (s[0] == '-' || s[0] == '+');
    var digits := if signed then s[1..] else s;
    if digits == "" || !AllDigits(digits) then None else
      var n: int := if signed && s[0] == '-' then 0 - Digits(digits) else Digits(digits);
      if MIN_INT <= n <= MAX_INT then Some(n) else None
  }

  function TrimLeft(s: string): string {
    if s != "" && IsSpace(s[0]) then TrimLeft(s[1..]) else s
  }

  function TrimRight(s: string): string {
    if s != "" && IsSpace(s[|s| - 1]) then TrimRight(s[..|s| - 1]) else s
  }

  function TrimSpace(s: string): string {
    TrimRight(TrimLeft(s))
  }

  function Decimal(n: nat): string {
    if n < 10 then [('0' as int + n) as char] else Decimal(n / 10) + [('0' as int + n % 10) as char]
  }

  function Itoa(n: int): string {
    if n < 0 then "-" + Decimal(-n) else Decimal(n)
  }

  lemma {:induction false} DecimalDigits(n: nat)
    ensures Decimal(n) != "" && AllDigits(Decimal(n)) && Digits(Decimal(n)) == n
  {
    if n >= 10 {
      DecimalDigits(n / 10);
      var s := Decimal(n);
      assert s[..|s| - 1] == Decimal(n / 10);
    } else {
      assert Decimal(n)[..0] == "";
    }
  }

  lemma ItoaAtoi(n: int)
    ensures Atoi(Itoa(n)) == if MIN_INT <= n <= MAX_INT then Some(n) else None
    ensures TrimSpace(Itoa(n)) == Itoa(n) && Itoa(n) != "" &&
            forall i :: 0 <= i < |Itoa(n)| ==> Itoa(n)[i] == '-' || IsDigit(Itoa(n)[i])
  {
    hide Digits, Decimal;
    var m := if n < 0 then -n else n;
    DecimalDigits(m);
    if n < 0 {
      assert Itoa(n)[1..] == Decimal(m);
    } else {
      assert IsDigit(Itoa(n)[0]);
    }
  }

  // ---------------------------------------------------------------- reading a path

  /** How many leading bytes are identifier bytes. */
  function IdentLength(s: string): (n: nat)
    ensures n <= |s| && (forall i :: 0 <= i < n ==> IsIdentByte(s[i])) && (n < |s| ==> !IsIdentByte(s[n]))
  {
    if s == "" || !IsIdentByte(s[0]) then 0 else 1 + IdentLength(s[1..])
  }

  /** How many bytes come before the first `c`, or all of them. */
  function Before(s: string, c: char): (n: nat)
    ensures n <= |s| && (forall i :: 0 <= i < n ==> s[i] != c) && (n < |s| ==> s[n] == c)
  {
    if s == "" || s[0] == c then 0 else 1 + Before(s[1..], c)
  }

  /** A bracket and what follows it; `s` starts after the opening bracket. */
  function Bracket(s: string): (r: Option<(Seg, string)>)
    ensures r.Some? ==> |r.value.1| < |s|
  {
    if s != "" && (s[0] == '\'' || s[0] == '"') then
      var n := Before(s[1..], s[0]);
      if n + 1 >= |s| then None
      else if n + 2 >= |s| || s[n + 2] != ']' then None
      else Some((Key(s[1..n + 1]), s[n + 3..]))
    else
      var n := Before(s, ']');
      if n >= |s| then None else
        var i := Atoi(TrimSpace(s[..n]));
        if i.None? then None else Some((Index(i.value), s[n + 1..]))
  }

  /** The segments of a path after its dollar sign. */
  function Segments(s: string): Option<seq<Seg>>
    decreases |s|
  {
    if s == "" then Some([])
    else if s[0] == '.' then
      var n := IdentLength(s[1..]);
      if n == 0 then None else
        var rest := Segments(s[n + 1..]);
        if rest.None? then None else Some([Key(s[1..n + 1])] + rest.value)
    else if s[0] == '[' then
      var b := Bracket(s[1..]);
      if b.None? then None else
        var rest := Segments(b.value.1);
        if rest.None? then None else Some([b.value.0] + rest.value)
    else None
  }

  function Parse(path: string): Option<seq<Seg>> {
    if path == "" || path[0] != '$' then None else Segments(path[1..])
  }

  // ---------------------------------------------------------------- printing one, and reading it back

  function PrintSeg(s: Seg): string {
    if s.Key? then "." + s.name else "[" + Itoa(s.at) + "]"
  }

  function PrintAll(segs: seq<Seg>): string {
    if segs == [] then "" else PrintSeg(segs[0]) + PrintAll(segs[1..])
  }

  function Print(segs: seq<Seg>): string {
    "$" + PrintAll(segs)
  }

  /** A key that a dot can name; an index that fits. */
  predicate Plain(s: Seg) {
    if s.Key? then s.name != "" && forall i :: 0 <= i < |s.name| ==> IsIdentByte(s.name[i])
    else MIN_INT <= s.at <= MAX_INT
  }

  lemma {:induction false} IdentLengthIs(s: string, n: nat)
    requires n <= |s| && (forall i :: 0 <= i < n ==> IsIdentByte(s[i])) && (n < |s| ==> !IsIdentByte(s[n]))
    ensures IdentLength(s) == n
  {
  }

  lemma BeforeIs(s: string, c: char, n: nat)
    requires n < |s| && (forall i :: 0 <= i < n ==> s[i] != c) && s[n] == c
    ensures Before(s, c) == n
  {
  }

  lemma StartsPlain(segs: seq<Seg>)
    ensures var t := PrintAll(segs); t == "" || t[0] == '.' || t[0] == '['
    ensures segs == [] <==> PrintAll(segs) == ""
  {
  }

  lemma KeyReadsBack(k: string, segs: seq<Seg>)
    requires Plain(Key(k))
    ensures var rest := Segments(PrintAll(segs));
            Segments(PrintSeg(Key(k)) + PrintAll(segs)) == if rest.None? then None else Some([Key(k)] + rest.value)
  {
    hide PrintAll;
    var t := PrintAll(segs);
    var s := "." + k + t;
    StartsPlain(segs);
    assert s[0] == '.' && s[1..] == k + t;
    IdentLengthIs(k + t, |k|);
    assert s[1..|k| + 1] == k && s[|k| + 1..] == t;
  }

  /** A key no dot can name is read back as another, or not at all. */
  lemma KeyMisread(k: string, t: string)
    requires !Plain(Key(k))
    ensures var r := Segments("." + k + t); r.None? || r.value == [] || r.value[0] != Key(k)
  {
    hide Segments, Plain, IdentLength;
    var s := "." + k + t;
    var u := k + t;
    assert s[0] == '.' && s[1..] == u;
    DotSegments(s);
    var n := IdentLength(u);
    assert s[1..n + 1] == u[..n];
    if n > 0 {
      PlainStart(u, n);
    }
  }

  lemma DotSegments(s: string)
    requires s != "" && s[0] == '.'
    ensures var n, r := IdentLength(s[1..]), Segments(s);
            r.None? || (n > 0 && r.value != [] && r.value[0] == Key(s[1..n + 1]))
  {
    hide IdentLength;
  }

  lemma PlainStart(u: string, n: nat)
    requires 0 < n <= |u| && forall i :: 0 <= i < n ==> IsIdentByte(u[i])
    ensures Plain(Key(u[..n]))
  {
    hide IsIdentByte;
  }

  lemma IndexBracket(i: int, t: string)
    ensures Bracket(Itoa(i) + ("]" + t)) == if Plain(Index(i)) then Some((Index(i), t)) else None
  {
    hide Itoa, Atoi, TrimSpace, Before;
    var d := Itoa(i);
    var u := d + ("]" + t);
    ItoaAtoi(i);
    assert d[0] == u[0];
    BeforeIs(u, ']', |d|);
    assert u[..|d|] == d && u[|d| + 1..] == t;
  }

  lemma IndexReadsBack(i: int, segs: seq<Seg>)
    ensures var s := PrintSeg(Index(i)) + PrintAll(segs);
            if Plain(Index(i)) then
              Segments(s) == (if Segments(PrintAll(segs)).None? then None
                             else Some([Index(i)] + Segments(PrintAll(segs)).value))
            else Segments(s).None?
  {
    hide Itoa, Bracket, PrintAll, Plain;
    var t := PrintAll(segs);
    var s := PrintSeg(Index(i)) + t;
    IndexBracket(i, t);
    assert s[0] == '[' && s[1..] == Itoa(i) + ("]" + t);
  }

  /** Printing a path and reading it gives the path back if and only if each of its keys is one that a
      dot can name, and each index fits. */
  lemma {:induction false} PrintReadsBack(segs: seq<Seg>)
    ensures Parse(Print(segs)) == Some(segs) <==> forall i :: 0 <= i < |segs| ==> Plain(segs[i])
  {
    assert Print(segs)[1..] == PrintAll(segs);
    SegmentsReadBack(segs);
  }

  lemma {:induction false} SegmentsReadBack(segs: seq<Seg>)
    ensures Segments(PrintAll(segs)) == Some(segs) <==> forall i :: 0 <= i < |segs| ==> Plain(segs[i])
  {
    if segs != [] {
      SegmentsReadBack(segs[1..]);
      if segs[0].Key? {
        if Plain(segs[0]) {
          KeyReadsBack(segs[0].name, segs[1..]);
        } else {
          KeyMisread(segs[0].name, PrintAll(segs[1..]));
        }
      } else {
        IndexReadsBack(segs[0].at, segs[1..]);
      }
      hide Segments, PrintSeg, Plain;
      AllOrFirst(segs);
      FirstAndRest(segs, Segments(PrintAll(segs[1..])), Segments(PrintAll(segs)));
    }
  }

  lemma AllOrFirst(segs: seq<Seg>)
    requires segs != []
    ensures (forall i :: 0 <= i < |segs| ==> Plain(segs[i])) <==>
            Plain(segs[0]) && forall i :: 0 <= i < |segs[1..]| ==> Plain(segs[1..][i])
  {
    hide Plain;
    assert forall i :: 0 <= i < |segs[1..]| ==> segs[1..][i] == segs[i + 1];
    if Plain(segs[0]) && forall i :: 0 <= i < |segs[1..]| ==> Plain(segs[1..][i]) {
      forall i | 0 <= i < |segs|
        ensures Plain(segs[i])
      {
        if i > 0 {
          assert segs[1..][i - 1] == segs[i];
        }
      }
    }
  }

  lemma FirstAndRest(segs: seq<Seg>, rest: Option<seq<Seg>>, whole: Option<seq<Seg>>)
    requires segs != []
    ensures whole == (if rest.None? then None else Some([segs[0]] + rest.value)) ==>
              (whole == Some(segs) <==> rest == Some(segs[1..]))
    ensures whole.None? || whole.value == [] || whole.value[0] != segs[0] ==> whole != Some(segs)
  {
    assert segs == [segs[0]] + segs[1..];
    if rest.Some? {
      assert ([segs[0]] + rest.value)[1..] == rest.value;
    }
  }

  // ---------------------------------------------------------------- following a path

  function Follow(j: Json, s: Seg): Option<Json> {
    if s.Key? then
      if j.Object? && s.name in j.fields then Some(j.fields[s.name]) else None
    else if !j.List? then None
    else
      var i := if s.at < 0 then s.at + |j.items| else s.at;
      if 0 <= i < |j.items| then Some(j.items[i]) else None
  }

  function Query(j: Json, segs: seq<Seg>): Option<Json> {
    if segs == [] then Some(j) else
      var next := Follow(j, segs[0]);
      if next.None? then None else Query(next.value, segs[1..])
  }

  lemma {:induction false} QueryThen(j: Json, segs: seq<Seg>, s: Seg)
    ensures Query(j, segs + [s]) == if Query(j, segs).None? then None else Follow(Query(j, segs).value, s)
    decreases |segs|
  {
    hide Follow;
    if segs == [] {
      assert segs + [s] == [s] && [s][1..] == [];
    } else {
      assert (segs + [s])[1..] == segs[1..] + [s];
      var next := Follow(j, segs[0]);
      if next.Some? {
        QueryThen(next.value, segs[1..], s);
      }
    }
  }

  // ---------------------------------------------------------------- as it runs

  /** What was read so far, and the rest of the path. */
  ghost function Onto(segs: seq<Seg>, rest: Option<seq<Seg>>): Option<seq<Seg>> {
    if rest.None? then None else Some(segs + rest.value)
  }

  lemma OntoNext(segs: seq<Seg>, s: Seg, rest: Option<seq<Seg>>)
    ensures Onto(segs, if rest.None? then None else Some([s] + rest.value)) == Onto(segs + [s], rest)
  {
    if rest.Some? {
      assert segs + ([s] + rest.value) == segs + [s] + rest.value;
    }
  }

  /** One dot and its key, at `i`. */
  lemma DotAt(path: string, i: nat, end: nat)
    requires i < end <= |path| && path[i] == '.' && end == i + 1 + IdentLength(path[i + 1..])
    ensures Segments(path[i..]) ==
            if end == i + 1 then None
            else if Segments(path[end..]).None? then None
            else Some([Key(path[i + 1..end])] + Segments(path[end..]).value)
  {
    var s, n := path[i..], IdentLength(path[i + 1..]);
    assert s[1..] == path[i + 1..];
    assert s[n + 1..] == path[end..] && s[1..n + 1] == path[i + 1..end];
  }

  lemma BracketAt(path: string, i: nat)
    requires i < |path| && path[i] == '['
    ensures var b := Bracket(path[i + 1..]);
            Segments(path[i..]) ==
            if b.None? || Segments(b.value.1).None? then None else Some([b.value.0] + Segments(b.value.1).value)
  {
    hide Bracket;
    assert path[i..][1..] == path[i + 1..];
  }

  /** Read a path from left to right. Two dots, an empty key, an open bracket or quote, an index that is
      no number, and any other byte are errors. */
  method ParsePath(path: string) returns (r: Option<seq<Seg>>)
    ensures r == Parse(path)
  {
    hide Segments, Bracket;
    if path == "" || path[0] != '$' {
      return None;
    }
    var segs: seq<Seg> := [];
    var i := 1;
    OntoNothing(Segments(path[1..]));
    while i < |path|
      invariant 1 <= i <= |path| && Parse(path) == Onto(segs, Segments(path[i..]))
    {
      if path[i] == '.' {
        var start := i + 1;
        var n := 0;
        while start + n < |path| && IsIdentByte(path[start + n])
          invariant start + n <= |path| && forall j :: 0 <= j < n ==> IsIdentByte(path[start..][j])
        {
          n := n + 1;
        }
        IdentLengthIs(path[start..], n);
        DotAt(path, i, start + n);
        if n == 0 {
          return None;
        }
        OntoNext(segs, Key(path[start..start + n]), Segments(path[start + n..]));
        segs := segs + [Key(path[start..start + n])];
        i := start + n;
      } else if path[i] == '[' {
        BracketAt(path, i);
        var b, next := ParseBracket(path, i + 1);
        if b.None? {
          return None;
        }
        OntoNext(segs, b.value, Segments(path[next..]));
        segs := segs + [b.value];
        i := next;
      } else {
        NoSegment(path[i..]);
        return None;
      }
    }
    NoSegmentLeft();
    assert path[|path|..] == "" && segs + [] == segs;
    return Some(segs);
  }

  lemma OntoNothing(rest: Option<seq<Seg>>)
    ensures Onto([], rest) == rest
  {
    if rest.Some? {
      assert [] + rest.value == rest.value;
    }
  }

  lemma NoSegment(s: string)
    requires s != "" && s[0] != '.' && s[0] != '['
    ensures Segments(s) == None
  {
  }

  lemma NoSegmentLeft()
    ensures Segments("") == Some([])
  {
  }

  lemma QuotedAt(path: string, from: nat, end: nat)
    requires from < |path| && (path[from] == '\'' || path[from] == '"')
    requires from + 1 <= end <= |path| && end == from + 1 + Before(path[from + 1..], path[from])
    ensures Bracket(path[from..]) ==
            if end + 1 >= |path| || path[end + 1] != ']' then None
            else Some((Key(path[from + 1..end]), path[end + 2..]))
  {
    hide Before;
    var s := path[from..];
    assert s[1..] == path[from + 1..];
    var n := Before(s[1..], s[0]);
    if end + 1 < |path| {
      assert s[1..n + 1] == path[from + 1..end] && s[n + 3..] == path[end + 2..] && s[n + 2] == path[end + 1];
    }
  }

  lemma UnquotedAt(path: string, from: nat, end: nat)
    requires from <= end <= |path| && (from < |path| ==> path[from] != '\'' && path[from] != '"')
    requires end == from + Before(path[from..], ']')
    ensures Bracket(path[from..]) ==
            if end >= |path| || Atoi(TrimSpace(path[from..end])).None? then None
            else Some((Index(Atoi(TrimSpace(path[from..end])).value), path[end + 1..]))
  {
    hide Before, Atoi, TrimSpace;
    var s := path[from..];
    assert s[..end - from] == path[from..end];
    if end < |path| {
      assert s[end - from + 1..] == path[end + 1..];
    }
  }

  /** A bracket: a quoted key, or an index. */
  method ParseBracket(path: string, from: nat) returns (seg: Option<Seg>, next: nat)
    requires from <= |path|
    ensures next <= |path| && (seg.Some? ==> next > from)
    ensures Bracket(path[from..]) == if seg.None? then None else Some((seg.value, path[next..]))
  {
    hide Atoi, TrimSpace, Bracket, Before;
    var i := from;
    if i < |path| && (path[i] == '\'' || path[i] == '"') {
      i := Find(path, from + 1, path[from]);
      QuotedAt(path, from, i);
      if i >= |path| {
        return None, 0;
      }
      if i + 1 >= |path| || path[i + 1] != ']' {
        return None, 0;
      }
      return Some(Key(path[from + 1..i])), i + 2;
    }
    i := Find(path, from, ']');
    UnquotedAt(path, from, i);
    if i >= |path| {
      return None, 0;
    }
    var n := Atoi(TrimSpace(path[from..i]));
    if n.None? {
      return None, 0;
    }
    return Some(Index(n.value)), i + 1;
  }

  method Find(path: string, from: nat, c: char) returns (i: nat)
    requires from <= |path|
    ensures from <= i <= |path| && i == from + Before(path[from..], c)
  {
    i := from;
    while i < |path| && path[i] != c
      invariant from <= i <= |path| && forall j :: 0 <= j < i - from ==> path[from..][j] != c
    {
      i := i + 1;
    }
    if i < |path| {
      BeforeIs(path[from..], c, i - from);
    }
  }

  /** Follow a path segment by segment, as long as there is something there. */
  method QueryJson(root: Json, segs: seq<Seg>) returns (found: Option<Json>)
    ensures found == Query(root, segs)
  {
    hide Follow;
    var cur := root;
    assert segs[0..] == segs;
    for i := 0 to |segs|
      invariant Query(cur, segs[i..]) == Query(root, segs)
    {
      assert segs[i..][1..] == segs[i + 1..];
      var next := Follow(cur, segs[i]);
      if next.None? {
        return None;
      }
      cur := next.value;
    }
    return Some(cur);
  }
}
