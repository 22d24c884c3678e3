/** Line-level diff: hunks, rows and their numbering (internal/report/diff.go, `hunks` and `Diff`). */
module TextDiff {
  import opened Sequences
  import opened Lcs
  import opened Words

  // ---------------------------------------------------------------- lines

  /** Line breaks written the Windows way count as plain ones. */
  function Normalize(s: string): string {
    if s == "" then ""
    else if |s| >= 2 && s[0] == '\r' && s[1] == '\n' then ['\n'] + Normalize(s[2..])
    else [s[0]] + Normalize(s[1..])
  }

  function SplitOn(s: string, sep: char): (ls: seq<string>)
    ensures ls != []
  {
    if s == "" then [""]
    else if s[0] == sep then [""] + SplitOn(s[1..], sep)
    else var rest := SplitOn(s[1..], sep); [[s[0]] + rest[0]] + rest[1..]
  }

  function SplitLines(s: string): seq<string> {
    if s == "" then [] else SplitOn(Normalize(s), '\n')
  }

  function Join(ls: seq<string>, sep: char): string {
    if ls == [] then "" else if |ls| == 1 then ls[0] else ls[0] + [sep] + Join(ls[1..], sep)
  }

  lemma JoinCons(l: string, ls: seq<string>, sep: char)
    requires ls != []
    ensures Join([l] + ls, sep) == l + [sep] + Join(ls, sep)
  {
    assert ([l] + ls)[1..] == ls;
  }

  /** Putting a character before the first line puts it before the text. */
  lemma JoinPush(c: char, ls: seq<string>, sep: char)
    requires ls != []
    ensures Join([[c] + ls[0]] + ls[1..], sep) == [c] + Join(ls, sep)
  {
    if |ls| == 1 {
      assert [[c] + ls[0]] + ls[1..] == [[c] + ls[0]];
    } else {
      JoinCons([c] + ls[0], ls[1..], sep);
      JoinCons(ls[0], ls[1..], sep);
      assert ls == [ls[0]] + ls[1..];
      assert [c] + ls[0] + [sep] + Join(ls[1..], sep) == [c] + (ls[0] + [sep] + Join(ls[1..], sep));
    }
  }

  lemma {:induction false} JoinSplit(s: string, sep: char)
    ensures Join(SplitOn(s, sep), sep) == s
    ensures forall l :: l in SplitOn(s, sep) ==> sep !in l
  {
    hide Join;
    if s == "" {
      JoinOne("", sep);
    } else {
      JoinSplit(s[1..], sep);
      var rest := SplitOn(s[1..], sep);
      assert rest[0] in rest && s == [s[0]] + s[1..];
      if s[0] == sep {
        JoinCons("", rest, sep);
        assert "" + [sep] + s[1..] == s;
      } else {
        JoinPush(s[0], rest, sep);
      }
    }
  }

  lemma JoinOne(l: string, sep: char)
    ensures Join([l], sep) == l
  {
  }

  /** Splitting into lines forgets nothing but the carriage returns of Windows line ends. */
  lemma LinesRejoin(s: string)
    ensures Join(SplitLines(s), '\n') == Normalize(s)
    ensures forall l :: l in SplitLines(s) ==> '\n' !in l
  {
    JoinSplit(Normalize(s), '\n');
  }

  // ---------------------------------------------------------------- hunks

  datatype HunkKind = SameHunk | ChangeHunk

  datatype Hunk = Hunk(kind: HunkKind, left: seq<string>, right: seq<string>)

  function KindOf(e: Edit<string>): HunkKind {
    if e.Keep? then SameHunk else ChangeHunk
  }

  function LeftItem(e: Edit<string>): seq<string> {
    if e.Insert? then [] else [e.item]
  }

  function RightItem(e: Edit<string>): seq<string> {
    if e.Drop? then [] else [e.item]
  }

  /** Put one edit in the last hunk when it is of the same kind, else in a new one. */
  function Add(out: seq<Hunk>, e: Edit<string>): seq<Hunk> {
    var n := |out|;
    if n > 0 && out[n - 1].kind == KindOf(e)
    then out[n - 1 := Hunk(KindOf(e), out[n - 1].left + LeftItem(e), out[n - 1].right + RightItem(e))]
    else out + [Hunk(KindOf(e), LeftItem(e), RightItem(e))]
  }

  function AddAll(out: seq<Hunk>, s: seq<Edit<string>>): seq<Hunk>
    decreases s
  {
    if s == [] then out else AddAll(Add(out, s[0]), s[1..])
  }

  function Lefts(hs: seq<Hunk>): seq<string> {
    if hs == [] then [] else Lefts(hs[..|hs| - 1]) + hs[|hs| - 1].left
  }

  function Rights(hs: seq<Hunk>): seq<string> {
    if hs == [] then [] else Rights(hs[..|hs| - 1]) + hs[|hs| - 1].right
  }

  /** How many lines sit in unchanged hunks. */
  function Kept(hs: seq<Hunk>): nat {
    if hs == [] then 0 else
      Kept(hs[..|hs| - 1]) + (if hs[|hs| - 1].kind == SameHunk then |hs[|hs| - 1].left| else 0)
  }

  /** Equal runs really are equal, no hunk is empty, and neighbours are of different kinds. */
  ghost predicate WellGrouped(hs: seq<Hunk>) {
    && (forall k :: 0 <= k < |hs| ==> hs[k].left != [] || hs[k].right != [])
    && (forall k :: 0 <= k < |hs| && hs[k].kind == SameHunk ==> hs[k].left == hs[k].right)
    && (forall k :: 0 < k < |hs| ==> hs[k - 1].kind != hs[k].kind)
  }

  lemma AddKeepsShape(hs: seq<Hunk>, e: Edit<string>)
    requires WellGrouped(hs)
    ensures WellGrouped(Add(hs, e))
  {
  }

  lemma AddKeepsLines(hs: seq<Hunk>, e: Edit<string>)
    ensures Lefts(Add(hs, e)) == Lefts(hs) + LeftItem(e)
    ensures Rights(Add(hs, e)) == Rights(hs) + RightItem(e)
    ensures Kept(Add(hs, e)) == Kept(hs) + (if e.Keep? then 1 else 0)
  {
    var r, n := Add(hs, e), |hs|;
    assert r[..|r| - 1] == if |r| == n then hs[..n - 1] else hs;
    if |r| == n {
      Assoc(Lefts(hs[..n - 1]), hs[n - 1].left, LeftItem(e));
      Assoc(Rights(hs[..n - 1]), hs[n - 1].right, RightItem(e));
    }
  }

  lemma {:induction false} AddAllIsFaithful(out: seq<Hunk>, s: seq<Edit<string>>)
    requires WellGrouped(out)
    ensures var hs := AddAll(out, s);
            && WellGrouped(hs)
            && Lefts(hs) == Lefts(out) + LeftOf(s) && Rights(hs) == Rights(out) + RightOf(s)
            && Kept(hs) == Kept(out) + |KeptOf(s)|
    decreases s
  {
    if s != [] {
      AddKeepsShape(out, s[0]);
      AddKeepsLines(out, s[0]);
      AddAllIsFaithful(Add(out, s[0]), s[1..]);
      hide WellGrouped, Add, Lefts, Rights, Kept;
      Assoc(Lefts(out), LeftItem(s[0]), LeftOf(s[1..]));
      Assoc(Rights(out), RightItem(s[0]), RightOf(s[1..]));
      assert LeftOf(s) == LeftItem(s[0]) + LeftOf(s[1..]);
      assert RightOf(s) == RightItem(s[0]) + RightOf(s[1..]);
    }
  }

  /** The hunks of two texts. */
  function HunksOf(a: seq<string>, b: seq<string>): seq<Hunk> {
    AddAll([], Script(a, b))
  }

  /** Hunks lose no line on either side and keep as many as any alignment can. */
  lemma HunksAreOptimal(a: seq<string>, b: seq<string>)
    ensures var hs := HunksOf(a, b);
            WellGrouped(hs) && Lefts(hs) == a && Rights(hs) == b && Kept(hs) == Length(a, b)
  {
    ScriptSides(a, b);
    ScriptKeepsTheMost(a, b);
    AddAllIsFaithful([], Script(a, b));
    hide Script, Length, AddAll, LeftOf, RightOf, KeptOf;
  }

  /** The hunks the walk still makes of what is left at (i, j). */
  function Pending(a: seq<string>, b: seq<string>, i: nat, j: nat, out: seq<Hunk>): seq<Hunk>
    requires i <= |a| && j <= |b|
  {
    AddAll(out, Script(a[i..], b[j..]))
  }

  lemma WalkStarts(a: seq<string>, b: seq<string>)
    ensures Pending(a, b, 0, 0, []) == HunksOf(a, b)
  {
    assert a[0..] == a && b[0..] == b;
  }

  lemma WalkAt(a: seq<string>, b: seq<string>, i: nat, j: nat, out: seq<Hunk>)
    requires i < |a| && j < |b|
    ensures Pending(a, b, i, j, out) ==
              if a[i] == b[j] then Pending(a, b, i + 1, j + 1, Add(out, Keep(a[i])))
              else if Length(a[i + 1..], b[j..]) >= Length(a[i..], b[j + 1..])
              then Pending(a, b, i + 1, j, Add(out, Drop(a[i])))
              else Pending(a, b, i, j + 1, Add(out, Insert(b[j])))
  {
    NextAt(a, b, i, j);
    hide Length, Next, Add;
  }

  function Drops(a: seq<string>): seq<Edit<string>> {
    if a == [] then [] else [Drop(a[0])] + Drops(a[1..])
  }

  function Inserts(b: seq<string>): seq<Edit<string>> {
    if b == [] then [] else [Insert(b[0])] + Inserts(b[1..])
  }

  lemma {:induction false} DrainedHunks(a: seq<string>, b: seq<string>, out: seq<Hunk>)
    requires a == [] || b == []
    ensures AddAll(out, Script(a, b)) == AddAll(AddAll(out, Drops(a)), Inserts(b))
    decreases |a| + |b|
  {
    hide Add;
    if a != [] || b != [] {
      var e := Next(a, b);
      DrainedHunks(RestLeft(e, a), RestRight(e, b), Add(out, e));
    }
  }

  lemma Drained(a: seq<string>, b: seq<string>, i: nat, j: nat, out: seq<Hunk>)
    requires i <= |a| && j <= |b| && (i == |a| || j == |b|)
    ensures Pending(a, b, i, j, out) == AddAll(AddAll(out, Drops(a[i..])), Inserts(b[j..]))
  {
    DrainedHunks(a[i..], b[j..], out);
  }

  method Hunks(a: seq<string>, b: seq<string>) returns (out: seq<Hunk>)
    ensures out == HunksOf(a, b)
  {
    hide *;
    WalkStarts(a, b);
    var table := Table(a, b);
    out := [];
    var i, j := 0, 0;
    while i < |a| && j < |b|
      invariant 0 <= i <= |a| && 0 <= j <= |b| && IsTable(table, a, b)
      invariant Pending(a, b, i, j, out) == HunksOf(a, b)
    {
      WalkAt(a, b, i, j, out);
      ReadTable(table, a, b, i + 1, j);
      ReadTable(table, a, b, i, j + 1);
      if a[i] == b[j] {
        out := Add(out, Keep(a[i]));
        i, j := i + 1, j + 1;
      } else if table[i + 1, j] >= table[i, j + 1] {
        out := Add(out, Drop(a[i]));
        i := i + 1;
      } else {
        out := Add(out, Insert(b[j]));
        j := j + 1;
      }
    }
    Drained(a, b, i, j, out);
    out := DropRest(out, a, i);
    out := InsertRest(out, b, j);
  }

  method DropRest(before: seq<Hunk>, a: seq<string>, from: nat) returns (out: seq<Hunk>)
    requires from <= |a|
    ensures out == AddAll(before, Drops(a[from..]))
  {
    hide Add;
    out := before;
    for i := from to |a|
      invariant AddAll(out, Drops(a[i..])) == AddAll(before, Drops(a[from..]))
    {
      assert a[i..][1..] == a[i + 1..];
      out := Add(out, Drop(a[i]));
    }
  }

  method InsertRest(before: seq<Hunk>, b: seq<string>, from: nat) returns (out: seq<Hunk>)
    requires from <= |b|
    ensures out == AddAll(before, Inserts(b[from..]))
  {
    hide Add;
    out := before;
    for j := from to |b|
      invariant AddAll(out, Inserts(b[j..])) == AddAll(before, Inserts(b[from..]))
    {
      assert b[j..][1..] == b[j + 1..];
      out := Add(out, Insert(b[j]));
    }
  }

  // ---------------------------------------------------------------- rows

  datatype RowKind = Same | Changed | Added | Removed

  /** Numbers are 1-based; zero where that side has no line. */
  datatype Row = Row(kind: RowKind, left: seq<Piece>, right: seq<Piece>, leftNo: nat, rightNo: nat)

  datatype Stat = Stat(added: nat, removed: nat, changed: nat, identical: bool)

  function SameRow(line: string, ln: nat, rn: nat): Row {
    Row(Same, [Piece(line, false)], [Piece(line, false)], ln, rn)
  }

  function ChangedRow(l: string, r: string, ln: nat, rn: nat): Row {
    Row(Changed, WordPieces(l, r).0, WordPieces(l, r).1, ln, rn)
  }

  function RemovedRow(line: string, ln: nat): Row {
    Row(Removed, [Piece(line, true)], [], ln, 0)
  }

  function AddedRow(line: string, rn: nat): Row {
    Row(Added, [], [Piece(line, true)], 0, rn)
  }

  /** Unchanged lines, numbered on from ln and rn. */
  function SameRows(ls: seq<string>, ln: nat, rn: nat): seq<Row> {
    if ls == [] then [] else [SameRow(ls[0], ln + 1, rn + 1)] + SameRows(ls[1..], ln + 1, rn + 1)
  }

  /** Changed lines: paired positionally, and what is left over on one side stands alone. */
  function ChangeRows(l: seq<string>, r: seq<string>, ln: nat, rn: nat): seq<Row>
    decreases |l| + |r|
  {
    if l != [] && r != [] then [ChangedRow(l[0], r[0], ln + 1, rn + 1)] + ChangeRows(l[1..], r[1..], ln + 1, rn + 1)
    else if l != [] then [RemovedRow(l[0], ln + 1)] + ChangeRows(l[1..], r, ln + 1, rn)
    else if r != [] then [AddedRow(r[0], rn + 1)] + ChangeRows(l, r[1..], ln, rn + 1)
    else []
  }

  function HunkRows(h: Hunk, ln: nat, rn: nat): seq<Row> {
    if h.kind == SameHunk then SameRows(h.left, ln, rn) else ChangeRows(h.left, h.right, ln, rn)
  }

  function RowsOf(hs: seq<Hunk>): seq<Row> {
    if hs == [] then [] else
      var init := hs[..|hs| - 1];
      RowsOf(init) + HunkRows(hs[|hs| - 1], |Lefts(init)|, |Rights(init)|)
  }

  /** Both sides wholly replaced. */
  function Coarse(a: seq<string>, b: seq<string>): seq<Row> {
    ChangeRows(a, [], 0, 0) + ChangeRows([], b, |a|, 0)
  }

  /** What each of the three modes shows: all the same, wholly replaced, or aligned. */
  function DiffRows(left: string, right: string): seq<Row> {
    var a, b := SplitLines(left), SplitLines(right);
    if left == right then SameRows(a, 0, 0)
    else if |a| > DIFF_LIMIT || |b| > DIFF_LIMIT then Coarse(a, b)
    else RowsOf(HunksOf(a, b))
  }

  // ---------------------------------------------------------------- reading rows back

  /** A row says which sides it has, and what it leaves unmarked is the same on both. */
  ghost predicate HonestRow(r: Row) {
    && Unmarked(r.left) == Unmarked(r.right)
    && match r.kind
       case Same => r.leftNo > 0 && r.rightNo > 0 && Text(r.left) == Text(r.right) == Unmarked(r.left)
       case Changed => r.leftNo > 0 && r.rightNo > 0
       case Removed => r.leftNo > 0 && r.rightNo == 0 && r.right == []
       case Added => r.leftNo == 0 && r.rightNo > 0 && r.left == []
  }

  /** The line a row shows on the left, if it has one. */
  ghost function LeftLine(r: Row): seq<string> {
    if r.leftNo == 0 then [] else [Text(r.left)]
  }

  ghost function RightLine(r: Row): seq<string> {
    if r.rightNo == 0 then [] else [Text(r.right)]
  }

  /** A row shows the next line of each side it has, under the next number. */
  ghost predicate ReadsRow(r: Row, a: seq<string>, b: seq<string>, ln: nat, rn: nat) {
    && HonestRow(r)
    && LeftLine(r) <= a && (r.leftNo != 0 ==> r.leftNo == ln + 1)
    && RightLine(r) <= b && (r.rightNo != 0 ==> r.rightNo == rn + 1)
  }

  /** The rows show exactly the lines `a` on the left, numbered on from ln without gaps, and
      exactly `b` on the right, numbered on from rn. */
  ghost predicate Reads(rows: seq<Row>, a: seq<string>, b: seq<string>, ln: nat, rn: nat)
    decreases rows
  {
    if rows == [] then a == [] && b == [] else
      var l, g := |LeftLine(rows[0])|, |RightLine(rows[0])|;
      ReadsRow(rows[0], a, b, ln, rn) && Reads(rows[1..], a[l..], b[g..], ln + l, rn + g)
  }

  lemma DropConcat<T>(x: seq<T>, y: seq<T>, n: nat)
    requires n <= |x|
    ensures (x + y)[n..] == x[n..] + y
    ensures [] + y == y
  {
  }

  lemma WiderReads(r: Row, a: seq<string>, b: seq<string>, a': seq<string>, b': seq<string>, ln: nat, rn: nat)
    requires ReadsRow(r, a, b, ln, rn)
    ensures ReadsRow(r, a + a', b + b', ln, rn) && |LeftLine(r)| <= |a| && |RightLine(r)| <= |b|
  {
    hide HonestRow, Text;
  }

  lemma {:induction false} ReadsConcat(x: seq<Row>, y: seq<Row>, a: seq<string>, b: seq<string>,
                                       a': seq<string>, b': seq<string>, ln: nat, rn: nat)
    requires Reads(x, a, b, ln, rn) && Reads(y, a', b', ln + |a|, rn + |b|)
    ensures Reads(x + y, a + a', b + b', ln, rn)
    decreases x
  {
    hide ReadsRow, LeftLine, RightLine;
    if x == [] {
      DropConcat(x, y, 0);
      DropConcat(a, a', 0);
      DropConcat(b, b', 0);
    } else {
      WiderReads(x[0], a, b, a', b', ln, rn);
      var l, g := |LeftLine(x[0])|, |RightLine(x[0])|;
      ReadsConcat(x[1..], y, a[l..], b[g..], a', b', ln + l, rn + g);
      DropConcat(x, y, 1);
      DropConcat(a, a', l);
      DropConcat(b, b', g);
    }
  }

  lemma PlainLine(line: string)
    ensures var r := [Piece(line, false)]; Text(r) == line && Unmarked(r) == line
  {
    var r := [Piece(line, false)];
    assert r[..0] == [] && Show([], true) == "" && Show([], false) == "";
    Assoc("", line, "");
  }

  lemma {:induction false} SameReads(ls: seq<string>, ln: nat, rn: nat)
    ensures Reads(SameRows(ls, ln, rn), ls, ls, ln, rn)
    decreases ls
  {
    if ls != [] {
      SameReads(ls[1..], ln + 1, rn + 1);
      PlainLine(ls[0]);
      hide Show;
      assert ReadsRow(SameRow(ls[0], ln + 1, rn + 1), ls, ls, ln, rn);
    }
  }

  lemma PairReads(l: seq<string>, r: seq<string>, ln: nat, rn: nat)
    requires l != [] && r != []
    ensures ReadsRow(ChangedRow(l[0], r[0], ln + 1, rn + 1), l, r, ln, rn)
  {
    WordPiecesRejoin(l[0], r[0]);
    hide WordPieces, Text, Unmarked, Merged, Tokens, Script, KeptOf, Concat;
  }

  lemma LoneReads(l: seq<string>, r: seq<string>, ln: nat, rn: nat)
    ensures l != [] ==> ReadsRow(RemovedRow(l[0], ln + 1), l, r, ln, rn)
    ensures r != [] ==> ReadsRow(AddedRow(r[0], rn + 1), l, r, ln, rn)
  {
    WholeLine(if l == [] then "" else l[0]);
    WholeLine(if r == [] then "" else r[0]);
    hide Text, Unmarked, Merged;
  }

  lemma {:induction false} ChangeReads(l: seq<string>, r: seq<string>, ln: nat, rn: nat)
    ensures Reads(ChangeRows(l, r, ln, rn), l, r, ln, rn)
    decreases |l| + |r|
  {
    hide ReadsRow, WordPieces;
    LoneReads(l, r, ln, rn);
    if l != [] && r != [] {
      PairReads(l, r, ln, rn);
      ChangeReads(l[1..], r[1..], ln + 1, rn + 1);
    } else if l != [] {
      ChangeReads(l[1..], r, ln + 1, rn);
      assert r[0..] == r;
    } else if r != [] {
      ChangeReads(l, r[1..], ln, rn + 1);
      assert l[0..] == l;
    }
  }

  lemma HunkReads(h: Hunk, ln: nat, rn: nat)
    requires h.kind == SameHunk ==> h.left == h.right
    ensures Reads(HunkRows(h, ln, rn), h.left, h.right, ln, rn)
  {
    hide Reads, SameRows, ChangeRows;
    SameReads(h.left, ln, rn);
    ChangeReads(h.left, h.right, ln, rn);
  }

  lemma LastHunk(hs: seq<Hunk>)
    requires WellGrouped(hs) && hs != []
    ensures var init, h := hs[..|hs| - 1], hs[|hs| - 1];
            && WellGrouped(init) && (h.kind == SameHunk ==> h.left == h.right)
            && RowsOf(hs) == RowsOf(init) + HunkRows(h, |Lefts(init)|, |Rights(init)|)
            && Lefts(hs) == Lefts(init) + h.left && Rights(hs) == Rights(init) + h.right
  {
    hide HunkRows;
  }

  lemma {:induction false} HunkRowsRead(hs: seq<Hunk>)
    requires WellGrouped(hs)
    ensures Reads(RowsOf(hs), Lefts(hs), Rights(hs), 0, 0)
  {
    hide *;
    if hs == [] {
      NoRows(hs);
    } else {
      var init, h := hs[..|hs| - 1], hs[|hs| - 1];
      LastHunk(hs);
      HunkRowsRead(init);
      HunkReads(h, |Lefts(init)|, |Rights(init)|);
      ReadsConcat(RowsOf(init), HunkRows(h, |Lefts(init)|, |Rights(init)|), Lefts(init), Rights(init),
                  h.left, h.right, 0, 0);
    }
  }

  lemma NoRows(hs: seq<Hunk>)
    requires hs == []
    ensures RowsOf(hs) == [] && Lefts(hs) == [] && Rights(hs) == [] && Reads([], [], [], 0, 0)
  {
  }

  /** In all three modes the rows read back to exactly the lines of the two texts, numbered without
      gaps, each row leaving the same text unmarked on both sides. */
  lemma DiffReadsBack(left: string, right: string)
    ensures Reads(DiffRows(left, right), SplitLines(left), SplitLines(right), 0, 0)
  {
    hide Reads, SameRows, ChangeRows, RowsOf, HunksOf, SplitLines;
    var a, b := SplitLines(left), SplitLines(right);
    SameReads(a, 0, 0);
    ChangeReads(a, [], 0, 0);
    ChangeReads([], b, |a|, 0);
    ReadsConcat(ChangeRows(a, [], 0, 0), ChangeRows([], b, |a|, 0), a, [], [], b, 0, 0);
    assert a + [] == a && [] + b == b;
    HunksAreOptimal(a, b);
    HunkRowsRead(HunksOf(a, b));
  }

  function CountKind(rows: seq<Row>, k: RowKind): nat {
    if rows == [] then 0 else (if rows[0].kind == k then 1 else 0) + CountKind(rows[1..], k)
  }

  /** Rows that read back to two texts have kinds that add up to both line counts. */
  lemma {:induction false} KindsAddUp(rows: seq<Row>, a: seq<string>, b: seq<string>, ln: nat, rn: nat)
    requires Reads(rows, a, b, ln, rn)
    ensures CountKind(rows, Same) + CountKind(rows, Changed) + CountKind(rows, Removed) == |a|
    ensures CountKind(rows, Same) + CountKind(rows, Changed) + CountKind(rows, Added) == |b|
    decreases rows
  {
    if rows != [] {
      var l, g := |LeftLine(rows[0])|, |RightLine(rows[0])|;
      KindsAddUp(rows[1..], a[l..], b[g..], ln + l, rn + g);
    }
  }

  lemma {:induction false} CountConcat(x: seq<Row>, y: seq<Row>, k: RowKind)
    ensures CountKind(x + y, k) == CountKind(x, k) + CountKind(y, k)
  {
    if x == [] {
      assert x + y == y;
    } else {
      CountConcat(x[1..], y, k);
      assert (x + y)[1..] == x[1..] + y;
    }
  }

  lemma {:induction false} SameCounts(ls: seq<string>, ln: nat, rn: nat, k: RowKind)
    ensures CountKind(SameRows(ls, ln, rn), k) == if k == Same then |ls| else 0
    decreases ls
  {
    if ls != [] {
      SameCounts(ls[1..], ln + 1, rn + 1, k);
    }
  }

  /** As many changed lines as both sides have; only the longer side has lines left over. */
  lemma {:induction false} ChangeCounts(l: seq<string>, r: seq<string>, ln: nat, rn: nat, k: RowKind)
    ensures CountKind(ChangeRows(l, r, ln, rn), k) ==
              match k
              case Same => 0
              case Changed => if |l| <= |r| then |l| else |r|
              case Removed => if |l| <= |r| then 0 else |l| - |r|
              case Added => if |l| <= |r| then |r| - |l| else 0
    decreases |l| + |r|
  {
    hide WordPieces;
    if l != [] && r != [] {
      ChangeCounts(l[1..], r[1..], ln + 1, rn + 1, k);
    } else if l != [] {
      ChangeCounts(l[1..], r, ln + 1, rn, k);
    } else if r != [] {
      ChangeCounts(l, r[1..], ln, rn + 1, k);
    }
  }

  lemma {:induction false} SameRowsAreKept(hs: seq<Hunk>)
    ensures CountKind(RowsOf(hs), Same) == Kept(hs)
  {
    if hs != [] {
      var init, h := hs[..|hs| - 1], hs[|hs| - 1];
      SameRowsAreKept(init);
      var ln, rn := |Lefts(init)|, |Rights(init)|;
      SameCounts(h.left, ln, rn, Same);
      ChangeCounts(h.left, h.right, ln, rn, Same);
      CountConcat(RowsOf(init), HunkRows(h, ln, rn), Same);
      hide CountKind, SameRows, ChangeRows, Lefts, Rights;
    }
  }

  /** Texts of at most 3000 lines each are aligned: as many rows are the same as any alignment of the lines could
      keep. */
  lemma DiffKeepsTheMost(left: string, right: string, p: Alignment)
    requires left != right && |SplitLines(left)| <= 3000 && |SplitLines(right)| <= 3000
    requires IsAlignment(SplitLines(left), SplitLines(right), p)
    ensures CountKind(DiffRows(left, right), Same) >= |p|
  {
    hide Length, Kept, CountKind, RowsOf, HunksOf, SplitLines, IsAlignment;
    var a, b := SplitLines(left), SplitLines(right);
    HunksAreOptimal(a, b);
    SameRowsAreKept(HunksOf(a, b));
    NoAlignmentKeepsMore(a, b, p);
  }

  // ---------------------------------------------------------------- the loop

  /** The counts Diff reports for some rows. */
  function StatOf(rows: seq<Row>): Stat {
    Stat(CountKind(rows, Added), CountKind(rows, Removed), CountKind(rows, Changed), false)
  }

  function Plus(s: Stat, t: Stat): Stat {
    Stat(s.added + t.added, s.removed + t.removed, s.changed + t.changed, s.identical || t.identical)
  }

  lemma StatConcat(x: seq<Row>, y: seq<Row>)
    ensures StatOf(x + y) == Plus(StatOf(x), StatOf(y))
  {
    CountConcat(x, y, Added);
    CountConcat(x, y, Removed);
    CountConcat(x, y, Changed);
    hide CountKind;
  }

  lemma StatOfBlocks(ls: seq<string>, l: seq<string>, r: seq<string>, ln: nat, rn: nat)
    ensures StatOf(SameRows(ls, ln, rn)) == Stat(0, 0, 0, false)
    ensures var n := if |l| <= |r| then |l| else |r|;
            StatOf(ChangeRows(l, r, ln, rn)) == Stat(|r| - n, |l| - n, n, false)
  {
    forall k: RowKind
      ensures k != Same ==> CountKind(SameRows(ls, ln, rn), k) == 0
    {
      SameCounts(ls, ln, rn, k);
    }
    ChangeCounts(l, r, ln, rn, Added);
    ChangeCounts(l, r, ln, rn, Removed);
    ChangeCounts(l, r, ln, rn, Changed);
    hide CountKind, ChangeRows, SameRows;
  }

  lemma Snoc<T>(rows: seq<T>, r: T, rest: seq<T>)
    ensures rows + ([r] + rest) == (rows + [r]) + rest
    ensures rows + [] == rows
  {
  }

  method AppendSame(before: seq<Row>, ls: seq<string>, l0: nat, r0: nat) returns (rows: seq<Row>)
    ensures rows == before + SameRows(ls, l0, r0)
  {
    rows := before;
    var ln, rn := l0, r0;
    assert ls[0..] == ls;
    for i := 0 to |ls|
      invariant ln == l0 + i && rn == r0 + i
      invariant rows + SameRows(ls[i..], ln, rn) == before + SameRows(ls, l0, r0)
    {
      assert ls[i..][1..] == ls[i + 1..];
      ln, rn := ln + 1, rn + 1;
      Snoc(rows, SameRow(ls[i], ln, rn), SameRows(ls[i + 1..], ln, rn));
      rows := rows + [SameRow(ls[i], ln, rn)];
    }
  }

  /** What is left to append of a changed hunk when i lines on the left and j on the right are. */
  function Rest(before: seq<Row>, l: seq<string>, r: seq<string>, i: nat, j: nat, l0: nat, r0: nat): seq<Row>
    requires i <= |l| && j <= |r|
  {
    before + ChangeRows(l[i..], r[j..], l0 + i, r0 + j)
  }

  lemma RestAt(rows: seq<Row>, l: seq<string>, r: seq<string>, i: nat, j: nat, l0: nat, r0: nat)
    requires i <= |l| && j <= |r|
    ensures i < |l| && j < |r| ==>
              Rest(rows, l, r, i, j, l0, r0) ==
              Rest(rows + [ChangedRow(l[i], r[j], l0 + i + 1, r0 + j + 1)], l, r, i + 1, j + 1, l0, r0)
    ensures i < |l| && j == |r| ==>
              Rest(rows, l, r, i, j, l0, r0) == Rest(rows + [RemovedRow(l[i], l0 + i + 1)], l, r, i + 1, j, l0, r0)
    ensures i == |l| && j < |r| ==>
              Rest(rows, l, r, i, j, l0, r0) == Rest(rows + [AddedRow(r[j], r0 + j + 1)], l, r, i, j + 1, l0, r0)
    ensures i == |l| && j == |r| ==> Rest(rows, l, r, i, j, l0, r0) == rows
  {
    hide WordPieces;
    if i < |l| && j < |r| {
      assert l[i..][1..] == l[i + 1..] && r[j..][1..] == r[j + 1..];
      Snoc(rows, ChangedRow(l[i], r[j], l0 + i + 1, r0 + j + 1),
           ChangeRows(l[i + 1..], r[j + 1..], l0 + i + 1, r0 + j + 1));
    } else if i < |l| {
      assert l[i..][1..] == l[i + 1..];
      Snoc(rows, RemovedRow(l[i], l0 + i + 1), ChangeRows(l[i + 1..], r[j..], l0 + i + 1, r0 + j));
    } else if j < |r| {
      assert r[j..][1..] == r[j + 1..];
      Snoc(rows, AddedRow(r[j], r0 + j + 1), ChangeRows(l[i..], r[j + 1..], l0 + i, r0 + j + 1));
    }
  }

  lemma RestStarts(before: seq<Row>, l: seq<string>, r: seq<string>, l0: nat, r0: nat)
    ensures Rest(before, l, r, 0, 0, l0, r0) == before + ChangeRows(l, r, l0, r0)
  {
    assert l[0..] == l && r[0..] == r;
  }

  /** The rows of a changed hunk: paired lines first, then what one side has left over. */
  method AppendChange(before: seq<Row>, l: seq<string>, r: seq<string>, l0: nat, r0: nat)
    returns (rows: seq<Row>, stat: Stat)
    ensures rows == before + ChangeRows(l, r, l0, r0)
    ensures var n := if |l| <= |r| then |l| else |r|; stat == Stat(|r| - n, |l| - n, n, false)
  {
    hide *;
    RestStarts(before, l, r, l0, r0);
    rows, stat := before, Stat(0, 0, 0, false);
    var paired := if |l| <= |r| then |l| else |r|;
    for i := 0 to paired
      invariant Rest(rows, l, r, i, i, l0, r0) == before + ChangeRows(l, r, l0, r0)
      invariant stat == Stat(0, 0, i, false)
    {
      RestAt(rows, l, r, i, i, l0, r0);
      var row := AlignedRow(l[i], r[i], l0 + i + 1, r0 + i + 1);
      rows := rows + [row];
      stat := stat.(changed := stat.changed + 1);
    }
    for i := paired to |l|
      invariant Rest(rows, l, r, i, paired, l0, r0) == before + ChangeRows(l, r, l0, r0)
      invariant stat == Stat(0, i - paired, paired, false)
    {
      RestAt(rows, l, r, i, paired, l0, r0);
      rows := rows + [RemovedRow(l[i], l0 + i + 1)];
      stat := stat.(removed := stat.removed + 1);
    }
    for j := paired to |r|
      invariant Rest(rows, l, r, |l|, j, l0, r0) == before + ChangeRows(l, r, l0, r0)
      invariant stat == Stat(j - paired, |l| - paired, paired, false)
    {
      RestAt(rows, l, r, |l|, j, l0, r0);
      rows := rows + [AddedRow(r[j], r0 + j + 1)];
      stat := stat.(added := stat.added + 1);
    }
    RestAt(rows, l, r, |l|, |r|, l0, r0);
  }

  method AlignedRow(l: string, r: string, ln: nat, rn: nat) returns (row: Row)
    ensures row == ChangedRow(l, r, ln, rn)
  {
    hide WordPieces;
    var lp, rp := WordDiff(l, r);
    row := Row(Changed, lp, rp, ln, rn);
  }

  lemma HunkAt(hs: seq<Hunk>, h: nat)
    requires h < |hs| && WellGrouped(hs)
    ensures RowsOf(hs[..h + 1]) == RowsOf(hs[..h]) + HunkRows(hs[h], |Lefts(hs[..h])|, |Rights(hs[..h])|)
    ensures Lefts(hs[..h + 1]) == Lefts(hs[..h]) + hs[h].left && Rights(hs[..h + 1]) == Rights(hs[..h]) + hs[h].right
    ensures hs[h].kind == SameHunk ==> hs[h].left == hs[h].right
    ensures forall ln, rn :: HunkRows(hs[h], ln, rn) ==
                               if hs[h].kind == SameHunk then SameRows(hs[h].left, ln, rn)
                               else ChangeRows(hs[h].left, hs[h].right, ln, rn)
  {
    assert hs[..h + 1][..h] == hs[..h];
  }

  lemma NoHunks(hs: seq<Hunk>)
    ensures RowsOf(hs[..0]) == [] && Lefts(hs[..0]) == [] && Rights(hs[..0]) == []
    ensures StatOf([]) == Stat(0, 0, 0, false)
    ensures hs[..|hs|] == hs
    ensures forall s :: Plus(s, Stat(0, 0, 0, false)) == s
  {
  }

  method AlignedRows(a: seq<string>, b: seq<string>) returns (rows: seq<Row>, stat: Stat)
    ensures rows == RowsOf(HunksOf(a, b)) && stat == StatOf(rows)
  {
    hide *;
    rows := [];
    stat := Stat(0, 0, 0, false);
    var ln, rn := 0, 0;
    var hs := Hunks(a, b);
    HunksAreOptimal(a, b);
    NoHunks(hs);
    for h := 0 to |hs|
      invariant rows == RowsOf(hs[..h]) && ln == |Lefts(hs[..h])| && rn == |Rights(hs[..h])|
      invariant stat == StatOf(rows)
    {
      HunkAt(hs, h);
      StatConcat(rows, HunkRows(hs[h], ln, rn));
      StatOfBlocks(hs[h].left, hs[h].left, hs[h].right, ln, rn);
      match hs[h].kind {
        case SameHunk =>
          rows := AppendSame(rows, hs[h].left, ln, rn);
        case ChangeHunk =>
          var s;
          rows, s := AppendChange(rows, hs[h].left, hs[h].right, ln, rn);
          stat := Plus(stat, s);
      }
      ln, rn := ln + |hs[h].left|, rn + |hs[h].right|;
    }
  }

  lemma DiffModes(left: string, right: string)
    ensures var a, b := SplitLines(left), SplitLines(right);
            DiffRows(left, right) ==
              if left == right then [] + SameRows(a, 0, 0)
              else if |a| > DIFF_LIMIT || |b| > DIFF_LIMIT
              then ([] + ChangeRows(a, [], 0, 0)) + ChangeRows([], b, |a|, 0)
              else RowsOf(HunksOf(a, b))
    ensures var a, b := SplitLines(left), SplitLines(right);
            StatOf(([] + ChangeRows(a, [], 0, 0)) + ChangeRows([], b, |a|, 0)) == Stat(|b|, |a|, 0, false)
    ensures StatOf([] + SameRows(SplitLines(left), 0, 0)) == Stat(0, 0, 0, false)
  {
    hide RowsOf, HunksOf, SplitLines, ChangeRows, SameRows, StatOf;
    var a, b := SplitLines(left), SplitLines(right);
    var x, y := ChangeRows(a, [], 0, 0), ChangeRows([], b, |a|, 0);
    assert [] + x == x && [] + SameRows(a, 0, 0) == SameRows(a, 0, 0);
    StatConcat(x, y);
    StatOfBlocks(a, a, [], 0, 0);
    StatOfBlocks(a, [], b, |a|, 0);
  }

  method Diff(left: string, right: string) returns (rows: seq<Row>, stat: Stat)
    ensures rows == DiffRows(left, right)
    ensures stat == StatOf(rows).(identical := left == right)
  {
    hide *;
    DiffModes(left, right);
    var a, b := SplitLines(left), SplitLines(right);
    if left == right {
      rows := AppendSame([], a, 0, 0);
      stat := Stat(0, 0, 0, true);
    } else if |a| > DIFF_LIMIT || |b| > DIFF_LIMIT {
      rows, stat := AppendChange([], a, [], 0, 0);
      rows, stat := AppendChange(rows, [], b, |a|, 0);
      stat := Stat(|b|, |a|, 0, false);
    } else {
      rows, stat := AlignedRows(a, b);
      AlignedStat(rows);
    }
  }

  lemma AlignedStat(rows: seq<Row>)
    ensures !StatOf(rows).identical
  {
  }
}
