/** What a text diff looks like (internal/report/diff.go), position by position: where its lines come from, how the
    lines of a changed hunk are paired, and what each of its three modes shows. */
module DiffShape {
  import opened Sequences
  import opened Words
  import opened TextDiff

  // ---------------------------------------------------------------- lines

  /** A Windows line break becomes a plain one, wherever it is. */
  lemma {:induction false} BreaksArePlain(a: string, b: string)
    ensures Normalize(a + "\r\n" + b) == Normalize(a) + "\n" + Normalize(b)
    decreases |a|
  {
    var s := a + "\r\n" + b;
    if a == "" {
      assert s[2..] == b && "" + "\n" == "\n";
    } else if |a| >= 2 && a[0] == '\r' && a[1] == '\n' {
      BreaksArePlain(a[2..], b);
      assert s[2..] == a[2..] + "\r\n" + b && s[1] == a[1];
      Regroup("\n", Normalize(a[2..]), Normalize(b));
    } else {
      BreaksArePlain(a[1..], b);
      assert s[1..] == a[1..] + "\r\n" + b && s[0] == a[0];
      assert |a| >= 2 ==> s[1] == a[1];
      assert |a| == 1 ==> s[1] == '\r';
      Regroup([a[0]], Normalize(a[1..]), Normalize(b));
    }
  }

  lemma Regroup(c: string, a: string, b: string)
    ensures c + (a + "\n" + b) == c + a + "\n" + b
  {
  }

  /** Nothing else is changed. */
  lemma {:induction false} OthersStay(s: string)
    requires forall k :: 0 <= k < |s| - 1 ==> s[k] != '\r' || s[k + 1] != '\n'
    ensures Normalize(s) == s
    decreases |s|
  {
    if s != "" {
      assert |s| >= 2 ==> s[0] != '\r' || s[0 + 1] != '\n';
      forall k | 0 <= k < |s[1..]| - 1
        ensures s[1..][k] != '\r' || s[1..][k + 1] != '\n'
      {
        assert s[1..][k] == s[k + 1] && s[1..][k + 1] == s[k + 1 + 1];
      }
      OthersStay(s[1..]);
      assert s == [s[0]] + s[1..];
    }
  }

  /** A line: no line break in it, and no carriage return at its end that a break could take with it. */
  predicate IsLine(l: string) {
    '\n' !in l && (l != "" ==> l[|l| - 1] != '\r')
  }

  /** Lines written one after another, with a Windows line break after those where `windows` says so. */
  function Written(ls: seq<string>, windows: seq<bool>): string
    requires |windows| + 1 == |ls|
    decreases ls
  {
    if |ls| == 1 then ls[0] else ls[0] + (if windows[0] then "\r\n" else "\n") + Written(ls[1..], windows[1..])
  }

  /** However the line breaks of a text are written, it is split into its lines. */
  lemma LinesAreRead(ls: seq<string>, windows: seq<bool>)
    requires |windows| + 1 == |ls| && (forall i :: 0 <= i < |ls| ==> IsLine(ls[i])) && Written(ls, windows) != ""
    ensures SplitLines(Written(ls, windows)) == ls && SplitLines("") == []
  {
    hide IsLine, SplitOn, Normalize;
    WrittenSplits(ls, windows);
  }

  lemma {:induction false} WrittenSplits(ls: seq<string>, windows: seq<bool>)
    requires |windows| + 1 == |ls| && forall i :: 0 <= i < |ls| ==> IsLine(ls[i])
    ensures SplitOn(Normalize(Written(ls, windows)), '\n') == ls
    decreases ls
  {
    hide SplitOn, Normalize;
    PlainLineStays(ls[0]);
    if |ls| == 1 {
      OneSplit(ls[0]);
      assert ls == [ls[0]];
    } else {
      var rest := Written(ls[1..], windows[1..]);
      WrittenSplits(ls[1..], windows[1..]);
      if windows[0] {
        BreaksArePlain(ls[0], rest);
      } else {
        PlainBreakStays(ls[0], rest);
      }
      SplitAtBreak(ls[0], Normalize(rest));
      assert ls == [ls[0]] + ls[1..];
    }
  }

  lemma PlainLineStays(l: string)
    requires IsLine(l)
    ensures Normalize(l) == l
  {
    hide Normalize;
    OthersStay(l);
  }

  lemma {:induction false} PlainBreakStays(l: string, rest: string)
    requires IsLine(l)
    ensures Normalize(l + "\n" + rest) == l + "\n" + Normalize(rest)
    decreases |l|
  {
    var s := l + "\n" + rest;
    if l == "" {
      assert s[1..] == rest && s[0] == '\n';
    } else {
      assert l[1..] != "" ==> l[1..][|l[1..]| - 1] == l[|l| - 1];
      PlainBreakStays(l[1..], rest);
      assert s[1..] == l[1..] + "\n" + rest && s[0] == l[0] && s[1] == (l + "\n")[1];
      Regroup([l[0]], l[1..], Normalize(rest));
      assert [l[0]] + l[1..] == l;
    }
  }

  lemma {:induction false} SplitAtBreak(l: string, rest: string)
    requires '\n' !in l
    ensures SplitOn(l + "\n" + rest, '\n') == [l] + SplitOn(rest, '\n')
    decreases |l|
  {
    var s := l + "\n" + rest;
    if l == "" {
      assert s[0] == '\n' && s[1..] == rest;
    } else {
      SplitAtBreak(l[1..], rest);
      assert s[0] == l[0] && s[1..] == l[1..] + "\n" + rest;
      var more := [l[1..]] + SplitOn(rest, '\n');
      assert more[1..] == SplitOn(rest, '\n') && [l[0]] + more[0] == l;
    }
  }

  lemma {:induction false} OneSplit(l: string)
    requires '\n' !in l
    ensures SplitOn(l, '\n') == [l]
    decreases |l|
  {
    if l != "" {
      OneSplit(l[1..]);
      assert [l[0]] + l[1..] == l;
    }
  }

  // ---------------------------------------------------------------- rows

  /** Row `k` of a run of unchanged lines. */
  lemma {:induction false} SameRowAt(ls: seq<string>, ln: nat, rn: nat, k: nat)
    ensures |SameRows(ls, ln, rn)| == |ls|
    ensures k < |ls| ==>
              SameRows(ls, ln, rn)[k] == Row(Same, [Piece(ls[k], false)], [Piece(ls[k], false)], ln + k + 1, rn + k + 1)
    decreases ls
  {
    if ls != [] {
      SameRowAt(ls[1..], ln + 1, rn + 1, if k == 0 then 0 else k - 1);
    }
  }

  /** Row `k` of a changed hunk: as long as both sides have a line they are compared word by word, and after that
      the lines of the longer side stand alone, wholly marked. */
  predicate IsChangeRow(row: Row, l: seq<string>, r: seq<string>, ln: nat, rn: nat, k: nat) {
    if k < |l| && k < |r| then
      && row.kind == Changed && (row.left, row.right) == WordPieces(l[k], r[k])
      && row.leftNo == ln + k + 1 && row.rightNo == rn + k + 1
    else if k < |l| then row == Row(Removed, [Piece(l[k], true)], [], ln + k + 1, 0)
    else k < |r| && row == Row(Added, [], [Piece(r[k], true)], 0, rn + k + 1)
  }

  lemma {:induction false} ChangeRowAt(l: seq<string>, r: seq<string>, ln: nat, rn: nat, k: nat)
    ensures |ChangeRows(l, r, ln, rn)| == if |l| >= |r| then |l| else |r|
    ensures k < |ChangeRows(l, r, ln, rn)| ==> IsChangeRow(ChangeRows(l, r, ln, rn)[k], l, r, ln, rn, k)
    decreases |l| + |r|
  {
    hide WordPieces;
    var k1 := if k == 0 then 0 else k - 1;
    if l != [] && r != [] {
      ChangeRowAt(l[1..], r[1..], ln + 1, rn + 1, k1);
    } else if l != [] {
      ChangeRowAt(l[1..], r, ln + 1, rn, k1);
    } else if r != [] {
      ChangeRowAt(l, r[1..], ln, rn + 1, k1);
    }
  }

  /** Lines removed or added stand at the end of a change and never side by side: what follows one is of the same
      kind, or unchanged. */
  predicate Paired(rows: seq<Row>) {
    forall k :: 0 < k < |rows| && rows[k - 1].kind in {Removed, Added} ==> rows[k].kind in {rows[k - 1].kind, Same}
  }

  lemma ChangePaired(l: seq<string>, r: seq<string>, ln: nat, rn: nat)
    ensures Paired(ChangeRows(l, r, ln, rn))
  {
    hide WordPieces, ChangeRows;
    var rows := ChangeRows(l, r, ln, rn);
    forall k | 0 <= k < |rows|
      ensures IsChangeRow(rows[k], l, r, ln, rn, k)
    {
      ChangeRowAt(l, r, ln, rn, k);
    }
    forall k | 0 < k < |rows| && rows[k - 1].kind in {Removed, Added}
      ensures rows[k].kind in {rows[k - 1].kind, Same}
    {
      assert IsChangeRow(rows[k - 1], l, r, ln, rn, k - 1);
    }
  }

  lemma SamePaired(ls: seq<string>, ln: nat, rn: nat)
    ensures Paired(SameRows(ls, ln, rn)) && forall row :: row in SameRows(ls, ln, rn) ==> row.kind == Same
  {
    hide SameRows;
    var rows := SameRows(ls, ln, rn);
    forall k | 0 <= k < |rows|
      ensures rows[k].kind == Same
    {
      SameRowAt(ls, ln, rn, k);
    }
  }

  lemma PairedThen(x: seq<Row>, y: seq<Row>)
    requires Paired(x) && Paired(y)
    requires x != [] && y != [] ==> x[|x| - 1].kind == Same || y[0].kind == Same
    ensures Paired(x + y)
  {
    var rows := x + y;
    forall k | 0 < k < |rows| && rows[k - 1].kind in {Removed, Added}
      ensures rows[k].kind in {rows[k - 1].kind, Same}
    {
      if k > |x| {
        assert rows[k - 1] == y[k - |x| - 1] && rows[k] == y[k - |x|];
      }
    }
  }

  lemma HunkPaired(h: Hunk, ln: nat, rn: nat)
    requires h.left != [] || h.right != []
    requires h.kind == SameHunk ==> h.left == h.right
    ensures var rows := HunkRows(h, ln, rn);
            && rows != [] && Paired(rows)
            && (h.kind == SameHunk ==> rows[0].kind == Same && rows[|rows| - 1].kind == Same)
  {
    hide Paired, SameRows, ChangeRows;
    SameRowAt(h.left, ln, rn, 0);
    SamePaired(h.left, ln, rn);
    ChangeRowAt(h.left, h.right, ln, rn, 0);
    ChangePaired(h.left, h.right, ln, rn);
  }

  lemma {:induction false} HunksPaired(hs: seq<Hunk>)
    requires WellGrouped(hs)
    ensures Paired(RowsOf(hs)) && (hs != [] ==> RowsOf(hs) != [])
    ensures hs != [] && hs[|hs| - 1].kind == SameHunk ==> RowsOf(hs)[|RowsOf(hs)| - 1].kind == Same
    decreases |hs|
  {
    hide HunkRows, Paired, Lefts, Rights;
    if hs == [] {
      NonePaired();
    } else {
      var init, h := hs[..|hs| - 1], hs[|hs| - 1];
      HunksPaired(init);
      var rows := HunkRows(h, |Lefts(init)|, |Rights(init)|);
      HunkPaired(h, |Lefts(init)|, |Rights(init)|);
      PairedThen(RowsOf(init), rows);
    }
  }

  lemma NonePaired()
    ensures Paired([])
  {
  }

  // ---------------------------------------------------------------- modes

  /** Equal texts show every line as unchanged. Texts of at most 3000 lines each are aligned, with the lines of
      every change paired as far as they go. Beyond that all lines of the left are removed, and then all lines of
      the right are added. */
  lemma ModesShow(left: string, right: string)
    ensures var rows, a, b := DiffRows(left, right), SplitLines(left), SplitLines(right);
            && (left == right ==> |rows| == |a| && forall row :: row in rows ==> row.kind == Same)
            && (left != right && |a| <= 3000 && |b| <= 3000 ==> Paired(rows))
            && (left != right && (|a| > 3000 || |b| > 3000) ==>
                  && |rows| == |a| + |b|
                  && (forall k :: 0 <= k < |a| ==> rows[k] == Row(Removed, [Piece(a[k], true)], [], k + 1, 0))
                  && (forall k :: 0 <= k < |b| ==> rows[|a| + k] == Row(Added, [], [Piece(b[k], true)], 0, k + 1)))
  {
    hide Paired, SameRows, ChangeRows, SplitLines, RowsOf, HunksOf, WordPieces;
    var rows, a, b := DiffRows(left, right), SplitLines(left), SplitLines(right);
    SamePaired(a, 0, 0);
    SameRowAt(a, 0, 0, 0);
    HunksAreOptimal(a, b);
    HunksPaired(HunksOf(a, b));
    CoarseShows(a, b);
  }

  lemma CoarseShows(a: seq<string>, b: seq<string>)
    ensures var rows := Coarse(a, b);
            && |rows| == |a| + |b|
            && (forall k :: 0 <= k < |a| ==> rows[k] == Row(Removed, [Piece(a[k], true)], [], k + 1, 0))
            && (forall k :: 0 <= k < |b| ==> rows[|a| + k] == Row(Added, [], [Piece(b[k], true)], 0, k + 1))
  {
    hide ChangeRows, WordPieces;
    ChangeRowAt(a, [], 0, 0, 0);
    ChangeRowAt([], b, |a|, 0, 0);
    forall k | 0 <= k < |a|
      ensures ChangeRows(a, [], 0, 0)[k] == Row(Removed, [Piece(a[k], true)], [], k + 1, 0)
    {
      ChangeRowAt(a, [], 0, 0, k);
    }
    forall k | 0 <= k < |b|
      ensures ChangeRows([], b, |a|, 0)[k] == Row(Added, [], [Piece(b[k], true)], 0, k + 1)
    {
      ChangeRowAt([], b, |a|, 0, k);
    }
  }
}
