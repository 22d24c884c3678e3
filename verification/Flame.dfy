/** Laying out a flame graph (internal/report/flame.go:44-82, 153-196, 291-296): rectangles by percent
    of the folded time, a parent's children left to right inside it. Fractions are exact. */
module Flame {
  import opened Fold
  import opened Order

  datatype Frame = Frame(name: string, path: string, depth: nat, left: real, width: real, total: int, self: int,
          count: nat)

  function Right(f: Frame): real {
    f.left + f.width
  }

  function Percent(d: int, total: int): real {
    if total <= 0 then 0.0 else d as real / total as real * 100.0
  }

  // ---------------------------------------------------------------- the order of siblings

  function TotalOf(m: map<string, Node>, k: string): int {
    if k in m then m[k].sums.total else 0
  }

  /** More time first, then by name. */
  function Widest(m: map<string, Node>): Before {
    (a: string, b: string) =>
      TotalOf(m, a) > TotalOf(m, b) || (TotalOf(m, a) == TotalOf(m, b) && Less(a, b))
  }

  lemma WidestIsOrder(m: map<string, Node>)
    ensures IsOrder(Widest(m))
  {
    hide Less, TotalOf;
    LessIsOrder();
    var lt := Widest(m);
    forall a, b
      ensures a == b || lt(a, b) || lt(b, a)
      ensures !(lt(a, b) && (a == b || lt(b, a)))
    {
      Order.Total(a, b);
    }
    forall a, b, c | lt(a, b) && lt(b, c)
      ensures lt(a, c)
    {
      if Less(a, b) && Less(b, c) {
        Trans(a, b, c);
      }
    }
  }

  /** A node's children by name, widest first. */
  ghost function Kids(m: map<string, Node>): (q: seq<string>)
    ensures forall k :: k in q <==> k in m
    ensures forall i, j :: 0 <= i < j < |q| ==> q[i] != q[j]
  {
    WidestIsOrder(m);
    var q := Sorted(Widest(m), m.Keys);
    q
  }

  // ---------------------------------------------------------------- the layout

  function PathTo(parent: string, name: string): string {
    if parent == "" then name else parent + "." + name
  }

  /** The width of a child: its percent, cut at the right end of its parent. */
  function Width(c: Node, left: real, right: real, total: int): real {
    var w := Percent(c.sums.total, total);
    if left + w > right then right - left else w
  }

  function FrameOf(name: string, c: Node, parent: string, depth: nat, left: real, width: real): Frame {
    Frame(name, PathTo(parent, name), depth, left, width, c.sums.total, c.sums.self, c.sums.count)
  }

  /** The frames below a node, in its extent. */
  ghost function Layout(n: Node, parent: string, depth: nat, left: real, right: real, total: int): seq<Frame>
    decreases n, 1, 0
  {
    LayoutKids(n, Kids(n.children), parent, depth, left, right, total)
  }

  ghost function LayoutKids(n: Node, kids: seq<string>, parent: string, depth: nat, left: real, right: real,
          total: int): seq<Frame>
    requires forall k :: k in kids ==> k in n.children
    decreases n, 0, |kids|
  {
    if kids == [] then [] else
      var k := kids[0];
      assert k in kids;
      var c := n.children[k];
      var w := Width(c, left, right, total);
      if w <= 0.0 then LayoutKids(n, kids[1..], parent, depth, left, right, total)
      else
        [FrameOf(k, c, parent, depth, left, w)]
        + Layout(c, PathTo(parent, k), depth + 1, left, left + w, total)
        + LayoutKids(n, kids[1..], parent, depth, left + w, right, total)
  }

  /** The graph of a whole fold: its flows side by side over the sum of their times. */
  ghost function FlameFrames(root: Node): seq<Frame> {
    var total := SumOf(root.children, root.children.Keys, TimeOf);
    if total <= 0 then [] else Layout(root, "", 0, 0.0, 100.0, total)
  }

  // ---------------------------------------------------------------- inside, and side by side

  ghost predicate Inside(fs: seq<Frame>, depth: nat, left: real, right: real) {
    forall i :: 0 <= i < |fs| ==>
      fs[i].depth >= depth && fs[i].width > 0.0 && left <= fs[i].left && Right(fs[i]) <= right
  }

  /** On one row, frames come from left to right and none reaches into the next. */
  ghost predicate Apart(fs: seq<Frame>) {
    forall i, j :: 0 <= i < j < |fs| && fs[i].depth == fs[j].depth ==> Right(fs[i]) <= fs[j].left
  }

  lemma InsideWider(fs: seq<Frame>, depth: nat, left: real, right: real, depth': nat, left': real, right': real)
    requires Inside(fs, depth, left, right) && depth' <= depth && left' <= left && right <= right'
    ensures Inside(fs, depth', left', right')
  {
  }

  lemma InsideBoth(a: seq<Frame>, b: seq<Frame>, depth: nat, left: real, right: real)
    requires Inside(a, depth, left, right) && Inside(b, depth, left, right)
    ensures Inside(a + b, depth, left, right)
  {
  }

  lemma ApartBoth(a: seq<Frame>, b: seq<Frame>, depth: nat, left: real, mid: real, right: real)
    requires Apart(a) && Apart(b) && Inside(a, depth, left, mid) && Inside(b, depth, mid, right)
    ensures Apart(a + b)
  {
    var s := a + b;
    forall i, j | 0 <= i < j < |s| && s[i].depth == s[j].depth
      ensures Right(s[i]) <= s[j].left
    {
      if i < |a| <= j {
        assert s[i] == a[i] && s[j] == b[j - |a|];
      } else if j < |a| {
        assert s[i] == a[i] && s[j] == a[j];
      } else {
        assert s[i] == b[i - |a|] && s[j] == b[j - |a|];
      }
    }
  }

  /** A frame over its subtree. */
  lemma ApartOver(f: Frame, below: seq<Frame>)
    requires Apart(below) && Inside(below, f.depth + 1, f.left, Right(f))
    ensures Apart([f] + below)
  {
    var s := [f] + below;
    forall i, j | 0 <= i < j < |s| && s[i].depth == s[j].depth
      ensures Right(s[i]) <= s[j].left
    {
      assert s[j] == below[j - 1];
      if i > 0 {
        assert s[i] == below[i - 1];
      }
    }
  }

  lemma {:induction false} LayoutFits(n: Node, parent: string, depth: nat, left: real, right: real, total: int)
    requires left <= right
    ensures var fs := Layout(n, parent, depth, left, right, total); Inside(fs, depth, left, right) && Apart(fs)
    decreases n, 1, 0
  {
    KidsFit(n, Kids(n.children), parent, depth, left, right, total);
  }

  lemma {:induction false} KidsFit(n: Node, kids: seq<string>, parent: string, depth: nat, left: real, right: real,
          total: int)
    requires left <= right && forall k :: k in kids ==> k in n.children
    ensures var fs := LayoutKids(n, kids, parent, depth, left, right, total);
            Inside(fs, depth, left, right) && Apart(fs)
    decreases n, 0, |kids|
  {
    hide Layout, Percent, Inside, Apart;
    if kids == [] {
      NothingFits(depth, left, right);
    } else {
      var k := kids[0];
      assert k in kids;
      var c := n.children[k];
      var w := Width(c, left, right, total);
      if w <= 0.0 {
        KidsFit(n, kids[1..], parent, depth, left, right, total);
      } else {
        var f := FrameOf(k, c, parent, depth, left, w);
        var below := Layout(c, PathTo(parent, k), depth + 1, left, left + w, total);
        var rest := LayoutKids(n, kids[1..], parent, depth, left + w, right, total);
        LayoutFits(c, PathTo(parent, k), depth + 1, left, left + w, total);
        KidsFit(n, kids[1..], parent, depth, left + w, right, total);
        ApartOver(f, below);
        FrameFits(f);
        InsideWider(below, depth + 1, left, left + w, depth, left, left + w);
        InsideBoth([f], below, depth, left, left + w);
        ApartBoth([f] + below, rest, depth, left, left + w, right);
        InsideWider([f] + below, depth, left, left + w, depth, left, right);
        InsideWider(rest, depth, left + w, right, depth, left, right);
        InsideBoth([f] + below, rest, depth, left, right);
      }
    }
  }

  lemma NothingFits(depth: nat, left: real, right: real)
    ensures Inside([], depth, left, right) && Apart([])
  {
  }

  lemma FrameFits(f: Frame)
    requires f.width > 0.0
    ensures Inside([f], f.depth, f.left, Right(f))
  {
  }

  /** Every frame of a fold's graph lies between nothing and a hundred, and frames on one row do not overlap. */
  lemma GraphFits(root: Node)
    ensures Inside(FlameFrames(root), 0, 0.0, 100.0) && Apart(FlameFrames(root))
  {
    hide Layout, Inside, Apart, SumOf;
    NothingFits(0, 0.0, 100.0);
    LayoutFits(root, "", 0, 0.0, 100.0, SumOf(root.children, root.children.Keys, TimeOf));
  }

  /** The frame under `f` that holds it: one row up, over its whole extent, its path one name shorter. */
  predicate Holds(g: Frame, f: Frame) {
    g.depth + 1 == f.depth && g.left <= f.left && Right(f) <= Right(g) && f.path == PathTo(g.path, f.name)
  }

  lemma {:induction false} LayoutHeld(n: Node, parent: string, depth: nat, left: real, right: real, total: int,
          f: Frame)
    requires left <= right && f in Layout(n, parent, depth, left, right, total)
    ensures (f.depth == depth && f.path == PathTo(parent, f.name)) ||
            exists g :: g in Layout(n, parent, depth, left, right, total) && Holds(g, f)
    decreases n, 1, 0
  {
    KidsHeld(n, Kids(n.children), parent, depth, left, right, total, f);
  }

  lemma {:induction false} KidsHeld(n: Node, kids: seq<string>, parent: string, depth: nat, left: real, right: real,
          total: int, f: Frame)
    requires left <= right && (forall k :: k in kids ==> k in n.children)
    requires f in LayoutKids(n, kids, parent, depth, left, right, total)
    ensures (f.depth == depth && f.path == PathTo(parent, f.name)) ||
            exists g :: g in LayoutKids(n, kids, parent, depth, left, right, total) && Holds(g, f)
    decreases n, 0, |kids|
  {
    hide Layout, Percent, Holds, PathTo;
    var k := kids[0];
    assert k in kids;
    var c := n.children[k];
    var w := Width(c, left, right, total);
    if w <= 0.0 {
      KidsHeld(n, kids[1..], parent, depth, left, right, total, f);
    } else {
      var top := FrameOf(k, c, parent, depth, left, w);
      var below := Layout(c, PathTo(parent, k), depth + 1, left, left + w, total);
      var rest := LayoutKids(n, kids[1..], parent, depth, left + w, right, total);
      var all := LayoutKids(n, kids, parent, depth, left, right, total);
      assert all == [top] + below + rest;
      if f in below {
        LayoutHeld(c, PathTo(parent, k), depth + 1, left, left + w, total, f);
        if f.depth == depth + 1 && f.path == PathTo(PathTo(parent, k), f.name) {
          LayoutFits(c, PathTo(parent, k), depth + 1, left, left + w, total);
          HeldByTop(top, below, f);
          assert top in all;
        } else {
          var g :| g in below && Holds(g, f);
          assert g in all;
        }
      } else if f in rest {
        KidsHeld(n, kids[1..], parent, depth, left + w, right, total, f);
        if !(f.depth == depth && f.path == PathTo(parent, f.name)) {
          var g :| g in rest && Holds(g, f);
          assert g in all;
        }
      }
    }
  }

  lemma HeldByTop(top: Frame, below: seq<Frame>, f: Frame)
    requires f in below && Inside(below, top.depth + 1, top.left, Right(top))
    requires f.depth == top.depth + 1 && f.path == PathTo(top.path, f.name)
    ensures Holds(top, f)
  {
  }

  /** Every frame that is not on the first row lies on one that is its parent. */
  lemma GraphNests(root: Node, f: Frame)
    requires f in FlameFrames(root) && f.depth > 0
    ensures exists g :: g in FlameFrames(root) && Holds(g, f)
  {
    hide Layout, Holds, SumOf;
    LayoutHeld(root, "", 0, 0.0, 100.0, SumOf(root.children, root.children.Keys, TimeOf), f);
  }

  // ---------------------------------------------------------------- in their order, without gaps

  /** `f` starts where its sibling `g` ends, and `g` took more time, or as much under a lesser name; it is no
      narrower. */
  ghost predicate Follows(g: Frame, f: Frame, parent: string) {
    && g.depth == f.depth && Right(g) == f.left && f.width <= g.width
    && g.path == PathTo(parent, g.name) && f.path == PathTo(parent, f.name)
    && (g.total > f.total || (g.total == f.total && Less(g.name, f.name)))
  }

  /** A frame starts where its elder sibling ends, or where its parent starts. */
  ghost predicate Packed(fs: seq<Frame>, f: Frame) {
    exists g :: g in fs && ((exists parent :: Follows(g, f, parent)) || (Holds(g, f) && g.left == f.left))
  }

  /** The first frame of a row. */
  ghost predicate Leads(n: Node, kids: seq<string>, parent: string, depth: nat, left: real, right: real, total: int,
                        f: Frame)
  {
    && f.depth == depth && f.path == PathTo(parent, f.name) && f.left == left
    && f.name in kids && f.name in n.children && f.total == n.children[f.name].sums.total
    && f.width == Width(n.children[f.name], left, right, total)
  }

  lemma PackedIn(fs: seq<Frame>, all: seq<Frame>, f: Frame)
    requires Packed(fs, f) && forall g :: g in fs ==> g in all
    ensures Packed(all, f)
  {
    hide Follows, Holds;
  }

  lemma {:induction false} KidsPacked(n: Node, kids: seq<string>, parent: string, depth: nat, left: real, right: real,
          total: int, f: Frame)
    requires left <= right && (forall k :: k in kids ==> k in n.children) && Ascending(Widest(n.children), kids)
    requires f in LayoutKids(n, kids, parent, depth, left, right, total)
    ensures Leads(n, kids, parent, depth, left, right, total, f) ||
            Packed(LayoutKids(n, kids, parent, depth, left, right, total), f)
    decreases n, 0, |kids|
  {
    hide Layout, Percent, Holds, PathTo, Width, Widest, Packed, Leads;
    var k := kids[0];
    assert k in kids && kids == [k] + kids[1..];
    var c := n.children[k];
    var w := Width(c, left, right, total);
    if w <= 0.0 {
      KidsPacked(n, kids[1..], parent, depth, left, right, total, f);
      LeadsMore(n, kids, parent, depth, left, right, total, f);
    } else {
      var top := FrameOf(k, c, parent, depth, left, w);
      var below := Layout(c, PathTo(parent, k), depth + 1, left, left + w, total);
      var rest := LayoutKids(n, kids[1..], parent, depth, left + w, right, total);
      var all := LayoutKids(n, kids, parent, depth, left, right, total);
      assert all == [top] + below + rest;
      if f in below {
        LayoutPacked(c, PathTo(parent, k), depth + 1, left, left + w, total, f);
        if Packed(below, f) {
          PackedIn(below, all, f);
        } else {
          LayoutFits(c, PathTo(parent, k), depth + 1, left, left + w, total);
          FirstBelow(c, parent, k, depth, left, left + w, total, top, below, f);
          LeadsBelow(all, top, f);
        }
      } else if f in rest {
        WidthFits(c, left, right, total);
        KidsPacked(n, kids[1..], parent, depth, left + w, right, total, f);
        if Packed(rest, f) {
          PackedIn(rest, all, f);
        } else {
          NextFollows(n, kids, parent, depth, left, right, total, f);
          FollowsIn(all, top, f, parent);
        }
      } else {
        TopLeads(n, kids, parent, depth, left, right, total);
      }
    }
  }

  lemma {:induction false} LayoutPacked(n: Node, parent: string, depth: nat, left: real, right: real, total: int,
          f: Frame)
    requires left <= right && f in Layout(n, parent, depth, left, right, total)
    ensures Packed(Layout(n, parent, depth, left, right, total), f) ||
            Leads(n, Kids(n.children), parent, depth, left, right, total, f)
    decreases n, 1, 0
  {
    KidsPacked(n, Kids(n.children), parent, depth, left, right, total, f);
  }

  lemma LeadsMore(n: Node, kids: seq<string>, parent: string, depth: nat, left: real, right: real, total: int, f: Frame)
    requires kids != []
    ensures Leads(n, kids[1..], parent, depth, left, right, total, f) ==>
              Leads(n, kids, parent, depth, left, right, total, f)
  {
    hide Width;
  }

  lemma TopLeads(n: Node, kids: seq<string>, parent: string, depth: nat, left: real, right: real, total: int)
    requires kids != [] && kids[0] in n.children
    ensures var c := n.children[kids[0]];
            var top := FrameOf(kids[0], c, parent, depth, left, Width(c, left, right, total));
            Leads(n, kids, parent, depth, left, right, total, top)
  {
    hide Width;
  }

  lemma WidthFits(c: Node, left: real, right: real, total: int)
    ensures left <= right ==> left + Width(c, left, right, total) <= right
  {
    hide Percent;
  }

  lemma FirstBelow(c: Node, parent: string, k: string, depth: nat, left: real, right: real, total: int, top: Frame,
                   below: seq<Frame>, f: Frame)
    requires Leads(c, Kids(c.children), PathTo(parent, k), depth + 1, left, right, total, f) && f in below
    requires top.depth == depth && top.path == PathTo(parent, k) && top.left == left && Right(top) == right
    requires Inside(below, depth + 1, left, right)
    ensures Holds(top, f) && top.left == f.left
  {
    hide PathTo, Width;
  }

  lemma LeadsBelow(all: seq<Frame>, top: Frame, f: Frame)
    requires top in all && Holds(top, f) && top.left == f.left
    ensures Packed(all, f)
  {
    hide Holds;
  }

  lemma FollowsIn(all: seq<Frame>, top: Frame, f: Frame, parent: string)
    requires top in all && Follows(top, f, parent)
    ensures Packed(all, f)
  {
    hide Follows;
  }

  lemma NextFollows(n: Node, kids: seq<string>, parent: string, depth: nat, left: real, right: real, total: int,
                    f: Frame)
    requires kids != [] && Ascending(Widest(n.children), kids) && (forall k :: k in kids ==> k in n.children)
    requires kids[0] in n.children && Width(n.children[kids[0]], left, right, total) > 0.0
    requires left + Width(n.children[kids[0]], left, right, total) <= right
    requires Leads(n, kids[1..], parent, depth, left + Width(n.children[kids[0]], left, right, total), right, total, f)
    ensures var c := n.children[kids[0]];
            Follows(FrameOf(kids[0], c, parent, depth, left, Width(c, left, right, total)), f, parent)
  {
    hide Percent, PathTo, Less;
    var m, k := n.children, kids[0];
    var j :| 0 <= j < |kids[1..]| && kids[1..][j] == f.name;
    assert kids[j + 1] == f.name && Widest(m)(kids[0], kids[j + 1]);
    assert TotalOf(m, k) >= TotalOf(m, f.name);
    if total > 0 {
      PercentRises(m[f.name].sums.total, m[k].sums.total, total);
    } else {
      NoPercent(m[f.name].sums.total, total);
      NoPercent(m[k].sums.total, total);
    }
  }

  lemma NoPercent(d: int, total: int)
    requires total <= 0
    ensures Percent(d, total) == 0.0
  {
  }

  /** In the whole graph nothing is left out of order or apart: each frame starts where a sibling ends that took
      at least as long and is at least as wide, or where its parent starts, and the first of all at nothing. */
  lemma GraphPacked(root: Node, f: Frame)
    requires f in FlameFrames(root)
    ensures (f.depth == 0 && f.left == 0.0) || Packed(FlameFrames(root), f)
  {
    hide Layout, Packed, SumOf, Width, PathTo;
    LayoutPacked(root, "", 0, 0.0, 100.0, SumOf(root.children, root.children.Keys, TimeOf), f);
  }

  // ---------------------------------------------------------------- what a frame shows

  /** The names of a path with a dot between each two. */
  function Dotted(path: seq<string>): string {
    if path == [] then "" else if |path| == 1 then path[0] else Dotted(path[..|path| - 1]) + "." + path[|path| - 1]
  }

  /** The frame is of the node at that path. */
  predicate IsOf(f: Frame, n: Node, path: seq<string>)
  {
    && path != [] && Has(n, path) && f.depth == |path| - 1 && f.name == path[|path| - 1] && f.path == Dotted(path)
    && f.total == NodeAt(n, path).sums.total && f.self == NodeAt(n, path).sums.self
    && f.count == NodeAt(n, path).sums.count
  }

  lemma DottedMore(path: seq<string>, name: string)
    requires path == [] || Dotted(path) != ""
    ensures PathTo(Dotted(path), name) == Dotted(path + [name])
  {
    assert (path + [name])[..|path|] == path;
  }

  lemma {:induction false} NodeBelow(n: Node, path: seq<string>, name: string)
    requires Has(n, path) && name in NodeAt(n, path).children
    ensures Has(n, path + [name]) && NodeAt(n, path + [name]) == NodeAt(n, path).children[name]
    decreases |path|
  {
    var p := path + [name];
    if path == [] {
      assert p == [name] && p[1..] == [];
      assert NodeAt(Child(n, name), []) == Child(n, name);
    } else {
      assert p[1..] == path[1..] + [name] && p[0] == path[0];
      NodeBelow(n.children[path[0]], path[1..], name);
    }
  }

  lemma {:induction false} KidsReal(root: Node, at: seq<string>, n: Node, kids: seq<string>, left: real, right: real,
          total: int, f: Frame) returns (path: seq<string>)
    requires Has(root, at) && NodeAt(root, at) == n && (if at == [] then "" !in n.children else Dotted(at) != "")
    requires forall k :: k in kids ==> k in n.children
    requires f in LayoutKids(n, kids, Dotted(at), |at|, left, right, total)
    ensures IsOf(f, root, path)
    decreases n, 0, |kids|
  {
    hide *;
    FrameIn(n, kids, Dotted(at), |at|, left, right, total, f);
    var k := kids[0];
    assert k in kids;
    var c := n.children[k];
    var w := Width(c, left, right, total);
    if w > 0.0 && f == FrameOf(k, c, Dotted(at), |at|, left, w) {
      path := at + [k];
      TopIsOf(root, at, k, left, w);
    } else if w > 0.0 && f in Layout(c, PathTo(Dotted(at), k), |at| + 1, left, left + w, total) {
      NodeBelow(root, at, k);
      DottedMore(at, k);
      PathHasName(at, k);
      BelowIs(c, Dotted(at + [k]), |at| + 1, left, left + w, total);
      path := KidsReal(root, at + [k], c, Kids(c.children), left, left + w, total, f);
    } else {
      path := KidsReal(root, at, n, kids[1..], if w <= 0.0 then left else left + w, right, total, f);
    }
  }

  lemma FrameIn(n: Node, kids: seq<string>, parent: string, depth: nat, left: real, right: real, total: int, f: Frame)
    requires (forall k :: k in kids ==> k in n.children) && f in LayoutKids(n, kids, parent, depth, left, right, total)
    ensures kids != [] && kids[0] in n.children && forall k :: k in kids[1..] ==> k in kids
    ensures var c := n.children[kids[0]];
            var w := Width(c, left, right, total);
            || f in LayoutKids(n, kids[1..], parent, depth, if w <= 0.0 then left else left + w, right, total)
            || (w > 0.0 && f == FrameOf(kids[0], c, parent, depth, left, w))
            || (w > 0.0 && f in Layout(c, PathTo(parent, kids[0]), depth + 1, left, left + w, total))
  {
    hide Layout, Width, PathTo;
    assert kids[0] in kids;
  }

  lemma BelowIs(c: Node, parent: string, depth: nat, left: real, right: real, total: int)
    ensures Layout(c, parent, depth, left, right, total)
            == LayoutKids(c, Kids(c.children), parent, depth, left, right, total)
  {
  }

  lemma PathHasName(at: seq<string>, k: string)
    requires at != [] || k != ""
    ensures Dotted(at + [k]) != ""
  {
    assert (at + [k])[|at|] == k;
  }

  lemma TopIsOf(root: Node, at: seq<string>, k: string, left: real, w: real)
    requires Has(root, at) && k in NodeAt(root, at).children && (at == [] || Dotted(at) != "")
    ensures IsOf(FrameOf(k, NodeAt(root, at).children[k], Dotted(at), |at|, left, w), root, at + [k])
  {
    hide Dotted, Has, NodeAt;
    NodeBelow(root, at, k);
    DottedMore(at, k);
  }

  /** Every frame is of a node of the tree: its row, its name, its dotted path, and the node's three sums. What is
      on the first row has a name, as flows have. */
  lemma GraphIsReal(root: Node, f: Frame) returns (path: seq<string>)
    requires "" !in root.children && f in FlameFrames(root)
    ensures IsOf(f, root, path)
  {
    hide SumOf, LayoutKids, IsOf;
    var total := SumOf(root.children, root.children.Keys, TimeOf);
    NoPath(root);
    BelowIs(root, "", 0, 0.0, 100.0, total);
    path := KidsReal(root, [], root, Kids(root.children), 0.0, 100.0, total, f);
  }

  lemma NoPath(root: Node)
    ensures Has(root, []) && NodeAt(root, []) == root && Dotted([]) == ""
  {
  }

  // ---------------------------------------------------------------- widths

  /** No node below lasts less than nothing, and none is outlasted by its children. */
  ghost predicate Roomy(n: Node)
    decreases n
  {
    forall k :: k in n.children ==>
      var c := n.children[k];
      c.sums.total >= 0 && SumOf(c.children, c.children.Keys, TimeOf) <= c.sums.total && Roomy(c)
  }

  function KidSum(n: Node, kids: seq<string>): int
    requires forall k :: k in kids ==> k in n.children
  {
    if kids == [] then 0 else
      assert kids[0] in kids;
      n.children[kids[0]].sums.total + KidSum(n, kids[1..])
  }

  lemma {:induction false} KidSumIs(n: Node, kids: seq<string>, names: set<string>)
    requires names <= n.children.Keys && (forall k :: k in kids <==> k in names)
    requires forall i, j :: 0 <= i < j < |kids| ==> kids[i] != kids[j]
    ensures KidSum(n, kids) == SumOf(n.children, names, TimeOf)
    decreases |kids|
  {
    if kids == [] {
      assert names == {};
    } else {
      var k := kids[0];
      assert k in kids;
      SumTake(n.children, names, k, TimeOf);
      assert kids == [k] + kids[1..];
      forall x
        ensures x in kids[1..] <==> x in names - {k}
      {
        assert x in kids <==> x == k || x in kids[1..];
      }
      KidSumIs(n, kids[1..], names - {k});
    }
  }

  lemma {:induction false} KidSumSign(n: Node, kids: seq<string>)
    requires forall k :: k in kids ==> k in n.children && n.children[k].sums.total >= 0
    ensures KidSum(n, kids) >= 0
    decreases |kids|
  {
    if kids != [] {
      assert kids[0] in kids;
      KidSumSign(n, kids[1..]);
    }
  }

  lemma PercentSum(a: int, b: int, total: int)
    requires total > 0
    ensures Percent(a + b, total) == Percent(a, total) + Percent(b, total)
    ensures Percent(0, total) == 0.0 && Percent(total, total) == 100.0
  {
    assert total as real / total as real == 1.0;
  }

  lemma PercentSign(a: int, total: int)
    requires total > 0
    ensures (a >= 0 ==> Percent(a, total) >= 0.0) && (a > 0 ==> Percent(a, total) > 0.0)
  {
    if a >= 0 {
      assert a as real / total as real >= 0.0;
    }
    if a > 0 {
      assert a as real / total as real * total as real == a as real;
    }
  }

  lemma PercentRises(a: int, b: int, total: int)
    requires total > 0 && a <= b
    ensures Percent(a, total) <= Percent(b, total)
  {
    hide Percent;
    PercentSum(a, b - a, total);
    PercentSign(b - a, total);
  }

  ghost predicate Exact(fs: seq<Frame>, total: int) {
    forall i :: 0 <= i < |fs| ==> fs[i].width == Percent(fs[i].total, total)
  }

  lemma ExactThree(f: Frame, a: seq<Frame>, b: seq<Frame>, total: int)
    requires f.width == Percent(f.total, total) && Exact(a, total) && Exact(b, total)
    ensures Exact([f] + a + b, total)
  {
    hide Percent;
  }

  /** When the children of no node sum past it, each frame is as wide as its share. */
  lemma {:induction false} LayoutExact(n: Node, parent: string, depth: nat, left: real, right: real, total: int)
    requires Roomy(n) && total > 0 && Percent(SumOf(n.children, n.children.Keys, TimeOf), total) <= right - left
    ensures Exact(Layout(n, parent, depth, left, right, total), total)
    decreases n, 1, 0
  {
    hide SumOf, Percent;
    KidSumIs(n, Kids(n.children), n.children.Keys);
    KidsExact(n, Kids(n.children), parent, depth, left, right, total);
  }

  lemma {:induction false} KidsExact(n: Node, kids: seq<string>, parent: string, depth: nat, left: real, right: real,
          total: int)
    requires Roomy(n) && total > 0 && forall k :: k in kids ==> k in n.children
    requires Percent(KidSum(n, kids), total) <= right - left
    ensures Exact(LayoutKids(n, kids, parent, depth, left, right, total), total)
    decreases n, 0, |kids|
  {
    hide SumOf, Percent, Layout;
    if kids != [] {
      var k := kids[0];
      assert k in kids;
      var c := n.children[k];
      KidSumSign(n, kids[1..]);
      PercentSum(c.sums.total, KidSum(n, kids[1..]), total);
      PercentSign(KidSum(n, kids[1..]), total);
      PercentSign(c.sums.total, total);
      var w := Width(c, left, right, total);
      if w <= 0.0 {
        KidsExact(n, kids[1..], parent, depth, left, right, total);
      } else {
        PercentRises(SumOf(c.children, c.children.Keys, TimeOf), c.sums.total, total);
        LayoutExact(c, PathTo(parent, k), depth + 1, left, left + w, total);
        KidsExact(n, kids[1..], parent, depth, left + w, right, total);
        ExactThree(FrameOf(k, c, parent, depth, left, w),
                   Layout(c, PathTo(parent, k), depth + 1, left, left + w, total),
                   LayoutKids(n, kids[1..], parent, depth, left + w, right, total), total);
      }
    }
  }

  /** In the graph of a fold in which no node's children sum past it, every width is a percentage of the
      run's time. */
  lemma GraphExact(root: Node)
    requires Roomy(root)
    ensures Exact(FlameFrames(root), SumOf(root.children, root.children.Keys, TimeOf))
  {
    hide Layout, SumOf, Percent, Roomy;
    var total := SumOf(root.children, root.children.Keys, TimeOf);
    if total > 0 {
      PercentSum(total, 0, total);
      LayoutExact(root, "", 0, 0.0, 100.0, total);
    }
  }

  // ---------------------------------------------------------------- every node that took time

  /** A frame of the node at a path below. */
  ghost predicate Shown(fs: seq<Frame>, depth: nat, path: seq<string>, c: Node)
    requires path != []
  {
    exists f :: f in fs && f.depth == depth + |path| - 1 && f.name == path[|path| - 1] && f.total == c.sums.total
  }

  lemma {:induction false} KidsShow(n: Node, kids: seq<string>, parent: string, depth: nat, left: real, right: real,
          total: int, path: seq<string>)
    requires Roomy(n) && total > 0 && (forall k :: k in kids ==> k in n.children)
    requires Percent(KidSum(n, kids), total) <= right - left
    requires path != [] && path[0] in kids && Has(n, path) && NodeAt(n, path).sums.total > 0
    ensures Shown(LayoutKids(n, kids, parent, depth, left, right, total), depth, path, NodeAt(n, path))
    decreases n, 0, |kids|
  {
    hide SumOf, Percent, Layout, Has, NodeAt;
    var k := kids[0];
    assert k in kids;
    var c := n.children[k];
    KidSumSign(n, kids[1..]);
    PercentSum(c.sums.total, KidSum(n, kids[1..]), total);
    PercentSign(KidSum(n, kids[1..]), total);
    PercentSign(c.sums.total, total);
    var w := Width(c, left, right, total);
    var all := LayoutKids(n, kids, parent, depth, left, right, total);
    AlongPath(n, path);
    if path[0] != k {
      assert kids == [k] + kids[1..];
      var left' := if w <= 0.0 then left else left + w;
      KidsShow(n, kids[1..], parent, depth, left', right, total, path);
      var rest := LayoutKids(n, kids[1..], parent, depth, left', right, total);
      var f :| f in rest && f.depth == depth + |path| - 1 && f.name == path[|path| - 1]
            && f.total == NodeAt(n, path).sums.total;
      assert f in all;
    } else {
      var top := FrameOf(k, c, parent, depth, left, w);
      assert w > 0.0 && top in all;
      if |path| > 1 {
        var below := Layout(c, PathTo(parent, k), depth + 1, left, left + w, total);
        PercentRises(SumOf(c.children, c.children.Keys, TimeOf), c.sums.total, total);
        LayoutShows(c, PathTo(parent, k), depth + 1, left, left + w, total, path[1..]);
        var f :| f in below && f.depth == depth + 1 + |path[1..]| - 1 && f.name == path[1..][|path[1..]| - 1]
                 && f.total == NodeAt(c, path[1..]).sums.total;
        assert f in all;
      }
    }
  }

  lemma {:induction false} LayoutShows(n: Node, parent: string, depth: nat, left: real, right: real, total: int,
          path: seq<string>)
    requires Roomy(n) && total > 0 && Percent(SumOf(n.children, n.children.Keys, TimeOf), total) <= right - left
    requires path != [] && Has(n, path) && NodeAt(n, path).sums.total > 0
    ensures Shown(Layout(n, parent, depth, left, right, total), depth, path, NodeAt(n, path))
    decreases n, 1, 0
  {
    hide SumOf, Percent, NodeAt, Shown;
    KidSumIs(n, Kids(n.children), n.children.Keys);
    KidsShow(n, Kids(n.children), parent, depth, left, right, total, path);
  }

  /** A node that took time lies under one that did. */
  lemma {:induction false} AlongPath(n: Node, path: seq<string>)
    requires Roomy(n) && path != [] && Has(n, path) && NodeAt(n, path).sums.total > 0
    ensures path[0] in n.children && n.children[path[0]].sums.total > 0
    ensures Has(n.children[path[0]], path[1..]) && NodeAt(n, path) == NodeAt(n.children[path[0]], path[1..])
    ensures |path| == 1 ==> NodeAt(n, path) == n.children[path[0]]
    decreases |path|
  {
    hide SumOf;
    var c := n.children[path[0]];
    if |path| > 1 {
      AlongPath(c, path[1..]);
      OneOfThem(c, path[1]);
    }
  }

  lemma OneOfThem(n: Node, k: string)
    requires Roomy(n) && k in n.children
    ensures n.children[k].sums.total <= SumOf(n.children, n.children.Keys, TimeOf)
  {
    SumTake(n.children, n.children.Keys, k, TimeOf);
    SumSign(n, n.children.Keys - {k});
  }

  lemma {:induction false} SumSign(n: Node, names: set<string>)
    requires Roomy(n) && names <= n.children.Keys
    ensures SumOf(n.children, names, TimeOf) >= 0
    decreases |names|
  {
    if names != {} {
      var k :| k in names;
      SumTake(n.children, names, k, TimeOf);
      SumSign(n, names - {k});
    }
  }

  /** In such a fold, every node that took time has its frame, at its depth. */
  lemma GraphShowsAll(root: Node, path: seq<string>)
    requires Roomy(root) && path != [] && Has(root, path) && NodeAt(root, path).sums.total > 0
    ensures Shown(FlameFrames(root), 0, path, NodeAt(root, path))
  {
    hide Layout, SumOf, Percent, NodeAt, Shown;
    var total := SumOf(root.children, root.children.Keys, TimeOf);
    AlongPath(root, path);
    OneOfThem(root, path[0]);
    PercentSum(total, 0, total);
    LayoutShows(root, "", 0, 0.0, 100.0, total, path);
  }

  // ---------------------------------------------------------------- the layout as it runs

  /** A node's children, taken from the map in any order and sorted. */
  method SortedChildren(n: Node) returns (kids: seq<string>)
    ensures kids == Kids(n.children)
  {
    WidestIsOrder(n.children);
    kids := Sort(Widest(n.children), n.children.Keys);
  }

  /** The list the layout appends to. */
  class FrameList {
    var frames: seq<Frame>

    constructor ()
      ensures frames == []
    {
      frames := [];
    }

    /** Lay a node's children out left to right, each with everything below it. */
    method LayOut(n: Node, parent: string, depth: nat, left: real, right: real, total: int)
      modifies this
      ensures frames == old(frames) + Layout(n, parent, depth, left, right, total)
      decreases n
    {
      hide Percent, Kids, LayoutKids, PathTo;
      var kids := SortedChildren(n);
      ghost var goal := frames + LayoutKids(n, kids, parent, depth, left, right, total);
      var at := left;
      assert kids[0..] == kids;
      for i := 0 to |kids|
        invariant frames + LayoutKids(n, kids[i..], parent, depth, at, right, total) == goal
      {
        assert kids[i] in kids;
        KidAt(n, kids, i, parent, depth, at, right, total);
        var c := n.children[kids[i]];
        var w := Percent(c.sums.total, total);
        if at + w > right {
          w := right - at;
        }
        if w > 0.0 {
          ghost var before := frames;
          frames := frames + [FrameOf(kids[i], c, parent, depth, at, w)];
          LayOut(c, PathTo(parent, kids[i]), depth + 1, at, at + w, total);
          ThreeMore(before, FrameOf(kids[i], c, parent, depth, at, w),
                    Layout(c, PathTo(parent, kids[i]), depth + 1, at, at + w, total),
                    LayoutKids(n, kids[i + 1..], parent, depth, at + w, right, total));
          at := at + w;
        }
      }
      NoKids(n, kids, parent, depth, at, right, total);
      assert frames + [] == frames;
    }
  }

  lemma ThreeMore(before: seq<Frame>, f: Frame, a: seq<Frame>, b: seq<Frame>)
    ensures before + ([f] + a + b) == before + [f] + a + b
  {
  }

  lemma NoKids(n: Node, kids: seq<string>, parent: string, depth: nat, left: real, right: real, total: int)
    ensures LayoutKids(n, kids[|kids|..], parent, depth, left, right, total) == []
  {
  }

  lemma KidAt(n: Node, kids: seq<string>, i: nat, parent: string, depth: nat, left: real, right: real, total: int)
    requires i < |kids| && forall k :: k in kids ==> k in n.children
    ensures kids[i] in kids
    ensures var c := n.children[kids[i]];
            var w := Width(c, left, right, total);
            LayoutKids(n, kids[i..], parent, depth, left, right, total) ==
            if w <= 0.0 then LayoutKids(n, kids[i + 1..], parent, depth, left, right, total)
            else [FrameOf(kids[i], c, parent, depth, left, w)]
                 + Layout(c, PathTo(parent, kids[i]), depth + 1, left, left + w, total)
                 + LayoutKids(n, kids[i + 1..], parent, depth, left + w, right, total)
  {
    hide Layout, Width;
    assert kids[i..][1..] == kids[i + 1..];
  }

  /** The graph of a whole fold. */
  method DrawAll(root: Node) returns (frames: seq<Frame>)
    ensures frames == FlameFrames(root)
  {
    hide Layout, SumOf;
    var total, left := 0, root.children.Keys;
    while left != {}
      invariant left <= root.children.Keys
      invariant total + SumOf(root.children, left, TimeOf) == SumOf(root.children, root.children.Keys, TimeOf)
    {
      var k :| k in left;
      SumTake(root.children, left, k, TimeOf);
      total := total + root.children[k].sums.total;
      left := left - {k};
    }
    SumNone(root.children);
    if total <= 0 {
      return [];
    }
    var out := new FrameList();
    out.LayOut(root, "", 0, 0.0, 100.0, total);
    return out.frames;
  }

  lemma SumNone(m: map<string, Node>)
    ensures SumOf(m, {}, TimeOf) == 0
  {
  }
}
