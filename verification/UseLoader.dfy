/** Loading the flow files that `use` steps name (internal/parser/parser.go:119-132, 336-409): a depth-
    first walk that knows the files it is inside of, compiles each file once, and stops at a depth. */
module UseLoader {
  import opened Options

  /** A flow file, by its cleaned path. */
  type Key = string

  const MAX_USE_DEPTH := 8

  // ---------------------------------------------------------------- flow files and what loading gives

  /** What a use step names: a path that is refused as written, or a file. */
  datatype Target = NoPath(message: string) | Names(key: Key)

  /** A step, as far as loading goes: `Broken` stands for any error of the step itself. */
  datatype Item = Plain | Broken(message: string) | Using(id: string, target: Target)

  /** A file: unreadable or not one document, not a mapping, or a flow with its steps. */
  datatype Content = Unreadable(message: string) | NotAFlow | FlowFile(items: seq<Item>)

  type Files = Key -> Content

  datatype Loaded = Loaded(steps: seq<LoadedStep>)

  datatype LoadedStep = Other | UseStep(flow: Option<Loaded>)

  /** One link of the chain an error carries: the step of a file that led on. */
  datatype Hop = Hop(file: Key, step: string)

  datatype Fault =
    | Wrong(message: string)
    | BadPath(message: string)
    | Cycle(files: seq<Key>)
    | TooDeep(key: Key)
    | CannotRead(key: Key, message: string)
    | NoFlow

  datatype Error = Error(file: Key, chain: seq<Hop>, fault: Fault)

  /** What one load shares: the compiled flows, and, in order, every file whose compiling began. */
  datatype Memo = Memo(done: map<Key, Loaded>, compiled: seq<Key>)

  datatype Walked = Walked(memo: Memo, errs: seq<Error>, steps: seq<LoadedStep>)

  ghost predicate NoDup<T>(s: seq<T>) {
    forall i, j :: 0 <= i < j < |s| ==> s[i] != s[j]
  }

  /** The files being compiled: never the same one twice, never more than the depth and the entry. */
  ghost predicate Stacked(stack: seq<Key>) {
    0 < |stack| <= MAX_USE_DEPTH + 1 && NoDup(stack)
  }

  function IndexOf(s: seq<Key>, k: Key): (i: nat)
    requires k in s
    ensures i < |s| && s[i] == k
  {
    if s[0] == k then 0 else 1 + IndexOf(s[1..], k)
  }

  function Here(stack: seq<Key>): Key
    requires stack != []
  {
    stack[|stack| - 1]
  }

  function Refuse(stack: seq<Key>, chain: seq<Hop>, fault: Fault, memo: Memo): Walked
    requires stack != []
  {
    Walked(memo, [Error(Here(stack), chain, fault)], [UseStep(None)])
  }

  /** One use step: its flow, unless following it would go in a circle or too deep, or the file is no
      flow. A file already compiled is not compiled again. */
  function Use(files: Files, stack: seq<Key>, chain: seq<Hop>, id: string, target: Target, memo: Memo): (r: Walked)
    requires Stacked(stack)
    decreases MAX_USE_DEPTH + 2 - |stack|, 0
  {
    if target.NoPath? then Refuse(stack, chain, BadPath(target.message), memo)
    else
      var key := target.key;
      if key in stack then Refuse(stack, chain, Cycle(stack[IndexOf(stack, key)..] + [key]), memo)
      else if |stack| > MAX_USE_DEPTH then Refuse(stack, chain, TooDeep(key), memo)
      else if key in memo.done then Walked(memo, [], [UseStep(Some(memo.done[key]))])
      else if files(key).Unreadable? then Refuse(stack, chain, CannotRead(key, files(key).message), memo)
      else
        var chain' := chain + [Hop(Here(stack), id)];
        if files(key).NotAFlow? then Walked(memo, [Error(key, chain', NoFlow)], [UseStep(None)])
        else
          var w := Walk(files, stack + [key], chain', files(key).items, memo.(compiled := memo.compiled + [key]));
          Walked(w.memo.(done := w.memo.done[key := Loaded(w.steps)]), w.errs, [UseStep(Some(Loaded(w.steps)))])
  }

  /** The steps of one file. */
  function Walk(files: Files, stack: seq<Key>, chain: seq<Hop>, items: seq<Item>, memo: Memo): (r: Walked)
    requires Stacked(stack)
    decreases MAX_USE_DEPTH + 2 - |stack|, 1 + |items|
  {
    if items == [] then Walked(memo, [], []) else
      var first := Visit(files, stack, chain, items[0], memo);
      var rest := Walk(files, stack, chain, items[1..], first.memo);
      Walked(rest.memo, first.errs + rest.errs, first.steps + rest.steps)
  }

  function Visit(files: Files, stack: seq<Key>, chain: seq<Hop>, item: Item, memo: Memo): (r: Walked)
    requires Stacked(stack)
    decreases MAX_USE_DEPTH + 2 - |stack|, 1
  {
    match item
    case Plain => Walked(memo, [], [Other])
    case Broken(m) => Walked(memo, [Error(Here(stack), chain, Wrong(m))], [Other])
    case Using(id, target) => Use(files, stack, chain, id, target, memo)
  }

  /** Loading from the entry file, whose steps are at hand. */
  function Load(files: Files, entry: Key, items: seq<Item>): Walked {
    Walk(files, [entry], [], items, Memo(map[], [entry]))
  }

  // ---------------------------------------------------------------- each file is compiled once

  /** Compiled so far: each file once, and those are the finished ones and the ones being compiled. */
  ghost predicate Once(stack: seq<Key>, memo: Memo) {
    && NoDup(memo.compiled)
    && (forall k :: k in memo.compiled <==> k in memo.done || k in stack)
    && (forall k :: k in stack ==> k !in memo.done)
  }

  lemma Push(stack: seq<Key>, key: Key, memo: Memo)
    requires Once(stack, memo) && key !in stack && key !in memo.done
    ensures Once(stack + [key], memo.(compiled := memo.compiled + [key]))
  {
  }

  lemma Pop(stack: seq<Key>, key: Key, memo: Memo, f: Loaded)
    requires Once(stack + [key], memo) && key !in stack
    ensures Once(stack, memo.(done := memo.done[key := f]))
  {
  }

  lemma {:induction false} VisitOnce(files: Files, stack: seq<Key>, chain: seq<Hop>, item: Item, memo: Memo)
    requires Stacked(stack) && Once(stack, memo)
    ensures var r := Visit(files, stack, chain, item, memo);
            Once(stack, r.memo) && memo.done.Keys <= r.memo.done.Keys
    decreases MAX_USE_DEPTH + 2 - |stack|, 0
  {
    hide Once;
    if item.Using? && item.target.Names? {
      var key := item.target.key;
      if key !in stack && |stack| <= MAX_USE_DEPTH && key !in memo.done && files(key).FlowFile? {
        var memo1 := memo.(compiled := memo.compiled + [key]);
        var chain1 := chain + [Hop(Here(stack), item.id)];
        Push(stack, key, memo);
        WalkOnce(files, stack + [key], chain1, files(key).items, memo1);
        var w := Walk(files, stack + [key], chain1, files(key).items, memo1);
        Pop(stack, key, w.memo, Loaded(w.steps));
      }
    }
  }

  lemma {:induction false} WalkOnce(files: Files, stack: seq<Key>, chain: seq<Hop>, items: seq<Item>, memo: Memo)
    requires Stacked(stack) && Once(stack, memo)
    ensures var r := Walk(files, stack, chain, items, memo);
            Once(stack, r.memo) && memo.done.Keys <= r.memo.done.Keys
    decreases MAX_USE_DEPTH + 2 - |stack|, 1 + |items|
  {
    hide Once, Visit;
    if items != [] {
      VisitOnce(files, stack, chain, items[0], memo);
      WalkOnce(files, stack, chain, items[1..], Visit(files, stack, chain, items[0], memo).memo);
    }
  }

  /** No file is compiled twice in one load, and every one compiled below the entry ends up shared. */
  lemma CompiledOnce(files: Files, entry: Key, items: seq<Item>)
    ensures var r := Load(files, entry, items);
            NoDup(r.memo.compiled) && forall k :: k in r.memo.compiled <==> k in r.memo.done || k == entry
  {
    hide Walk;
    WalkOnce(files, [entry], [], items, Memo(map[], [entry]));
  }

  // ---------------------------------------------------------------- what a loaded flow stands for

  /** A flow is what its file says, all the way down: every step in place, every use step with the flow
      of the file it names. */
  ghost predicate Matches(files: Files, key: Key, f: Loaded)
    decreases f, 2
  {
    files(key).FlowFile? && MatchSteps(files, files(key).items, f.steps)
  }

  ghost predicate MatchSteps(files: Files, items: seq<Item>, steps: seq<LoadedStep>)
    decreases steps, 1
  {
    && |items| == |steps|
    && (items != [] ==> MatchStep(files, items[0], steps[0]) && MatchSteps(files, items[1..], steps[1..]))
  }

  ghost predicate MatchStep(files: Files, item: Item, st: LoadedStep)
    decreases st, 0
  {
    match item
    case Plain => st.Other?
    case Broken(_) => false
    case Using(_, target) => target.Names? && st.UseStep? && st.flow.Some? && Matches(files, target.key, st.flow.value)
  }

  /** How many files deep a flow is, itself included. */
  function Height(f: Loaded): nat
    decreases f, 2
  {
    1 + HeightOf(f.steps)
  }

  function HeightOf(steps: seq<LoadedStep>): nat
    decreases steps, 1
  {
    if steps == [] then 0 else
      var h, t := HeightAt(steps[0]), HeightOf(steps[1..]);
      if h > t then h else t
  }

  function HeightAt(st: LoadedStep): nat
    decreases st, 0
  {
    if st.UseStep? && st.flow.Some? then Height(st.flow.value) else 0
  }

  /** A file stands for at most one flow. */
  lemma {:induction false} Unique(files: Files, key: Key, f: Loaded, g: Loaded)
    requires Matches(files, key, f) && Matches(files, key, g)
    ensures f == g
    decreases f, 2
  {
    UniqueSteps(files, files(key).items, f.steps, g.steps);
  }

  lemma {:induction false} UniqueSteps(files: Files, items: seq<Item>, fs: seq<LoadedStep>, gs: seq<LoadedStep>)
    requires MatchSteps(files, items, fs) && MatchSteps(files, items, gs)
    ensures fs == gs
    decreases fs, 1
  {
    if items != [] {
      UniqueStep(files, items[0], fs[0], gs[0]);
      UniqueSteps(files, items[1..], fs[1..], gs[1..]);
      assert fs == [fs[0]] + fs[1..] && gs == [gs[0]] + gs[1..];
    }
  }

  lemma {:induction false} UniqueStep(files: Files, item: Item, a: LoadedStep, b: LoadedStep)
    requires MatchStep(files, item, a) && MatchStep(files, item, b)
    ensures a == b
    decreases a, 0
  {
    if item.Using? {
      Unique(files, item.target.key, a.flow.value, b.flow.value);
    }
  }

  ghost predicate AllMatch(files: Files, done: map<Key, Loaded>) {
    forall k :: k in done ==> Matches(files, k, done[k])
  }

  lemma MatchUsed(files: Files, key: Key, f: Loaded, done: map<Key, Loaded>)
    requires Matches(files, key, f) && AllMatch(files, done)
    ensures AllMatch(files, done[key := f])
  {
    hide Matches;
  }

  lemma {:induction false} VisitSound(files: Files, stack: seq<Key>, chain: seq<Hop>, item: Item, memo: Memo)
    requires Stacked(stack) && AllMatch(files, memo.done)
    ensures var r := Visit(files, stack, chain, item, memo);
            r.errs == [] ==> AllMatch(files, r.memo.done) && |r.steps| == 1 && MatchStep(files, item, r.steps[0])
    decreases MAX_USE_DEPTH + 2 - |stack|, 0
  {
    if item.Using? && item.target.Names? {
      var key := item.target.key;
      if key !in stack && |stack| <= MAX_USE_DEPTH && key !in memo.done && files(key).FlowFile? {
        hide AllMatch, MatchSteps;
        var memo1 := memo.(compiled := memo.compiled + [key]);
        var chain1 := chain + [Hop(Here(stack), item.id)];
        WalkSound(files, stack + [key], chain1, files(key).items, memo1);
        var w := Walk(files, stack + [key], chain1, files(key).items, memo1);
        if w.errs == [] {
          MatchUsed(files, key, Loaded(w.steps), w.memo.done);
        }
      }
    }
  }

  lemma {:induction false} WalkSound(files: Files, stack: seq<Key>, chain: seq<Hop>, items: seq<Item>, memo: Memo)
    requires Stacked(stack) && AllMatch(files, memo.done)
    ensures var r := Walk(files, stack, chain, items, memo);
            r.errs == [] ==> AllMatch(files, r.memo.done) && MatchSteps(files, items, r.steps)
    decreases MAX_USE_DEPTH + 2 - |stack|, 1 + |items|
  {
    hide AllMatch, MatchStep, Visit;
    if items != [] {
      var first := Visit(files, stack, chain, items[0], memo);
      VisitSound(files, stack, chain, items[0], memo);
      if first.errs == [] {
        WalkSound(files, stack, chain, items[1..], first.memo);
        var rest := Walk(files, stack, chain, items[1..], first.memo);
        assert first.steps + rest.steps == [first.steps[0]] + rest.steps;
        assert (first.steps + rest.steps)[1..] == rest.steps;
      }
    }
  }

  // ---------------------------------------------------------------- no errors, no cycles

  /** File `a` has a step that uses file `b`. */
  ghost predicate Edge(files: Files, a: Key, b: Key) {
    files(a).FlowFile? && exists it :: it in files(a).items && it.Using? && it.target == Names(b)
  }

  /** Files each of which uses the next. */
  ghost predicate UsePath(files: Files, p: seq<Key>) {
    p != [] && forall i :: 0 <= i < |p| - 1 ==> Edge(files, p[i], p[i + 1])
  }

  /** A file with no error of its own. */
  ghost predicate Clean(files: Files, key: Key) {
    files(key).FlowFile? && forall it :: it in files(key).items ==> !it.Broken? && (it.Using? ==> it.target.Names?)
  }

  lemma {:induction false} StepDown(files: Files, items: seq<Item>, steps: seq<LoadedStep>, it: Item)
    returns (g: Loaded)
    requires MatchSteps(files, items, steps) && it in items && it.Using?
    ensures it.target.Names? && Matches(files, it.target.key, g) && Height(g) <= HeightOf(steps)
    decreases steps
  {
    hide Matches, Height;
    if it == items[0] {
      g := steps[0].flow.value;
    } else {
      g := StepDown(files, items[1..], steps[1..], it);
    }
  }

  lemma {:induction false} MatchesClean(files: Files, items: seq<Item>, steps: seq<LoadedStep>, it: Item)
    requires MatchSteps(files, items, steps) && it in items
    ensures !it.Broken? && (it.Using? ==> it.target.Names?)
    decreases steps
  {
    hide Matches;
    if it != items[0] {
      MatchesClean(files, items[1..], steps[1..], it);
    }
  }

  /** Along a path of uses the flows get shorter, file by file. */
  lemma {:induction false} PathDown(files: Files, p: seq<Key>, f: Loaded) returns (g: Loaded)
    requires UsePath(files, p) && Matches(files, p[0], f)
    ensures Matches(files, p[|p| - 1], g) && Height(g) + |p| <= Height(f) + 1
    decreases p
  {
    hide MatchSteps, HeightOf;
    if |p| == 1 {
      g := f;
    } else {
      assert Edge(files, p[0], p[1]);
      var it :| it in files(p[0]).items && it.Using? && it.target == Names(p[1]);
      var f1 := StepDown(files, files(p[0]).items, f.steps, it);
      var q := p[1..];
      g := PathDown(files, q, f1);
    }
  }

  /** From a flow that matches, every path of uses visits clean files, none twice, and no more of them
      than the flow is high. */
  lemma NoCycle(files: Files, p: seq<Key>, f: Loaded)
    requires UsePath(files, p) && Matches(files, p[0], f)
    ensures NoDup(p) && |p| <= Height(f) && Clean(files, p[|p| - 1])
  {
    hide MatchSteps, HeightOf;
    var g := PathDown(files, p, f);
    var last := p[|p| - 1];
    forall it | it in files(last).items
      ensures !it.Broken? && (it.Using? ==> it.target.Names?)
    {
      MatchesClean(files, files(last).items, g.steps, it);
    }
    forall i, j | 0 <= i < j < |p|
      ensures p[i] != p[j]
    {
      if p[i] == p[j] {
        var a := PathDown(files, p[..i + 1], f);
        var b := PathDown(files, p[i..j + 1], a);
        Unique(files, p[i], a, b);
      }
    }
  }

  // ---------------------------------------------------------------- what loads

  /** The files done once a step has been followed: a file not done before adds everything below it, and
      then itself. */
  ghost function DoneStep(files: Files, done: set<Key>, item: Item, st: LoadedStep): set<Key>
    decreases st, 0
  {
    if item.Using? && item.target.Names? && item.target.key !in done && st.UseStep? && st.flow.Some?
       && files(item.target.key).FlowFile?
    then DoneSteps(files, done, files(item.target.key).items, st.flow.value.steps) + {item.target.key}
    else done
  }

  ghost function DoneSteps(files: Files, done: set<Key>, items: seq<Item>, steps: seq<LoadedStep>): set<Key>
    decreases steps, 1
  {
    if items == [] || steps == [] then done
    else DoneSteps(files, DoneStep(files, done, items[0], steps[0]), items[1..], steps[1..])
  }

  /** Whether a step is followed to its end with `room` more files on the stack: one already compiled
      takes the room of one file, another as much as its steps need below it. */
  ghost predicate FitStep(files: Files, done: set<Key>, item: Item, st: LoadedStep, room: nat)
    decreases st, 0
  {
    item.Using? ==>
      && item.target.Names? && st.UseStep? && st.flow.Some? && room > 0
      && (item.target.key in done
          || (files(item.target.key).FlowFile?
              && FitSteps(files, done, files(item.target.key).items, st.flow.value.steps, room - 1)))
  }

  /** Steps one after another, each with what the steps before it have compiled. */
  ghost predicate FitSteps(files: Files, done: set<Key>, items: seq<Item>, steps: seq<LoadedStep>, room: nat)
    decreases steps, 1
  {
    && |items| == |steps|
    && (items != [] ==>
          && FitStep(files, done, items[0], steps[0], room)
          && FitSteps(files, DoneStep(files, done, items[0], steps[0]), items[1..], steps[1..], room))
  }

  /** Flows no higher than the room fit, whatever is done. */
  lemma {:induction false} LowFits(files: Files, done: set<Key>, items: seq<Item>, steps: seq<LoadedStep>, room: nat)
    requires MatchSteps(files, items, steps) && HeightOf(steps) <= room
    ensures FitSteps(files, done, items, steps, room)
    decreases steps, 1
  {
    if items != [] {
      LowFitsStep(files, done, items[0], steps[0], room);
      LowFits(files, DoneStep(files, done, items[0], steps[0]), items[1..], steps[1..], room);
    }
  }

  lemma {:induction false} LowFitsStep(files: Files, done: set<Key>, item: Item, st: LoadedStep, room: nat)
    requires MatchStep(files, item, st) && HeightAt(st) <= room
    ensures FitStep(files, done, item, st, room)
    decreases st, 0
  {
    if item.Using? {
      LowFits(files, done, files(item.target.key).items, st.flow.value.steps, room - 1);
    }
  }

  /** Every file on the stack stands for a flow higher than `h`. */
  ghost predicate Above(files: Files, stack: seq<Key>, h: nat) {
    forall k :: k in stack ==> exists g :: Matches(files, k, g) && Height(g) > h
  }

  lemma AboveOff(files: Files, stack: seq<Key>, key: Key, f: Loaded)
    requires Matches(files, key, f) && Above(files, stack, Height(f))
    ensures key !in stack
  {
    hide Matches, Height;
    if key in stack {
      var g :| Matches(files, key, g) && Height(g) > Height(f);
      Unique(files, key, f, g);
    }
  }

  lemma AbovePush(files: Files, stack: seq<Key>, key: Key, f: Loaded, h: nat)
    requires Matches(files, key, f) && Above(files, stack, Height(f)) && h < Height(f)
    ensures Above(files, stack + [key], h)
  {
    hide Matches, Height;
    forall k | k in stack + [key]
      ensures exists g :: Matches(files, k, g) && Height(g) > h
    {
      if k in stack {
        var g :| Matches(files, k, g) && Height(g) > Height(f);
        assert Matches(files, k, g) && Height(g) > h;
      } else {
        assert k == key;
      }
    }
  }

  lemma AboveLess(files: Files, stack: seq<Key>, h: nat, h': nat)
    requires Above(files, stack, h) && h' <= h
    ensures Above(files, stack, h')
  {
    hide Matches, Height;
    forall k | k in stack
      ensures exists g :: Matches(files, k, g) && Height(g) > h'
    {
      var g :| Matches(files, k, g) && Height(g) > h;
      assert Matches(files, k, g) && Height(g) > h';
    }
  }

  lemma {:induction false} VisitFits(files: Files, stack: seq<Key>, chain: seq<Hop>, item: Item, memo: Memo,
          st: LoadedStep)
    requires Stacked(stack) && AllMatch(files, memo.done) && MatchStep(files, item, st)
    requires FitStep(files, memo.done.Keys, item, st, MAX_USE_DEPTH + 1 - |stack|) && Above(files, stack, HeightAt(st))
    ensures var r := Visit(files, stack, chain, item, memo);
            && r.errs == [] && r.steps == [st] && AllMatch(files, r.memo.done)
            && r.memo.done.Keys == DoneStep(files, memo.done.Keys, item, st)
    decreases st, 0
  {
    if item.Using? {
      var key, f := item.target.key, st.flow.value;
      AboveOff(files, stack, key, f);
      if key in memo.done {
        Unique(files, key, f, memo.done[key]);
      } else {
        hide AllMatch, MatchSteps, Above, HeightOf;
        var memo1 := memo.(compiled := memo.compiled + [key]);
        AbovePush(files, stack, key, f, HeightOf(f.steps));
        WalkFits(files, stack + [key], chain + [Hop(Here(stack), item.id)], files(key).items, memo1, f.steps);
        var w := Walk(files, stack + [key], chain + [Hop(Here(stack), item.id)], files(key).items, memo1);
        MatchUsed(files, key, f, w.memo.done);
      }
    }
  }

  lemma {:induction false} WalkFits(files: Files, stack: seq<Key>, chain: seq<Hop>, items: seq<Item>, memo: Memo,
          steps: seq<LoadedStep>)
    requires Stacked(stack) && AllMatch(files, memo.done) && MatchSteps(files, items, steps)
    requires FitSteps(files, memo.done.Keys, items, steps, MAX_USE_DEPTH + 1 - |stack|) &&
             Above(files, stack, HeightOf(steps))
    ensures var r := Walk(files, stack, chain, items, memo);
            && r.errs == [] && r.steps == steps && AllMatch(files, r.memo.done)
            && r.memo.done.Keys == DoneSteps(files, memo.done.Keys, items, steps)
    decreases steps, 1
  {
    hide AllMatch, MatchStep, FitStep, Above, HeightAt, Visit;
    if items != [] {
      AboveLess(files, stack, HeightOf(steps), HeightAt(steps[0]));
      AboveLess(files, stack, HeightOf(steps), HeightOf(steps[1..]));
      VisitFits(files, stack, chain, items[0], memo, steps[0]);
      var first := Visit(files, stack, chain, items[0], memo);
      WalkFits(files, stack, chain, items[1..], first.memo, steps[1..]);
      assert steps == [steps[0]] + steps[1..];
    }
  }

  /** A step followed without an error fits, and leaves done what it says. */
  lemma {:induction false} VisitTight(files: Files, stack: seq<Key>, chain: seq<Hop>, item: Item, memo: Memo)
    requires Stacked(stack) && Visit(files, stack, chain, item, memo).errs == []
    ensures var r := Visit(files, stack, chain, item, memo);
            && |r.steps| == 1 && FitStep(files, memo.done.Keys, item, r.steps[0], MAX_USE_DEPTH + 1 - |stack|)
            && r.memo.done.Keys == DoneStep(files, memo.done.Keys, item, r.steps[0])
    decreases MAX_USE_DEPTH + 2 - |stack|, 0
  {
    if item.Using? && item.target.Names? {
      var key := item.target.key;
      if key !in memo.done && files(key).FlowFile? {
        hide FitSteps, DoneSteps, Walk;
        WalkTight(files, stack + [key], chain + [Hop(Here(stack), item.id)], files(key).items,
                  memo.(compiled := memo.compiled + [key]));
      }
    }
  }

  lemma {:induction false} WalkTight(files: Files, stack: seq<Key>, chain: seq<Hop>, items: seq<Item>, memo: Memo)
    requires Stacked(stack) && Walk(files, stack, chain, items, memo).errs == []
    ensures var r := Walk(files, stack, chain, items, memo);
            && FitSteps(files, memo.done.Keys, items, r.steps, MAX_USE_DEPTH + 1 - |stack|)
            && r.memo.done.Keys == DoneSteps(files, memo.done.Keys, items, r.steps)
    decreases MAX_USE_DEPTH + 2 - |stack|, 1 + |items|
  {
    hide Visit, FitStep, DoneStep;
    if items != [] {
      var first := Visit(files, stack, chain, items[0], memo);
      var rest := Walk(files, stack, chain, items[1..], first.memo);
      VisitTight(files, stack, chain, items[0], memo);
      WalkTight(files, stack, chain, items[1..], first.memo);
      var steps := first.steps + rest.steps;
      assert steps == [first.steps[0]] + rest.steps && steps[1..] == rest.steps && steps[0] == first.steps[0];
    }
  }

  /** The entry loads without errors if and only if its file stands for a flow that fits, step by step in
      order, into the depth; and then it loads as that flow. */
  lemma LoadExactly(files: Files, entry: Key, items: seq<Item>)
    requires files(entry) == FlowFile(items)
    ensures var r := Load(files, entry, items);
            && (r.errs == [] <==>
                  exists f :: Matches(files, entry, f) && FitSteps(files, {}, items, f.steps, 8))
            && (r.errs == [] ==> Matches(files, entry, Loaded(r.steps)))
  {
    hide Walk, MatchSteps, FitSteps;
    var empty: map<Key, Loaded> := map[];
    assert empty.Keys == {};
    var memo := Memo(empty, [entry]);
    var r := Load(files, entry, items);
    if r.errs == [] {
      WalkSound(files, [entry], [], items, memo);
      WalkTight(files, [entry], [], items, memo);
      assert Matches(files, entry, Loaded(r.steps));
    }
    if f :| Matches(files, entry, f) && FitSteps(files, {}, items, f.steps, MAX_USE_DEPTH) {
      EntryFits(files, entry, items, f);
    }
  }

  lemma EntryFits(files: Files, entry: Key, items: seq<Item>, f: Loaded)
    requires files(entry) == FlowFile(items) && Matches(files, entry, f)
    requires FitSteps(files, {}, items, f.steps, MAX_USE_DEPTH)
    ensures Load(files, entry, items).errs == [] && Loaded(Load(files, entry, items).steps) == f
  {
    hide Walk, MatchSteps, HeightOf, FitSteps;
    var empty: map<Key, Loaded> := map[];
    assert empty.Keys == {};
    assert Above(files, [], Height(f));
    AbovePush(files, [], entry, f, HeightOf(f.steps));
    assert [] + [entry] == [entry];
    WalkFits(files, [entry], [], items, Memo(empty, [entry]), f.steps);
  }

  /** The entry loads as the flow it stands for, without errors, when that flow is at most nine files
      high, the entry included. */
  lemma LoadComplete(files: Files, entry: Key, items: seq<Item>, f: Loaded)
    requires files(entry) == FlowFile(items) && Matches(files, entry, f) && Height(f) <= 9
    ensures Load(files, entry, items).errs == [] && Loaded(Load(files, entry, items).steps) == f
  {
    hide Load, MatchSteps, HeightOf, FitSteps;
    LowFits(files, {}, items, f.steps, MAX_USE_DEPTH);
    EntryFits(files, entry, items, f);
  }

  // ---------------------------------------------------------------- what the depth does not bound

  /** Somewhere in the order of the walk, a file that is already done stands for a flow higher than the
      room left. */
  ghost predicate SavedStep(files: Files, done: set<Key>, item: Item, st: LoadedStep, room: nat)
    decreases st, 0
  {
    item.Using? && item.target.Names? && st.UseStep? && st.flow.Some? &&
    if item.target.key in done then Height(st.flow.value) > room
    else room > 0 && files(item.target.key).FlowFile?
         && SavedSteps(files, done, files(item.target.key).items, st.flow.value.steps, room - 1)
  }

  ghost predicate SavedSteps(files: Files, done: set<Key>, items: seq<Item>, steps: seq<LoadedStep>, room: nat)
    decreases steps, 1
  {
    items != [] && steps != [] &&
    (|| SavedStep(files, done, items[0], steps[0], room)
     || SavedSteps(files, DoneStep(files, done, items[0], steps[0]), items[1..], steps[1..], room))
  }

  lemma {:induction false} HigherIsSaved(files: Files, done: set<Key>, items: seq<Item>, steps: seq<LoadedStep>,
          room: nat)
    requires MatchSteps(files, items, steps) && FitSteps(files, done, items, steps, room)
    ensures HeightOf(steps) > room <==> SavedSteps(files, done, items, steps, room)
    decreases steps, 1
  {
    hide MatchStep, FitStep, SavedStep, DoneStep, HeightAt;
    if items != [] {
      HigherIsSavedStep(files, done, items[0], steps[0], room);
      HigherIsSaved(files, DoneStep(files, done, items[0], steps[0]), items[1..], steps[1..], room);
    }
  }

  lemma {:induction false} HigherIsSavedStep(files: Files, done: set<Key>, item: Item, st: LoadedStep, room: nat)
    requires MatchStep(files, item, st) && FitStep(files, done, item, st, room)
    ensures HeightAt(st) > room <==> SavedStep(files, done, item, st, room)
    decreases st, 0
  {
    if item.Using? && item.target.key !in done {
      HigherIsSaved(files, done, files(item.target.key).items, st.flow.value.steps, room - 1);
    }
  }

  /** An accepted flow is more than nine files high if and only if somewhere in the order of its steps a
      file already compiled stood for more than the depth had room for. */
  lemma NestsDeeperExactly(files: Files, entry: Key, items: seq<Item>)
    requires files(entry) == FlowFile(items) && Load(files, entry, items).errs == []
    ensures var f := Loaded(Load(files, entry, items).steps);
            Height(f) > 9 <==> SavedSteps(files, {}, items, f.steps, 8)
  {
    hide Walk, MatchSteps, FitSteps, SavedSteps, HeightOf;
    var empty: map<Key, Loaded> := map[];
    assert empty.Keys == {};
    var memo := Memo(empty, [entry]);
    WalkSound(files, [entry], [], items, memo);
    WalkTight(files, [entry], [], items, memo);
    HigherIsSaved(files, {}, items, Load(files, entry, items).steps, MAX_USE_DEPTH);
  }

  // ---------------------------------------------------------------- in terms of the files alone

  /** Every path of uses from `key` visits clean files, and at most `n` of them. */
  ghost predicate Shallow(files: Files, key: Key, n: nat) {
    forall p :: UsePath(files, p) && p[0] == key ==> |p| <= n && Clean(files, p[|p| - 1])
  }

  lemma PathOn(files: Files, a: Key, p: seq<Key>)
    requires UsePath(files, p) && Edge(files, a, p[0])
    ensures UsePath(files, [a] + p)
  {
    hide Edge;
    var q := [a] + p;
    forall i | 0 <= i < |q| - 1
      ensures Edge(files, q[i], q[i + 1])
    {
      if i > 0 {
        assert Edge(files, p[i - 1], p[i - 1 + 1]);
      }
    }
  }

  lemma ShallowDown(files: Files, a: Key, b: Key, n: nat)
    requires Shallow(files, a, n) && Edge(files, a, b)
    ensures n > 0 && Shallow(files, b, n - 1)
  {
    hide Edge, Clean;
    forall p | UsePath(files, p) && p[0] == b
      ensures n > 0 && |p| <= n - 1 && Clean(files, p[|p| - 1])
    {
      PathOn(files, a, p);
      assert ([a] + p)[|p|] == p[|p| - 1];
    }
    assert UsePath(files, [b]);
  }

  /** Files without errors or long paths stand for a flow. */
  lemma {:induction false} Grow(files: Files, key: Key, n: nat) returns (f: Loaded)
    requires Shallow(files, key, n)
    ensures Matches(files, key, f) && Height(f) <= n
    decreases n
  {
    hide Shallow, Edge;
    Alone(files, key, n);
    var steps := GrowSteps(files, key, files(key).items, n);
    f := Loaded(steps);
  }

  lemma Alone(files: Files, key: Key, n: nat)
    requires Shallow(files, key, n)
    ensures n > 0 && Clean(files, key)
  {
    assert UsePath(files, [key]);
  }

  lemma {:induction false} GrowSteps(files: Files, key: Key, items: seq<Item>, n: nat) returns (steps: seq<LoadedStep>)
    requires Shallow(files, key, n) && n > 0 && Clean(files, key) && forall it :: it in items ==> it in files(key).items
    ensures MatchSteps(files, items, steps) && HeightOf(steps) <= n - 1
    decreases n, 1 + |items|
  {
    hide Shallow, Matches, Height;
    if items == [] {
      steps := [];
    } else {
      var rest := GrowSteps(files, key, items[1..], n);
      var it := items[0];
      if it.Using? {
        assert Edge(files, key, it.target.key);
        ShallowDown(files, key, it.target.key, n);
        var f := Grow(files, it.target.key, n - 1);
        steps := [UseStep(Some(f))] + rest;
      } else {
        steps := [Other] + rest;
      }
      assert steps[1..] == rest;
    }
  }

  /** A load without errors: every use step, however deep, has the flow of the file it names; and from
      the entry no path of uses comes back to a file or meets one with an error. */
  lemma LoadSound(files: Files, entry: Key, items: seq<Item>, p: seq<Key>)
    requires files(entry) == FlowFile(items) && Load(files, entry, items).errs == []
    requires UsePath(files, p) && p[0] == entry
    ensures Matches(files, entry, Loaded(Load(files, entry, items).steps))
    ensures NoDup(p) && Clean(files, p[|p| - 1])
  {
    hide Walk, MatchSteps, UsePath, Clean;
    WalkSound(files, [entry], [], items, Memo(map[], [entry]));
    NoCycle(files, p, Loaded(Load(files, entry, items).steps));
  }

  /** When no path of uses from the entry is longer than the depth allows, loading succeeds if and only
      if every file reached is clean. */
  lemma LoadCleanExactly(files: Files, entry: Key, items: seq<Item>)
    requires files(entry) == FlowFile(items)
    requires forall p :: UsePath(files, p) && p[0] == entry ==> |p| <= 9
    ensures Load(files, entry, items).errs == [] <==>
            forall p :: UsePath(files, p) && p[0] == entry ==> Clean(files, p[|p| - 1])
  {
    hide Load, Clean, Edge, Matches, Height;
    if forall p :: UsePath(files, p) && p[0] == entry ==> Clean(files, p[|p| - 1]) {
      assert Shallow(files, entry, MAX_USE_DEPTH + 1);
      var f := Grow(files, entry, MAX_USE_DEPTH + 1);
      LoadComplete(files, entry, items, f);
    }
    if Load(files, entry, items).errs == [] {
      forall p | UsePath(files, p) && p[0] == entry
        ensures Clean(files, p[|p| - 1])
      {
        LoadSound(files, entry, items, p);
      }
    }
  }

  // ---------------------------------------------------------------- every error is true

  /** The chain is the use steps that lead, file by file, down the stack. */
  ghost predicate Route(files: Files, stack: seq<Key>, chain: seq<Hop>) {
    && |stack| == |chain| + 1
    && forall i :: 0 <= i < |chain| ==>
         chain[i].file == stack[i] && files(stack[i]).FlowFile?
         && Using(chain[i].step, Names(stack[i + 1])) in files(stack[i]).items
  }

  /** What a fault says of the file at the end of the stack is so. */
  ghost predicate Holds(files: Files, stack: seq<Key>, fault: Fault)
    requires stack != []
  {
    match fault
    case Wrong(m) => files(Here(stack)).FlowFile? && Broken(m) in files(Here(stack)).items
    case BadPath(m) => files(Here(stack)).FlowFile? && exists id :: Using(id, NoPath(m)) in files(Here(stack)).items
    case Cycle(fs) => |fs| >= 2 && fs[0] == fs[|fs| - 1] && UsePath(files, fs)
    case TooDeep(key) => |stack| == 9 && NoDup(stack + [key]) && Edge(files, Here(stack), key)
    case CannotRead(key, m) => files(key) == Unreadable(m) && Edge(files, Here(stack), key)
    case NoFlow => files(Here(stack)).NotAFlow?
  }

  ghost predicate Real(files: Files, entry: Key, e: Error) {
    exists stack :: stack != [] && stack[0] == entry && Here(stack) == e.file && Route(files, stack, e.chain)
                    && Holds(files, stack, e.fault)
  }

  lemma RoutePath(files: Files, stack: seq<Key>, chain: seq<Hop>)
    requires Route(files, stack, chain)
    ensures UsePath(files, stack)
  {
    forall i | 0 <= i < |stack| - 1
      ensures Edge(files, stack[i], stack[i + 1])
    {
      assert chain[i].file == stack[i];
    }
  }

  lemma RouteOn(files: Files, stack: seq<Key>, chain: seq<Hop>, id: string, key: Key)
    requires Route(files, stack, chain) && files(Here(stack)).FlowFile? &&
             Using(id, Names(key)) in files(Here(stack)).items
    ensures Route(files, stack + [key], chain + [Hop(Here(stack), id)])
  {
  }

  lemma CycleReal(files: Files, stack: seq<Key>, chain: seq<Hop>, id: string, key: Key)
    requires Route(files, stack, chain) && files(Here(stack)).FlowFile? &&
             Using(id, Names(key)) in files(Here(stack)).items
    requires key in stack
    ensures Holds(files, stack, Cycle(stack[IndexOf(stack, key)..] + [key]))
  {
    hide Edge;
    RouteOn(files, stack, chain, id, key);
    RoutePath(files, stack + [key], chain + [Hop(Here(stack), id)]);
    var i := IndexOf(stack, key);
    var fs := stack[i..] + [key];
    forall j | 0 <= j < |fs| - 1
      ensures Edge(files, fs[j], fs[j + 1])
    {
      assert Edge(files, (stack + [key])[i + j], (stack + [key])[i + j + 1]);
    }
  }

  lemma {:induction false} VisitReal(files: Files, stack: seq<Key>, chain: seq<Hop>, item: Item, memo: Memo, e: Error)
    requires Stacked(stack) && Route(files, stack, chain) && files(Here(stack)).FlowFile? &&
             item in files(Here(stack)).items
    requires e in Visit(files, stack, chain, item, memo).errs
    ensures Real(files, stack[0], e)
    decreases MAX_USE_DEPTH + 2 - |stack|, 0
  {
    hide Route, UsePath, Here;
    assert Stacked(stack) && Here(stack) == Here(stack);
    if item.Using? && item.target.Names? {
      var id, key := item.id, item.target.key;
      if key in stack {
        CycleReal(files, stack, chain, id, key);
      } else if |stack| <= MAX_USE_DEPTH && key !in memo.done && !files(key).Unreadable? {
        var stack1, chain1 := stack + [key], chain + [Hop(Here(stack), id)];
        RouteOn(files, stack, chain, id, key);
        assert Here(stack1) == key by {
          HereLast(stack, key);
        }
        if files(key).FlowFile? {
          WalkReal(files, stack1, chain1, files(key).items, memo.(compiled := memo.compiled + [key]), e);
        } else {
          assert stack1[0] == stack[0];
          assert Holds(files, stack1, NoFlow);
        }
      }
    }
  }

  lemma HereLast(stack: seq<Key>, key: Key)
    ensures Here(stack + [key]) == key
  {
  }

  lemma {:induction false} WalkReal(files: Files, stack: seq<Key>, chain: seq<Hop>, items: seq<Item>, memo: Memo,
          e: Error)
    requires Stacked(stack) && Route(files, stack, chain) && files(Here(stack)).FlowFile?
    requires forall it :: it in items ==> it in files(Here(stack)).items
    requires e in Walk(files, stack, chain, items, memo).errs
    ensures Real(files, stack[0], e)
    decreases MAX_USE_DEPTH + 2 - |stack|, 1 + |items|
  {
    hide Visit, Route, Here, Real;
    var first := Visit(files, stack, chain, items[0], memo);
    if e in first.errs {
      VisitReal(files, stack, chain, items[0], memo, e);
    } else {
      WalkReal(files, stack, chain, items[1..], first.memo, e);
    }
  }

  /** Every error of a load is reached from the entry by the use steps of its chain and says what is so;
      in particular a cycle it spells out is one, from a file back to itself. */
  lemma ErrorsAreReal(files: Files, entry: Key, items: seq<Item>, e: Error)
    requires files(entry) == FlowFile(items) && e in Load(files, entry, items).errs
    ensures Real(files, entry, e)
  {
    hide Walk, Real;
    WalkReal(files, [entry], [], items, Memo(map[], [entry]), e);
  }

  // ---------------------------------------------------------------- the depth a shared file hides

  /** Files named by a run of letters, each of which uses the next shorter one. */
  function Ladder(items: seq<Item>): Files {
    (k: Key) => if k == "entry" then FlowFile(items) else if k == "" then FlowFile([])
                else FlowFile([Using("down", Names(k[1..]))])
  }

  function Tower(k: Key): Loaded {
    if k == "" then Loaded([]) else Loaded([UseStep(Some(Tower(k[1..])))])
  }

  const SHORT := "a"
  const LONG := "aaaaaaaa"
  const TO_SHORT := Using("short", Names(SHORT))
  const TO_LONG := Using("long", Names(LONG))

  /** Nothing in a run of one letter names the entry. */
  predicate Rungs(k: Key) {
    forall i :: 0 <= i < |k| ==> k[i] == 'a'
  }

  lemma OneStep(files: Files, item: Item, f: Loaded)
    ensures HeightOf([UseStep(Some(f))]) == Height(f)
    ensures MatchSteps(files, [item], [UseStep(Some(f))]) <==> MatchStep(files, item, UseStep(Some(f)))
  {
    hide Matches, Height;
    assert HeightAt(UseStep(Some(f))) == Height(f);
    assert [UseStep(Some(f))][1..] == [] && [item][1..] == [];
    assert HeightOf([]) == 0 && MatchSteps(files, [], []);
  }

  lemma {:induction false} TowerMatches(items: seq<Item>, k: Key)
    requires Rungs(k)
    ensures Matches(Ladder(items), k, Tower(k)) && Height(Tower(k)) == |k| + 1
    decreases k
  {
    assert k != "entry" by {
      assert "entry"[0] == 'e';
    }
    if k != "" {
      TowerMatches(items, k[1..]);
      OneStep(Ladder(items), Using("down", Names(k[1..])), Tower(k[1..]));
    }
  }

  /** Once the short ladder is done, a longer one stops there. */
  lemma {:induction false} LongFits(items: seq<Item>, done: set<Key>, k: Key, room: nat)
    requires Rungs(k) && k != "" && SHORT in done && room >= |k|
    ensures FitStep(Ladder(items), done, Using("down", Names(k)), UseStep(Some(Tower(k))), room)
    decreases k
  {
    if |k| == 1 {
      assert k == SHORT;
    } else {
      LongFits(items, done, k[1..], room - 1);
      assert k != "entry" by {
        assert "entry"[0] == 'e';
      }
      assert Tower(k).steps == [UseStep(Some(Tower(k[1..])))];
      assert [UseStep(Some(Tower(k[1..])))][1..] == [] && [Using("down", Names(k[1..]))][1..] == [];
      assert FitSteps(Ladder(items), done, [], [], room - 1);
    }
  }

  lemma FirstRefused(files: Files, stack: seq<Key>, chain: seq<Hop>, items: seq<Item>, memo: Memo)
    requires Stacked(stack) && items != [] && Visit(files, stack, chain, items[0], memo).errs != []
    ensures Walk(files, stack, chain, items, memo).errs != []
  {
    hide Visit;
  }

  /** From an empty memo a ladder that reaches below the depth is refused. */
  lemma {:induction false} LadderRefused(items: seq<Item>, stack: seq<Key>, chain: seq<Hop>, id: string, k: Key,
          memo: Memo)
    requires Stacked(stack) && Rungs(k) && memo.done == map[] && |stack| + |k| > MAX_USE_DEPTH
    ensures Use(Ladder(items), stack, chain, id, Names(k), memo).errs != []
    decreases k
  {
    if k !in stack && |stack| <= MAX_USE_DEPTH {
      assert k != "entry" by {
        assert "entry"[0] == 'e';
      }
      var memo1 := memo.(compiled := memo.compiled + [k]);
      LadderRefused(items, stack + [k], chain + [Hop(Here(stack), id)], "down", k[1..], memo1);
      FirstRefused(Ladder(items), stack + [k], chain + [Hop(Here(stack), id)], [Using("down", Names(k[1..]))], memo1);
    }
  }

  /** Ten files deep, one more than the depth allows: refused when the long way is walked first,
      accepted when a step before it has already compiled the bottom of it. */
  lemma OrderDecidesDepth()
    ensures Load(Ladder([TO_LONG, TO_SHORT]), "entry", [TO_LONG, TO_SHORT]).errs != []
    ensures var r := Load(Ladder([TO_SHORT, TO_LONG]), "entry", [TO_SHORT, TO_LONG]);
            r.errs == [] && Height(Loaded(r.steps)) == 10
  {
    hide Use, Walk, Matches, MatchSteps, FitSteps, Height;
    var memo := Memo(map[], ["entry"]);
    LadderRefused([TO_LONG, TO_SHORT], ["entry"], [], "long", LONG, memo);
    FirstRefused(Ladder([TO_LONG, TO_SHORT]), ["entry"], [], [TO_LONG, TO_SHORT], memo);
    ShortThenLong();
  }

  lemma BothLadders(items: seq<Item>)
    ensures Rungs(SHORT) && Rungs(LONG)
    ensures Matches(Ladder(items), SHORT, Tower(SHORT)) && Height(Tower(SHORT)) == 2
    ensures Matches(Ladder(items), LONG, Tower(LONG)) && Height(Tower(LONG)) == 9
  {
    hide Tower, Matches, Height;
    TowerMatches(items, SHORT);
    TowerMatches(items, LONG);
  }

  lemma BothMatch(items: seq<Item>)
    requires items == [TO_SHORT, TO_LONG]
    ensures var f := Loaded([UseStep(Some(Tower(SHORT))), UseStep(Some(Tower(LONG)))]);
            Matches(Ladder(items), "entry", f) && Height(f) == 10
  {
    hide Tower, Matches, Height;
    BothLadders(items);
    var steps := [UseStep(Some(Tower(SHORT))), UseStep(Some(Tower(LONG)))];
    TwoSteps(Ladder(items), TO_SHORT, TO_LONG, Tower(SHORT), Tower(LONG));
    Unfold(Ladder(items), "entry", Loaded(steps));
  }

  lemma Unfold(files: Files, key: Key, f: Loaded)
    ensures Matches(files, key, f) <==> files(key).FlowFile? && MatchSteps(files, files(key).items, f.steps)
    ensures Height(f) == 1 + HeightOf(f.steps)
  {
    hide MatchSteps, HeightOf;
  }

  lemma TwoSteps(files: Files, a: Item, b: Item, f: Loaded, g: Loaded)
    ensures var steps := [UseStep(Some(f)), UseStep(Some(g))];
            && HeightOf(steps) == (if Height(f) > Height(g) then Height(f) else Height(g))
            && (MatchSteps(files, [a, b], steps) <==>
                  MatchStep(files, a, UseStep(Some(f))) && MatchStep(files, b, UseStep(Some(g))))
  {
    hide Matches, Height, MatchStep;
    OneStep(files, b, g);
    assert [UseStep(Some(f)), UseStep(Some(g))][1..] == [UseStep(Some(g))] && [a, b][1..] == [b];
    assert HeightAt(UseStep(Some(f))) == Height(f);
  }

  lemma ShortThenLong()
    ensures var r := Load(Ladder([TO_SHORT, TO_LONG]), "entry", [TO_SHORT, TO_LONG]);
            r.errs == [] && Height(Loaded(r.steps)) == 10
  {
    hide Use, Walk, Matches, Height, Tower, Ladder, FitStep, Visit;
    var items := [TO_SHORT, TO_LONG];
    var files, stack, memo := Ladder(items), ["entry"], Memo(map[], ["entry"]);
    BothMatch(items);
    BothLadders(items);
    assert Above(files, stack, 9);
    AboveLess(files, stack, 9, 2);
    var first := Visit(files, stack, [], TO_SHORT, memo);
    ShortFits(items);
    VisitFits(files, stack, [], TO_SHORT, memo, UseStep(Some(Tower(SHORT))));
    UseDone(files, stack, [], TO_SHORT, memo);
    LongFits(items, first.memo.done.Keys, LONG, MAX_USE_DEPTH);
    DownOrLong(files, first.memo.done.Keys, UseStep(Some(Tower(LONG))), LONG, MAX_USE_DEPTH);
    VisitFits(files, stack, [], TO_LONG, first.memo, UseStep(Some(Tower(LONG))));
    TwoItems(files, stack, [], TO_SHORT, TO_LONG, memo);
    assert [UseStep(Some(Tower(SHORT)))] + [UseStep(Some(Tower(LONG)))] ==
           [UseStep(Some(Tower(SHORT))), UseStep(Some(Tower(LONG)))];
  }

  lemma ShortFits(items: seq<Item>)
    ensures var empty: map<Key, Loaded> := map[];
            FitStep(Ladder(items), empty.Keys, TO_SHORT, UseStep(Some(Tower(SHORT))), MAX_USE_DEPTH)
  {
    hide Tower, Ladder, Matches, Height, FitStep;
    var empty: map<Key, Loaded> := map[];
    BothLadders(items);
    LowFitsStep(Ladder(items), empty.Keys, TO_SHORT, UseStep(Some(Tower(SHORT))), MAX_USE_DEPTH);
  }

  /** Whether a step fits does not depend on its name. */
  lemma DownOrLong(files: Files, done: set<Key>, st: LoadedStep, k: Key, room: nat)
    requires FitStep(files, done, Using("down", Names(k)), st, room)
    ensures FitStep(files, done, Using("long", Names(k)), st, room)
  {
  }

  lemma UseDone(files: Files, stack: seq<Key>, chain: seq<Hop>, item: Item, memo: Memo)
    requires Stacked(stack) && item.Using? && Visit(files, stack, chain, item, memo).errs == []
    ensures item.target.Names? && item.target.key in Visit(files, stack, chain, item, memo).memo.done
  {
    hide Walk;
  }

  lemma TwoItems(files: Files, stack: seq<Key>, chain: seq<Hop>, a: Item, b: Item, memo: Memo)
    requires Stacked(stack)
    ensures var first := Visit(files, stack, chain, a, memo);
            var second := Visit(files, stack, chain, b, first.memo);
            var r := Walk(files, stack, chain, [a, b], memo);
            r.errs == first.errs + second.errs && r.steps == first.steps + second.steps
  {
    hide Visit;
    var first := Visit(files, stack, chain, a, memo);
    var second := Visit(files, stack, chain, b, first.memo);
    assert [a, b][1..] == [b] && [b][1..] == [];
    assert Walk(files, stack, chain, [b], first.memo) == second by {
      assert Walk(files, stack, chain, [], second.memo) == Walked(second.memo, [], []);
      assert second.errs + [] == second.errs && second.steps + [] == second.steps;
    }
  }
}
