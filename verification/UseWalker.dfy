/** The load of used flow files as it runs: a stack and a memo shared by one walker a file
    (internal/parser/parser.go:104-132, 345-409), proved to do what UseLoader says. */
module UseWalker {
  import opened Options
  import opened UseLoader

  /** What was found so far, then a walk. */
  ghost function Then(errs: seq<Error>, steps: seq<LoadedStep>, w: Walked): Walked {
    Walked(w.memo, errs + w.errs, steps + w.steps)
  }

  lemma WalkStarts(files: Files, stack: seq<Key>, chain: seq<Hop>, items: seq<Item>, memo: Memo)
    requires Stacked(stack)
    ensures var w := Walk(files, stack, chain, items, memo);
            Then([], [], Walk(files, stack, chain, items[0..], memo)) == w
  {
    hide Walk;
    assert items[0..] == items;
    var w := Walk(files, stack, chain, items, memo);
    assert [] + w.errs == w.errs && [] + w.steps == w.steps;
  }

  lemma WalkEnds(files: Files, stack: seq<Key>, chain: seq<Hop>, items: seq<Item>, memo: Memo, errs: seq<Error>,
          steps: seq<LoadedStep>)
    requires Stacked(stack)
    ensures Then(errs, steps, Walk(files, stack, chain, items[|items|..], memo)) == Walked(memo, errs, steps)
  {
    assert errs + [] == errs && steps + [] == steps;
  }

  lemma WalkStep(files: Files, stack: seq<Key>, chain: seq<Hop>, items: seq<Item>, i: nat, memo: Memo,
                 errs: seq<Error>, steps: seq<LoadedStep>)
    requires Stacked(stack) && i < |items|
    ensures var v := Visit(files, stack, chain, items[i], memo);
            Then(errs, steps, Walk(files, stack, chain, items[i..], memo)) ==
            Then(errs + v.errs, steps + v.steps, Walk(files, stack, chain, items[i + 1..], v.memo))
    ensures var v := Visit(files, stack, chain, items[i], memo);
            (items[i].Plain? ==> v == Walked(memo, [], [Other]) && errs + v.errs == errs)
            && (items[i].Broken? ==> v == Walked(memo, [Error(Here(stack), chain, Wrong(items[i].message))], [Other]))
            && (items[i].Using? ==> v == Use(files, stack, chain, items[i].id, items[i].target, memo))
  {
    hide Use;
    assert items[i..][1..] == items[i + 1..];
    var v := Visit(files, stack, chain, items[i], memo);
    var w := Walk(files, stack, chain, items[i + 1..], v.memo);
    assert errs + (v.errs + w.errs) == errs + v.errs + w.errs;
    assert steps + (v.steps + w.steps) == steps + v.steps + w.steps;
  }

  /** What one load shares, updated in place; `compiled` is kept for the proof. */
  class UseLoad {
    var stack: seq<Key>
    var done: map<Key, Loaded>
    ghost var compiled: seq<Key>

    constructor (entry: Key)
      ensures stack == [entry] && Seen() == Memo(map[], [entry])
    {
      stack, done, compiled := [entry], map[], [entry];
    }

    ghost function Seen(): Memo
      reads this
    {
      Memo(done, compiled)
    }
  }

  /** One file being walked. */
  class Walker {
    const files: Files
    const file: Key
    const chain: seq<Hop>
    const load: UseLoad
    var errs: seq<Error>

    constructor (files: Files, file: Key, chain: seq<Hop>, load: UseLoad)
      ensures this.files == files && this.file == file && this.chain == chain && this.load == load && errs == []
    {
      this.files, this.file, this.chain, this.load := files, file, chain, load;
      errs := [];
    }

    /** The file on top of the stack is this one. */
    ghost predicate Valid()
      reads this, load
    {
      Stacked(load.stack) && Here(load.stack) == file
    }

    method ErrAt(fault: Fault)
      modifies this
      ensures errs == old(errs) + [Error(file, chain, fault)]
    {
      errs := errs + [Error(file, chain, fault)];
    }

    /** Push, walk the file, pop, take over its errors, remember its flow. */
    method Use(id: string, target: Target) returns (flow: Option<Loaded>)
      requires Valid()
      modifies this, load
      ensures load.stack == old(load.stack)
      ensures var r := UseLoader.Use(files, old(load.stack), chain, id, target, old(load.Seen()));
              load.Seen() == r.memo && errs == old(errs) + r.errs && [UseStep(flow)] == r.steps
      decreases MAX_USE_DEPTH + 2 - |load.stack|, 0
    {
      hide Walk;
      if target.NoPath? {
        ErrAt(BadPath(target.message));
        return None;
      }
      var key := target.key;
      if key in load.stack {
        ErrAt(Cycle(load.stack[IndexOf(load.stack, key)..] + [key]));
        return None;
      }
      if |load.stack| > MAX_USE_DEPTH {
        ErrAt(TooDeep(key));
        return None;
      }
      if key in load.done {
        return Some(load.done[key]);
      }
      match files(key) {
        case Unreadable(message) =>
          ErrAt(CannotRead(key, message));
          return None;
        case NotAFlow =>
          errs := errs + [Error(key, chain + [Hop(file, id)], NoFlow)];
          return None;
        case FlowFile(items) =>
          var child := new Walker(files, key, chain + [Hop(file, id)], load);
          load.stack := load.stack + [key];
          load.compiled := load.compiled + [key];
          var f := child.Scenario(items);
          load.stack := load.stack[..|load.stack| - 1];
          errs := errs + child.errs;
          load.done := load.done[key := f];
          return Some(f);
      }
    }

    /** The steps of the file, in order. */
    method Scenario(items: seq<Item>) returns (f: Loaded)
      requires Valid() && errs == []
      modifies this, load
      ensures load.stack == old(load.stack)
      ensures var r := Walk(files, load.stack, chain, items, old(load.Seen()));
              load.Seen() == r.memo && errs == r.errs && f.steps == r.steps
      decreases MAX_USE_DEPTH + 2 - |load.stack|, 1 + |items|
    {
      hide Walk, Visit;
      ghost var stack, goal := load.stack, Walk(files, load.stack, chain, items, load.Seen());
      var steps: seq<LoadedStep> := [];
      WalkStarts(files, stack, chain, items, load.Seen());
      for i := 0 to |items|
        invariant load.stack == stack && Valid()
        invariant Then(errs, steps, Walk(files, stack, chain, items[i..], load.Seen())) == goal
      {
        WalkStep(files, stack, chain, items, i, load.Seen(), errs, steps);
        match items[i] {
          case Plain => steps := steps + [Other];
          case Broken(message) =>
            ErrAt(Wrong(message));
            steps := steps + [Other];
          case Using(id, target) =>
            var flow := Use(id, target);
            steps := steps + [UseStep(flow)];
        }
      }
      WalkEnds(files, stack, chain, items, load.Seen(), errs, steps);
      return Loaded(steps);
    }
  }
}
