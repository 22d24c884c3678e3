/** What loading a flow file reports (internal/parser/parser.go:336-409): nothing wrong with any file it compiles is
    passed over, wherever else something is wrong. */
module LoadFaults {
  import opened Options
  import opened UseLoader

  ghost predicate Reported(errs: seq<Error>, file: Key, fault: Fault) {
    exists chain :: Error(file, chain, fault) in errs
  }

  /** A file that is used is compiled, or it is said why it is not: in the file that uses it, or, when it is no
      flow, at the file itself. */
  ghost predicate Followed(files: Files, w: Walked, file: Key, key: Key) {
    || key in w.memo.done
    || (exists fs :: Reported(w.errs, file, Cycle(fs + [key])) && key in fs)
    || Reported(w.errs, file, TooDeep(key))
    || (files(key).Unreadable? && Reported(w.errs, file, CannotRead(key, files(key).message)))
    || (files(key).NotAFlow? && Reported(w.errs, key, NoFlow))
  }

  /** A step of a file is dealt with: what is wrong with it is reported at its file. */
  ghost predicate Dealt(files: Files, w: Walked, file: Key, item: Item) {
    match item
    case Plain => true
    case Broken(m) => Reported(w.errs, file, Wrong(m))
    case Using(_, NoPath(m)) => Reported(w.errs, file, BadPath(m))
    case Using(_, Names(key)) => Followed(files, w, file, key)
  }

  ghost predicate AllDealt(files: Files, w: Walked, file: Key, items: seq<Item>) {
    forall item :: item in items ==> Dealt(files, w, file, item)
  }

  /** Every file compiled since `before` has all its steps dealt with. */
  ghost predicate NewDealt(files: Files, w: Walked, before: Memo) {
    forall key :: key in w.memo.compiled && key !in before.compiled ==>
      files(key).FlowFile? && AllDealt(files, w, key, files(key).items)
  }

  /** More was compiled, and more reported. */
  predicate Grows(w: Walked, w': Walked) {
    (forall e :: e in w.errs ==> e in w'.errs) && (forall k :: k in w.memo.done ==> k in w'.memo.done)
  }

  lemma FollowedGrows(files: Files, w: Walked, w': Walked, file: Key, key: Key)
    requires Grows(w, w') && Followed(files, w, file, key)
    ensures Followed(files, w', file, key)
  {
    if fs :| Reported(w.errs, file, Cycle(fs + [key])) && key in fs {
      ReportedGrows(w, w', file, Cycle(fs + [key]));
    }
    hide Reported;
    ReportedGrows(w, w', file, TooDeep(key));
    ReportedGrows(w, w', key, NoFlow);
    if files(key).Unreadable? {
      ReportedGrows(w, w', file, CannotRead(key, files(key).message));
    }
  }

  lemma ReportedGrows(w: Walked, w': Walked, file: Key, fault: Fault)
    requires Grows(w, w')
    ensures Reported(w.errs, file, fault) ==> Reported(w'.errs, file, fault)
  {
  }

  lemma DealtGrows(files: Files, w: Walked, w': Walked, file: Key, items: seq<Item>)
    requires Grows(w, w') && AllDealt(files, w, file, items)
    ensures AllDealt(files, w', file, items)
  {
    forall item | item in items
      ensures Dealt(files, w', file, item)
    {
      assert Dealt(files, w, file, item);
      hide Grows;
      hide Reported, Followed;
      match item {
        case Broken(m) => ReportedGrows(w, w', file, Wrong(m));
        case Using(_, NoPath(m)) => ReportedGrows(w, w', file, BadPath(m));
        case Using(_, Names(key)) => FollowedGrows(files, w, w', file, key);
        case Plain =>
      }
    }
  }

  lemma NewGrows(files: Files, w: Walked, w': Walked, before: Memo)
    requires Grows(w, w') && NewDealt(files, w, before) && w'.memo.compiled == w.memo.compiled
    ensures NewDealt(files, w', before)
  {
    hide AllDealt, Grows;
    forall key | key in w'.memo.compiled && key !in before.compiled
      ensures files(key).FlowFile? && AllDealt(files, w', key, files(key).items)
    {
      DealtGrows(files, w, w', key, files(key).items);
    }
  }

  lemma ReportedHere(errs: seq<Error>, file: Key, chain: seq<Hop>, fault: Fault)
    requires Error(file, chain, fault) in errs
    ensures Reported(errs, file, fault)
  {
  }

  /** A step that uses a file. */
  lemma {:induction false} UseDealt(files: Files, stack: seq<Key>, chain: seq<Hop>, id: string, target: Target,
                                    memo: Memo)
    requires Stacked(stack)
    ensures var w := Use(files, stack, chain, id, target, memo);
            && Dealt(files, w, Here(stack), Using(id, target)) && NewDealt(files, w, memo)
            && (forall k :: k in memo.done ==> k in w.memo.done)
    decreases MAX_USE_DEPTH + 2 - |stack|, 0
  {
    hide Walk, Here, Reported;
    var w, here := Use(files, stack, chain, id, target, memo), Here(stack);
    if target.NoPath? {
      ReportedHere(w.errs, here, chain, BadPath(target.message));
    } else {
      var key := target.key;
      if key in stack {
        var fs := stack[IndexOf(stack, key)..];
        ReportedHere(w.errs, here, chain, Cycle(fs + [key]));
        assert fs[0] == key;
      } else if |stack| > MAX_USE_DEPTH {
        ReportedHere(w.errs, here, chain, TooDeep(key));
      } else if key in memo.done {
      } else if files(key).Unreadable? {
        ReportedHere(w.errs, here, chain, CannotRead(key, files(key).message));
      } else if files(key).NotAFlow? {
        ReportedHere(w.errs, key, chain + [Hop(here, id)], NoFlow);
      } else {
        BelowDealt(files, stack, chain, id, key, memo);
      }
    }
  }

  /** A file compiled for the first time. */
  lemma {:induction false} BelowDealt(files: Files, stack: seq<Key>, chain: seq<Hop>, id: string, key: Key, memo: Memo)
    requires Stacked(stack) && key !in stack && |stack| <= MAX_USE_DEPTH && key !in memo.done && files(key).FlowFile?
    ensures var w := Use(files, stack, chain, id, Names(key), memo);
            && key in w.memo.done && NewDealt(files, w, memo) && (forall k :: k in memo.done ==> k in w.memo.done)
    decreases MAX_USE_DEPTH + 2 - |stack|, 0, 0
  {
    hide Walk, AllDealt, Here;
    assert Here(stack + [key]) == key by {
      HereLast(stack, key);
    }
    var chain1, memo1 := chain + [Hop(Here(stack), id)], memo.(compiled := memo.compiled + [key]);
    WalkDealt(files, stack + [key], chain1, files(key).items, memo1);
    var b := Walk(files, stack + [key], chain1, files(key).items, memo1);
    var w := Use(files, stack, chain, id, Names(key), memo);
    assert w == Walked(b.memo.(done := b.memo.done[key := Loaded(b.steps)]), b.errs, [UseStep(Some(Loaded(b.steps)))]);
    NewGrows(files, b, w, memo1);
    DealtGrows(files, b, w, key, files(key).items);
  }

  /** The steps of a file. */
  lemma {:induction false} WalkDealt(files: Files, stack: seq<Key>, chain: seq<Hop>, items: seq<Item>, memo: Memo)
    requires Stacked(stack)
    ensures var w := Walk(files, stack, chain, items, memo);
            && AllDealt(files, w, Here(stack), items) && NewDealt(files, w, memo)
            && (forall k :: k in memo.done ==> k in w.memo.done)
    decreases MAX_USE_DEPTH + 2 - |stack|, 1 + |items|
  {
    hide Visit, AllDealt, NewDealt, Here;
    if items == [] {
      NothingDealt(files, stack, chain, memo);
    } else {
      var first := Visit(files, stack, chain, items[0], memo);
      var rest := Walk(files, stack, chain, items[1..], first.memo);
      var w := Walk(files, stack, chain, items, memo);
      VisitDealt(files, stack, chain, items[0], memo);
      WalkDealt(files, stack, chain, items[1..], first.memo);
      assert w == Walked(rest.memo, first.errs + rest.errs, first.steps + rest.steps);
      DealtBoth(files, Here(stack), items, first, rest, w, memo);
    }
  }

  lemma NothingDealt(files: Files, stack: seq<Key>, chain: seq<Hop>, memo: Memo)
    requires Stacked(stack)
    ensures var w := Walk(files, stack, chain, [], memo);
            w.memo == memo && AllDealt(files, w, Here(stack), []) && NewDealt(files, w, memo)
  {
  }

  lemma DealtBoth(files: Files, file: Key, items: seq<Item>, first: Walked, rest: Walked, w: Walked, memo: Memo)
    requires items != [] && w == Walked(rest.memo, first.errs + rest.errs, first.steps + rest.steps)
    requires AllDealt(files, first, file, [items[0]]) && NewDealt(files, first, memo)
    requires AllDealt(files, rest, file, items[1..]) && NewDealt(files, rest, first.memo)
    requires forall k :: k in first.memo.done ==> k in rest.memo.done
    ensures AllDealt(files, w, file, items) && NewDealt(files, w, memo)
  {
    hide Dealt;
    assert Grows(first, w) && Grows(rest, w);
    DealtGrows(files, first, w, file, [items[0]]);
    DealtGrows(files, rest, w, file, items[1..]);
    assert items == [items[0]] + items[1..] && items[0] in [items[0]];
    assert AllDealt(files, w, file, items);
    hide AllDealt, Grows;
    forall key | key in w.memo.compiled && key !in memo.compiled
      ensures files(key).FlowFile? && AllDealt(files, w, key, files(key).items)
    {
      if key in first.memo.compiled {
        DealtGrows(files, first, w, key, files(key).items);
      } else {
        DealtGrows(files, rest, w, key, files(key).items);
      }
    }
  }

  /** One step of a file. */
  lemma {:induction false} VisitDealt(files: Files, stack: seq<Key>, chain: seq<Hop>, item: Item, memo: Memo)
    requires Stacked(stack)
    ensures var w := Visit(files, stack, chain, item, memo);
            && AllDealt(files, w, Here(stack), [item]) && NewDealt(files, w, memo)
            && (forall k :: k in memo.done ==> k in w.memo.done)
    decreases MAX_USE_DEPTH + 2 - |stack|, 1
  {
    hide Use, Reported, Followed, Here;
    match item {
      case Plain =>
      case Broken(m) => ReportedHere(Visit(files, stack, chain, item, memo).errs, Here(stack), chain, Wrong(m));
      case Using(id, target) => UseDealt(files, stack, chain, id, target, memo);
    }
  }

  /** Of every file that is compiled, the entry included, every wrong step is reported, and every file it uses is
      compiled too or the reason against it reported. */
  lemma NothingPassedOver(files: Files, entry: Key, items: seq<Item>, file: Key, item: Item)
    requires files(entry) == FlowFile(items) && file in Load(files, entry, items).memo.compiled
    ensures files(file).FlowFile?
    ensures item in files(file).items ==> Dealt(files, Load(files, entry, items), file, item)
  {
    hide Walk, Dealt;
    WalkDealt(files, [entry], [], items, Memo(map[], [entry]));
  }
}
