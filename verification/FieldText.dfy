/** How the text of a field becomes the list of chunks a run looks at (internal/ir/template.go): cut at
    its placeholders, and expanded to the same text. */
module FieldText {
  import opened FlowIr
  import opened Interp
  import Template

  /** A text cut at its placeholders, in order. */
  function Cut(s: string): Templated
    decreases |s|
  {
    if s == "" then [] else
      var m := Template.MatchAt(s);
      if m.Some? then [Ref(m.value.ref, false)] + Cut(s[m.value.length..]) else [Text(s[..1])] + Cut(s[1..])
  }

  /** What a reference injects into a text, as the scope has it. */
  function FromScope(cx: Context, vars: map<string, Value>): Template.Resolver {
    (ref: string) => Injected(ScopeValue(cx, vars, ref), false)
  }

  /** Looking up the chunks one by one gives the text that replacing the placeholders gives, or nothing
      for the same texts. */
  lemma {:induction false} CutExpands(cx: Context, vars: map<string, Value>, sh: Shared, s: string)
    ensures Expand(cx, vars, sh, Cut(s)).1 == Template.Expand(s, FromScope(cx, vars))
    decreases |s|
  {
    hide Template.MatchAt, ScopeValue;
    if s != "" {
      var m := Template.MatchAt(s);
      var n := if m.Some? then m.value.length else 1;
      var t := Cut(s);
      assert t[1..] == Cut(s[n..]);
      var sh1 := if t[0].Ref? && ScopeValue(cx, vars, t[0].name).NoValueYet? then Note(sh, NoValue(t[0].name)) else sh;
      CutExpands(cx, vars, sh1, s[n..]);
    }
  }
}
