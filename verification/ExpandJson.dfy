/** Templating a JSON document string by string (internal/adapters/http.go:205-290): what each string
    becomes, and why the result is the same document around it. */
module ExpandJson {
  import opened Sequences
  import opened Options
  import opened Template
  import opened JsonText

  /** How references resolve: as text, and, when the resolver can, as JSON. */
  datatype Env = Env(text: Resolver, typed: Option<Resolver>)

  /** Resolving to text that is escaped for a JSON string. */
  function Escaped(env: Env): Resolver {
    (ref: string) => match env.text(ref) { case None => None case Some(v) => Some(Escape(v)) }
  }

  /** The reference, when a string token is one placeholder and nothing else. */
  function WholeRef(tok: string): Option<string> {
    if |tok| < 2 || tok[0] != '"' || tok[|tok| - 1] != '"' then None else
      var m := MatchAt(tok[1..|tok| - 1]);
      if m.Some? && m.value.length == |tok| - 2 then Some(m.value.ref) else None
  }

  /** Whether the string just read is an object key: the next byte that is not white space is a colon. */
  predicate IsKey(rest: string) {
    rest != "" &&
    if rest[0] == ' ' || rest[0] == '\t' || rest[0] == '\r' || rest[0] == '\n' then IsKey(rest[1..]) else rest[0] == ':'
  }

  /** What one string token becomes, with `rest` the document after it. */
  function TokenImage(env: Env, tok: string, rest: string): Option<string> {
    if !HasBraces(tok) then Some(tok)
    else if WholeRef(tok).Some? && env.typed.Some? && !IsKey(rest) then (env.typed.value)(WholeRef(tok).value)
    else Expand(tok, Escaped(env))
  }

  /** A document from here on. */
  function Scan(env: Env, doc: string): Option<string>
    decreases |doc|
  {
    if doc == "" then Some("")
    else if doc[0] != '"' then Concat(Some([doc[0]]), Scan(env, doc[1..]))
    else
      var n := BodyLength(doc[1..]);
      if n.None? then None else
        var end := n.value + 2;
        Concat(TokenImage(env, doc[..end], doc[end..]), Scan(env, doc[end..]))
  }

  function ExpandDocument(env: Env, doc: string): Option<string> {
    if !HasBraces(doc) then Some(doc) else Scan(env, doc)
  }

  // ---------------------------------------------------------------- the image, string by string

  /** What one piece of a document becomes: what is outside of strings and a string without
      placeholders stay; a string value that is one placeholder becomes the reference's JSON; any other
      string stays one string, its placeholders replaced by escaped text. */
  function PieceImage(env: Env, p: Piece, rest: string): Option<seq<Piece>> {
    if p.Raw? || !HasBraces(Show(p)) then Some([p])
    else if WholeRef(Show(p)).Some? && env.typed.Some? && !IsKey(rest) then
      var json := (env.typed.value)(WholeRef(Show(p)).value);
      if json.None? then None else Lex(json.value)
    else
      var body := Expand(p.body, Escaped(env));
      if body.None? then None else Some([Str(body.value)])
  }

  function Image(env: Env, ps: seq<Piece>): Option<seq<Piece>> {
    if ps == [] then Some([]) else
      var first, rest := PieceImage(env, ps[0], ShowAll(ps[1..])), Image(env, ps[1..]);
      if first.None? || rest.None? then None else Some(first.value + rest.value)
  }

  /** The resolver's JSON is JSON as far as its strings go. */
  ghost predicate GivesJson(env: Env) {
    env.typed.Some? ==> forall ref :: (env.typed.value)(ref).Some? ==> Cut((env.typed.value)(ref).value)
  }

  /** A document whose strings end and are well formed. */
  ghost predicate Cut(doc: string) {
    Lex(doc).Some? && SoundAll(Lex(doc).value)
  }

  // ---------------------------------------------------------------- whole values

  /** A string is a key when a colon comes next, with nothing but white space before it. */
  lemma {:induction false} KeyExactly(rest: string)
    ensures IsKey(rest) <==> exists n :: 0 <= n < |rest| && rest[n] == ':' && JsonBlank(rest[..n])
    decreases |rest|
  {
    if rest != "" {
      KeyExactly(rest[1..]);
      if n :| 0 <= n < |rest[1..]| && rest[1..][n] == ':' && JsonBlank(rest[1..][..n]) {
        if JsonBlank(rest[..1]) {
          assert rest[n + 1] == ':' && rest[..n + 1] == rest[..1] + rest[1..][..n];
        }
      }
      if n :| 0 <= n < |rest| && rest[n] == ':' && JsonBlank(rest[..n]) {
        if n > 0 {
          assert rest[0] == rest[..n][0];
          assert rest[1..][n - 1] == ':' && rest[1..][..n - 1] == rest[..n][1..];
        }
      }
      assert rest[0] == ':' ==> JsonBlank(rest[..0]);
    }
  }

  /** White space between the tokens of a document, in ASCII: tab, line feed, carriage return, space. */
  predicate JsonBlank(s: string) {
    forall k :: 0 <= k < |s| ==> s[k] as int in {9, 10, 13, 32}
  }

  /** A string token is a whole value exactly when it is one placeholder in quotes. */
  lemma WholeExactly(tok: string, r: string)
    ensures WholeRef(tok) == Some(r) <==>
              exists u, w :: tok == "\"" + Placeholder(u, r, w) + "\"" && Blank(u) && IsDotted(r) && Blank(w)
  {
    hide MatchAt, IsDotted, Blank;
    if WholeRef(tok) == Some(r) {
      var s := tok[1..|tok| - 1];
      var u, w := OnlyPlaceholdersMatch(s);
      assert s == Placeholder(u, r, w) + "" == Placeholder(u, r, w);
      assert tok == "\"" + s + "\"";
    }
    if u, w :| tok == "\"" + Placeholder(u, r, w) + "\"" && Blank(u) && IsDotted(r) && Blank(w) {
      assert tok[1..|tok| - 1] == Placeholder(u, r, w) + "";
      PlaceholderMatches(u, r, w, "");
    }
  }

  /** A string that is one placeholder: as a value it becomes the JSON of its reference, quotes and all, when the
      resolver can give one; as a key, or when it cannot, it stays a string, of the reference's text escaped. */
  lemma WholeStringImage(env: Env, u: string, r: string, w: string, rest: string)
    requires Blank(u) && IsDotted(r) && Blank(w)
    ensures var p := Str(Placeholder(u, r, w));
            if env.typed.Some? && !IsKey(rest) then
              var json := (env.typed.value)(r);
              PieceImage(env, p, rest) == if json.None? then None else Lex(json.value)
            else
              PieceImage(env, p, rest)
              == match env.text(r) { case None => None case Some(v) => Some([Str(Escape(v))]) }
  {
    hide MatchAt, IsDotted, Blank, Escape, Expand, Lex;
    var t := Placeholder(u, r, w);
    var p := Str(t);
    WholeExactly(Show(p), r);
    assert Show(p)[1] == '{' && Show(p)[1 + 1] == '{';
    PlaceholderMatches(u, r, w, "");
    assert t + "" == t && t[|t|..] == "";
    ExpandStep(t, Escaped(env));
    ExpandStep("", Escaped(env));
    var v := env.text(r);
    assert v.Some? ==> Escape(v.value) + "" == Escape(v.value);
  }

  // ---------------------------------------------------------------- inside one string

  lemma {:induction false} NameRunStops(s: string, q: string)
    requires q != "" && !IsName(q[0])
    ensures NameRun(s + q) == NameRun(s)
    decreases |s|
  {
    if s != "" {
      assert (s + q)[1..] == s[1..] + q;
      NameRunStops(s[1..], q);
    } else {
      assert s + q == q;
    }
  }

  lemma {:induction false} SpaceRunStops(s: string, q: string)
    requires q != "" && !IsSpace(q[0])
    ensures SpaceRun(s + q) == SpaceRun(s)
    decreases |s|
  {
    if s != "" {
      assert (s + q)[1..] == s[1..] + q;
      SpaceRunStops(s[1..], q);
    } else {
      assert s + q == q;
    }
  }

  lemma {:induction false} GroupRunStops(s: string, q: string)
    requires q != "" && !IsName(q[0]) && q[0] != '.'
    ensures GroupRun(s + q) == GroupRun(s)
    decreases |s|
  {
    if |s| >= 2 && s[0] == '.' && IsName(s[1]) {
      assert (s + q)[1..] == s[1..] + q;
      NameRunStops(s[1..], q);
      var n := 1 + NameRun(s[1..]);
      assert (s + q)[n..] == s[n..] + q;
      GroupRunStops(s[n..], q);
    } else if s == "" {
      assert s + q == q;
    }
  }

  lemma RefRunStops(s: string, q: string)
    requires q != "" && !IsName(q[0]) && q[0] != '.'
    ensures RefRun(s + q) == RefRun(s)
  {
    hide GroupRun;
    if s == "" {
      assert s + q == q;
    } else if IsStart(s[0]) {
      assert (s + q)[1..] == s[1..] + q;
      NameRunStops(s[1..], q);
      var n := 1 + NameRun(s[1..]);
      assert (s + q)[n..] == s[n..] + q;
      GroupRunStops(s[n..], q);
    }
  }

  /** A placeholder ends before a quote, whatever follows. */
  lemma MatchStops(s: string, q: string)
    requires q != "" && q[0] == '"'
    ensures MatchAt(s + q) == MatchAt(s)
  {
    hide SpaceRun, RefRun, Closed;
    if |s| >= 2 && s[0] == '{' && s[1] == '{' {
      DropInto(s, q, 2);
      SpaceRunStops(s[2..], q);
      var a := 2 + SpaceRun(s[2..]);
      DropInto(s, q, a);
      RefRunStops(s[a..], q);
      ClosedStops(s, q, a, a + RefRun(s[a..]));
    }
  }

  lemma ClosedStops(s: string, q: string, a: nat, b: nat)
    requires a <= b <= |s| && q != "" && q[0] == '"'
    ensures Closed(s + q, a, b) == Closed(s, a, b)
  {
    hide SpaceRun;
    DropInto(s, q, b);
    SpaceRunStops(s[b..], q);
    assert (s + q)[a..b] == s[a..b];
  }

  /** Placeholders do not reach the closing quote. */
  lemma {:induction false} ExpandStops(s: string, resolve: Resolver)
    ensures Expand(s + "\"", resolve) == Concat(Expand(s, resolve), Some("\""))
    decreases |s|
  {
    hide MatchAt, Expand;
    ExpandStep(s, resolve);
    ExpandStep(s + "\"", resolve);
    MatchStops(s, "\"");
    MatchFits(s);
    if s == "" {
      KeepFirst("\"", resolve);
      ExpandStep("", resolve);
      assert "\""[1..] == "" && s + "\"" == "\"" && ['"'] + "" == "\"" && "" + "\"" == "\"";
    } else {
      var n := if MatchAt(s).Some? then MatchAt(s).value.length else 1;
      var head := if MatchAt(s).Some? then resolve(MatchAt(s).value.ref) else Some(s[..1]);
      assert (s + "\"")[n..] == s[n..] + "\"" && (s + "\"")[..1] == s[..1];
      ExpandStops(s[n..], resolve);
      ConcatAssoc(head, Expand(s[n..], resolve), Some("\""));
    }
  }

  lemma ExpandQuoted(body: string, resolve: Resolver)
    ensures Expand("\"" + body + "\"", resolve) == Concat(Some("\""), Concat(Expand(body, resolve), Some("\"")))
  {
    hide Expand;
    var s := "\"" + body + "\"";
    assert s[0] == '"' && s[1..] == body + "\"";
    KeepFirst(s, resolve);
    ExpandStops(body, resolve);
  }

  lemma {:induction false} Peel(body: string, k: nat)
    requires WellFormed(body) && k <= |body| && AllInner(body[..k])
    ensures WellFormed(body[k..])
    decreases k
  {
    if k == 0 {
      assert body[0..] == body;
    } else {
      assert IsInner(body[..k][0]) && FirstUnit(body).value.length == 1;
      var t := body[1..][..k - 1];
      forall i | 0 <= i < |t|
        ensures IsInner(t[i])
      {
        assert IsInner(body[..k][i + 1]) && t[i] == body[..k][i + 1];
      }
      Peel(body[1..], k - 1);
      assert body[1..][k - 1..] == body[k..];
    }
  }

  lemma MatchTail(body: string)
    requires WellFormed(body) && MatchAt(body).Some?
    ensures WellFormed(body[MatchAt(body).value.length..])
  {
    hide WellFormed, MatchAt, AllInner;
    MatchInner(body);
    MatchFits(body);
    Peel(body, MatchAt(body).value.length);
  }

  /** What a string body stands for once its references have their values: its own characters, and for
      each placeholder the text it resolves to. */
  function Meaning(env: Env, body: string): Option<seq<int>>
    decreases |body|
  {
    if body == "" then Some([])
    else
      var m, u := MatchAt(body), FirstUnit(body);
      if m.Some? then
        var v, rest := env.text(m.value.ref), Meaning(env, body[m.value.length..]);
        if v.None? || rest.None? then None else Some(Codes(v.value) + rest.value)
      else if u.None? then None
      else
        var rest := Meaning(env, body[u.value.length..]);
        if rest.None? then None else Some([u.value.value] + rest.value)
  }

  lemma UnitAlone(body: string, resolve: Resolver)
    requires FirstUnit(body).Some? && MatchAt(body).None?
    ensures var n := FirstUnit(body).value.length;
            && WellFormed(body[..n]) && Decode(body[..n]) == [FirstUnit(body).value.value]
            && Expand(body, resolve) == Concat(Some(body[..n]), Expand(body[n..], resolve))
  {
    hide MatchAt, Expand, WellFormed, Decode, FirstUnit;
    JsonText.UnitAlone(body);
    var n := FirstUnit(body).value.length;
    var a := body[..n];
    assert a + body[n..] == body;
    if n == 1 {
      ExpandStep(body, resolve);
    } else {
      UnitHasNoBrace(body);
      KeepSome(a, body[n..], resolve);
    }
  }

  /** A templated body is well formed whatever the resolved text holds, and stands for what it means. */
  lemma {:induction false} ExpandBody(env: Env, body: string)
    requires WellFormed(body)
    ensures var out := Expand(body, Escaped(env));
            (out.None? <==> Meaning(env, body).None?) &&
            (out.Some? ==> WellFormed(out.value) && Decode(out.value) == Meaning(env, body).value)
    decreases |body|
  {
    hide MatchAt, Expand, WellFormed, Decode, FirstUnit, Escape, Codes;
    if body == "" {
      ExpandStep(body, Escaped(env));
      EmptyBody();
    } else if MatchAt(body).Some? {
      var m := MatchAt(body).value;
      ExpandStep(body, Escaped(env));
      MatchTail(body);
      MatchFits(body);
      ExpandBody(env, body[m.length..]);
      var v, rest := env.text(m.ref), Expand(body[m.length..], Escaped(env));
      if v.Some? {
        EscapeDecodes(v.value);
        if rest.Some? {
          BothWellFormed(Escape(v.value), rest.value);
        }
      }
    } else {
      Units(body);
      var n := FirstUnit(body).value.length;
      UnitAlone(body, Escaped(env));
      ExpandBody(env, body[n..]);
      var rest := Expand(body[n..], Escaped(env));
      if rest.Some? {
        BothWellFormed(body[..n], rest.value);
      }
    }
  }

  lemma Units(body: string)
    requires WellFormed(body) && body != ""
    ensures FirstUnit(body).Some? && 1 <= FirstUnit(body).value.length <= |body| &&
            WellFormed(body[FirstUnit(body).value.length..])
  {
    hide FirstUnit;
  }

  // ---------------------------------------------------------------- the whole document

  lemma PieceText(env: Env, p: Piece, rest: string)
    requires p.Str? && Sound(p) && GivesJson(env)
    ensures var t, image := TokenImage(env, Show(p), rest), PieceImage(env, p, rest);
            (t.None? <==> image.None?) && (t.Some? ==> Lex(t.value) == image && SoundAll(image.value))
  {
    hide Expand, WellFormed, Lex, HasBraces, WholeRef, IsKey, Meaning, Decode;
    LexPiece(p);
    if HasBraces(Show(p)) && !(WholeRef(Show(p)).Some? && env.typed.Some? && !IsKey(rest)) {
      ExpandQuoted(p.body, Escaped(env));
      ExpandBody(env, p.body);
      var out := Expand(p.body, Escaped(env));
      if out.Some? {
        LexPiece(Str(out.value));
        assert "\"" + (out.value + "\"") == Show(Str(out.value));
      }
    }
  }

  lemma ScanString(env: Env, p: Piece, rest: string)
    requires p.Str? && Sound(p)
    ensures Scan(env, Show(p) + rest) == Concat(TokenImage(env, Show(p), rest), Scan(env, rest))
  {
    hide TokenImage, BodyLength, WellFormed, Scan, Concat, Show;
    BodyEnds(p.body, "\"" + rest);
    ShownFirst(p, rest);
    ScanAt(env, Show(p) + rest, |p.body|);
  }

  lemma ShownFirst(p: Piece, rest: string)
    requires p.Str?
    ensures var doc, n := Show(p) + rest, |p.body|;
            && doc != "" && doc[0] == '"' && doc[1..] == p.body + ("\"" + rest)
            && |doc| >= n + 2 && doc[..n + 2] == Show(p) && doc[n + 2..] == rest
  {
  }

  lemma ScanAt(env: Env, doc: string, n: nat)
    requires doc != "" && doc[0] == '"' && BodyLength(doc[1..]) == Some(n)
    ensures n + 2 <= |doc| &&
            Scan(env, doc) == Concat(TokenImage(env, doc[..n + 2], doc[n + 2..]), Scan(env, doc[n + 2..]))
  {
    hide TokenImage, BodyLength;
  }

  lemma ScanRaw(env: Env, p: Piece, rest: string)
    requires p.Raw? && Sound(p)
    ensures Scan(env, Show(p) + rest) == Concat(Some(Show(p)), Scan(env, rest))
  {
    var doc := Show(p) + rest;
    assert doc[0] == p.c && doc[1..] == rest;
  }

  lemma Both(head: string, rest: string, a: seq<Piece>, b: seq<Piece>)
    requires Lex(head) == Some(a) && SoundAll(a) && Lex(rest) == Some(b) && SoundAll(b)
    ensures Lex(head + rest) == Some(a + b) && SoundAll(a + b)
  {
    hide Lex, Sound;
    LexBoth(head, rest);
  }

  lemma {:induction false} ScanImage(env: Env, ps: seq<Piece>)
    requires SoundAll(ps) && GivesJson(env)
    ensures var out, image := Scan(env, ShowAll(ps)), Image(env, ps);
            (out.None? <==> image.None?) && (out.Some? ==> Lex(out.value) == image && SoundAll(image.value))
    decreases |ps|
  {
    hide Lex, Sound, TokenImage, PieceImage, Show, Scan;
    if ps == [] {
      NothingScanned(env);
    } else {
      var p, rest := ps[0], ShowAll(ps[1..]);
      ScanImage(env, ps[1..]);
      if p.Raw? {
        ScanRaw(env, p, rest);
        RawImage(env, p, rest);
      } else {
        ScanString(env, p, rest);
        PieceText(env, p, rest);
      }
      var head := if p.Raw? then Some(Show(p)) else TokenImage(env, Show(p), rest);
      if head.Some? && Scan(env, rest).Some? {
        Both(head.value, Scan(env, rest).value, PieceImage(env, p, rest).value, Image(env, ps[1..]).value);
      }
    }
  }

  lemma RawImage(env: Env, p: Piece, rest: string)
    requires p.Raw? && Sound(p)
    ensures PieceImage(env, p, rest) == Some([p]) && Lex(Show(p)) == Some([p]) && SoundAll([p])
  {
    LexPiece(p);
  }

  lemma NothingScanned(env: Env)
    ensures Scan(env, "") == Some("") && Lex("") == Some([]) && SoundAll([])
  {
  }

  lemma ShowCons(p: Piece, ps: seq<Piece>)
    ensures ShowAll([p] + ps) == Show(p) + ShowAll(ps)
  {
    hide Show;
    assert ([p] + ps)[1..] == ps;
  }

  lemma Requote(doc: string, n: nat)
    requires n + 2 <= |doc| && doc[0] == '"' && doc[n + 1] == '"'
    ensures Show(Str(doc[1..n + 1])) + doc[n + 2..] == doc
  {
    assert doc == [doc[0]] + doc[1..n + 1] + [doc[n + 1]] + doc[n + 2..];
  }

  lemma LexRaw(doc: string)
    requires doc != "" && doc[0] != '"'
    ensures Lex(doc) == Cons(Raw(doc[0]), Lex(doc[1..])) && Show(Raw(doc[0])) + doc[1..] == doc
  {
    hide BodyLength;
  }

  lemma LexClosed(doc: string)
    requires doc != "" && doc[0] == '"' && Lex(doc).Some?
    ensures BodyLength(doc[1..]).Some?
  {
    hide BodyLength;
  }

  /** A cut document is its pieces, shown one after another. */
  lemma {:induction false} CutShows(doc: string)
    requires Lex(doc).Some?
    ensures ShowAll(Lex(doc).value) == doc
    decreases |doc|
  {
    hide BodyLength, Lex, ShowAll, Show;
    if doc == "" {
      LexNothing();
      ShowNothing();
    } else if doc[0] != '"' {
      LexRaw(doc);
      CutShows(doc[1..]);
      ShowCons(Raw(doc[0]), Lex(doc[1..]).value);
    } else {
      LexClosed(doc);
      var n := BodyLength(doc[1..]).value;
      ClosedAt(doc[1..]);
      LexString(doc, n);
      CutShows(doc[n + 2..]);
      ShowCons(Str(doc[1..n + 1]), Lex(doc[n + 2..]).value);
      Requote(doc, n);
    }
  }

  lemma ShowNothing()
    ensures ShowAll([]) == ""
  {
  }

  lemma ClosedAt(s: string)
    ensures BodyLength(s).Some? ==> BodyLength(s).value < |s| && s[BodyLength(s).value] == '"'
  {
  }

  lemma {:induction false} NothingToExpand(env: Env, ps: seq<Piece>)
    requires !HasBraces(ShowAll(ps))
    ensures Image(env, ps) == Some(ps)
    decreases |ps|
  {
    hide Show;
    if ps != [] {
      var a, b := Show(ps[0]), ShowAll(ps[1..]);
      NoBracesParts(a, b);
      NothingToExpand(env, ps[1..]);
      assert [ps[0]] + ps[1..] == ps;
    }
  }

  lemma NoBracesParts(a: string, b: string)
    ensures HasBraces(a) || HasBraces(b) ==> HasBraces(a + b)
  {
    var s := a + b;
    if i :| 0 <= i < |a| - 1 && a[i] == '{' && a[i + 1] == '{' {
      assert s[i] == '{' && s[i + 1] == '{';
    } else if i :| 0 <= i < |b| - 1 && b[i] == '{' && b[i + 1] == '{' {
      var j := |a| + i;
      assert s[j] == '{' && s[j + 1] == '{';
    }
  }

  /** A document whose strings are well formed becomes one whose strings are well formed, piece by
      piece: the image of its pieces, no more strings and no fewer. */
  lemma ExpandsPieceByPiece(env: Env, doc: string)
    requires Cut(doc) && GivesJson(env)
    ensures var out, image := ExpandDocument(env, doc), Image(env, Lex(doc).value);
            && (out.None? <==> image.None?)
            && (out.Some? ==> Cut(out.value) && Lex(out.value) == image)
  {
    hide Lex, Image, Scan, HasBraces, GivesJson;
    CutShows(doc);
    if HasBraces(doc) {
      ScanImage(env, Lex(doc).value);
    } else {
      NothingToExpand(env, Lex(doc).value);
    }
  }

  /** A templated string that keeps its quotes stands for what it means: its own characters, with each
      placeholder's text in its place. */
  lemma StringMeans(env: Env, p: Piece, rest: string)
    requires p.Str? && Sound(p) && HasBraces(Show(p))
    requires WholeRef(Show(p)).None? || env.typed.None? || IsKey(rest)
    ensures var image := PieceImage(env, p, rest);
            if Meaning(env, p.body).None? then image.None?
            else image.Some? && |image.value| == 1 && image.value[0].Str? && Sound(image.value[0])
                 && Decode(image.value[0].body) == Meaning(env, p.body).value
  {
    hide Expand, WellFormed, HasBraces, WholeRef, IsKey, Meaning, Decode;
    ExpandBody(env, p.body);
  }

  lemma {:induction false} OpenFails(env: Env, doc: string)
    requires Lex(doc).None?
    ensures Scan(env, doc).None?
    decreases |doc|
  {
    hide BodyLength, TokenImage;
    if doc[0] != '"' {
      OpenFails(env, doc[1..]);
    } else if BodyLength(doc[1..]).Some? {
      var n := BodyLength(doc[1..]).value;
      LexString(doc, n);
      OpenFails(env, doc[n + 2..]);
    }
  }

  /** A string that does not end is an error if and only if the document has braces at all. */
  lemma UnterminatedExactly(env: Env, doc: string)
    requires Lex(doc).None?
    ensures ExpandDocument(env, doc).None? <==> HasBraces(doc)
  {
    hide HasBraces, Scan, Lex;
    OpenFails(env, doc);
  }

  // ---------------------------------------------------------------- the scan as it runs

  lemma BeforeNext(out: string, head: string, rest: Option<string>)
    ensures Concat(Some(out), Concat(Some(head), rest)) == Concat(Some(out + head), rest)
    ensures Concat(Some(""), rest) == rest && Concat(Some(out), Some("")) == Some(out)
    ensures Concat(Some(out), None) == None && Concat(Some(out), Concat(None, rest)) == None
  {
    if rest.Some? {
      assert out + (head + rest.value) == out + head + rest.value && "" + rest.value == rest.value;
    }
    assert out + "" == out;
  }

  lemma ScanFrom(env: Env, doc: string, i: nat)
    requires i < |doc|
    ensures doc[i] != '"' ==> Scan(env, doc[i..]) == Concat(Some([doc[i]]), Scan(env, doc[i + 1..]))
    ensures doc[i] == '"' && BodyLength(doc[i + 1..]).None? ==> Scan(env, doc[i..]).None?
    ensures doc[i] == '"' && BodyLength(doc[i + 1..]).Some? ==>
              var end := i + BodyLength(doc[i + 1..]).value + 2;
              end <= |doc| && Scan(env, doc[i..]) ==
                Concat(TokenImage(env, doc[i..end], doc[end..]), Scan(env, doc[end..]))
  {
    hide TokenImage, BodyLength;
    var s := doc[i..];
    assert s[1..] == doc[i + 1..];
    if BodyLength(doc[i + 1..]).Some? {
      ClosedAt(doc[i + 1..]);
      var n := BodyLength(doc[i + 1..]).value;
      assert s[..n + 2] == doc[i..i + n + 2] && s[n + 2..] == doc[i + n + 2..];
    }
  }

  /** Where the string that opens before `from` closes, skipping what follows each backslash. */
  method StringEnd(doc: string, from: nat) returns (end: Option<nat>)
    requires from <= |doc|
    ensures end == Shift(from, BodyLength(doc[from..]))
  {
    hide BodyLength;
    var i := from;
    while i < |doc| && doc[i] != '"'
      invariant from <= i <= |doc| + 1
      invariant i <= |doc| ==> Shift(from, BodyLength(doc[from..])) == Shift(i, BodyLength(doc[i..]))
      invariant i > |doc| ==> BodyLength(doc[from..]).None?
    {
      SkipUnit(doc, i);
      if doc[i] == '\\' {
        i := i + 1;
      }
      i := i + 1;
    }
    if i >= |doc| {
      if i == |doc| {
        NeverCloses(doc[i..]);
      }
      return None;
    }
    QuoteEnds(doc[i..]);
    return Some(i);
  }

  lemma NeverCloses(s: string)
    requires s == ""
    ensures BodyLength(s).None?
  {
  }

  lemma SkipUnit(doc: string, i: nat)
    requires i < |doc| && doc[i] != '"'
    ensures var k := if doc[i] == '\\' then i + 2 else i + 1;
            if k > |doc| then BodyLength(doc[i..]).None?
            else Shift(i, BodyLength(doc[i..])) == Shift(k, BodyLength(doc[k..]))
  {
    var s := doc[i..];
    if |s| >= 2 {
      assert s[2..] == doc[i + 2..];
    }
    assert s[1..] == doc[i + 1..];
  }

  /** Copy what is outside of strings, and each string's image. */
  method ExpandText(env: Env, doc: string) returns (r: Option<string>)
    ensures r == ExpandDocument(env, doc)
  {
    hide Scan, TokenImage, BodyLength, HasBraces;
    var braces := FindBraces(doc);
    if !braces {
      return Some(doc);
    }
    var out, i := "", 0;
    assert doc[0..] == doc;
    BeforeNext("", "", Scan(env, doc));
    while i < |doc|
      invariant 0 <= i <= |doc| && Scan(env, doc) == Concat(Some(out), Scan(env, doc[i..]))
    {
      ScanFrom(env, doc, i);
      if doc[i] != '"' {
        BeforeNext(out, [doc[i]], Scan(env, doc[i + 1..]));
        out := out + [doc[i]];
        i := i + 1;
      } else {
        var end := StringEnd(doc, i + 1);
        if end.None? {
          return None;
        }
        var tok, rest := doc[i..end.value + 1], doc[end.value + 1..];
        var image := ExpandToken(env, tok, rest);
        if image.None? {
          BeforeNext(out, "", Scan(env, rest));
          return None;
        }
        BeforeNext(out, image.value, Scan(env, rest));
        out := out + image.value;
        i := end.value + 1;
      }
    }
    NothingScanned(env);
    assert doc[|doc|..] == "";
    BeforeNext(out, "", Some(""));
    return Some(out);
  }

  method ExpandToken(env: Env, tok: string, rest: string) returns (r: Option<string>)
    ensures r == TokenImage(env, tok, rest)
  {
    hide HasBraces, Expand, WholeRef, IsKey;
    var braces := FindBraces(tok);
    if !braces {
      return Some(tok);
    }
    var ref := WholeRef(tok);
    if ref.Some? && env.typed.Some? && !IsKey(rest) {
      return (env.typed.value)(ref.value);
    }
    r := ExpandTemplates(tok, Escaped(env));
  }

  method FindBraces(s: string) returns (found: bool)
    ensures found == HasBraces(s)
  {
    var i := 0;
    while i + 1 < |s|
      invariant forall j :: 0 <= j < i && j < |s| - 1 ==> !(s[j] == '{' && s[j + 1] == '{')
    {
      if s[i] == '{' && s[i + 1] == '{' {
        return true;
      }
      i := i + 1;
    }
    return false;
  }
}
