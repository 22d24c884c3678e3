/** JSON text as far as its strings go: well-formed string bodies (section 7 of RFC 8259), what they
    stand for, how a text is escaped into one, and a document cut into strings and the rest. */
module JsonText {
  import opened Sequences
  import opened Options

  // ---------------------------------------------------------------- string bodies

  predicate IsHex(c: char) {
    '0' <= c <= '9' || 'a' <= c <= 'f' || 'A' <= c <= 'F'
  }

  function HexValue(c: char): nat
    requires IsHex(c)
  {
    if c <= '9' then c as int - '0' as int
    else if c <= 'F' then c as int - 'A' as int + 10 else c as int - 'a' as int + 10
  }

  /** What a backslash and one more character stand for. */
  function ShortEscape(c: char): Option<int> {
    if c == '"' || c == '\\' || c == '/' then Some(c as int)
    else if c == 'b' then Some(8)
    else if c == 'f' then Some(12)
    else if c == 'n' then Some(10)
    else if c == 'r' then Some(13)
    else if c == 't' then Some(9)
    else None
  }

  /** The first unit of a string body: its length and its value, or nothing when it is ill formed. */
  datatype Unit = Unit(length: nat, value: int)

  function FirstUnit(s: string): (u: Option<Unit>)
    ensures u.Some? ==> 1 <= u.value.length <= |s|
  {
    if s == "" || s[0] == '"' || s[0] as int < 0x20 then None
    else if s[0] != '\\' then Some(Unit(1, s[0] as int))
    else if |s| < 2 then None
    else if ShortEscape(s[1]).Some? then Some(Unit(2, ShortEscape(s[1]).value))
    else if s[1] == 'u' && |s| >= 6 && IsHex(s[2]) && IsHex(s[3]) && IsHex(s[4]) && IsHex(s[5]) then
      Some(Unit(6, HexValue(s[2]) * 4096 + HexValue(s[3]) * 256 + HexValue(s[4]) * 16 + HexValue(s[5])))
    else None
  }

  predicate WellFormed(s: string)
    decreases |s|
  {
    s == "" || (FirstUnit(s).Some? && WellFormed(s[FirstUnit(s).value.length..]))
  }

  /** The code units a body stands for. */
  function Decode(s: string): seq<int>
    requires WellFormed(s)
    decreases |s|
  {
    if s == "" then [] else [FirstUnit(s).value.value] + Decode(s[FirstUnit(s).value.length..])
  }

  lemma UnitOf(a: string, b: string)
    requires FirstUnit(a).Some?
    ensures FirstUnit(a + b) == FirstUnit(a)
  {
  }

  /** A body by its first unit and the rest. */
  lemma ByUnit(s: string)
    requires s != "" && FirstUnit(s).Some?
    ensures var u := FirstUnit(s).value;
            && (WellFormed(s) <==> WellFormed(s[u.length..]))
            && (WellFormed(s) ==> Decode(s) == [u.value] + Decode(s[u.length..]))
  {
    hide FirstUnit;
  }

  lemma HasUnit(s: string)
    requires WellFormed(s) && s != ""
    ensures FirstUnit(s).Some? && WellFormed(s[FirstUnit(s).value.length..])
  {
    hide FirstUnit;
  }

  lemma {:induction false} BothWellFormed(a: string, b: string)
    requires WellFormed(a) && WellFormed(b)
    ensures WellFormed(a + b) && Decode(a + b) == Decode(a) + Decode(b)
    decreases |a|
  {
    hide FirstUnit, WellFormed, Decode;
    if a == "" {
      assert a + b == b;
      EmptyBody();
    } else {
      HasUnit(a);
      UnitOf(a, b);
      var u := FirstUnit(a).value;
      BothWellFormed(a[u.length..], b);
      DropInto(a, b, u.length);
      ByUnit(a);
      ByUnit(a + b);
      Assoc([u.value], Decode(a[u.length..]), Decode(b));
    }
  }

  // ---------------------------------------------------------------- escaping

  function HexDigit(n: nat): (c: char)
    requires n < 16
    ensures IsHex(c) && HexValue(c) == n
  {
    if n < 10 then ('0' as int + n) as char else ('a' as int + n - 10) as char
  }

  function EscapeChar(c: char): string {
    var n := c as int;
    if c == '"' || c == '\\' then ['\\', c]
    else if n == 8 then "\\b"
    else if n == 12 then "\\f"
    else if n == 10 then "\\n"
    else if n == 13 then "\\r"
    else if n == 9 then "\\t"
    else if n < 0x20 || c == '<' || c == '>' || c == '&' || n == 0x2028 || n == 0x2029 then
      ['\\', 'u', HexDigit(n / 4096), HexDigit(n / 256 % 16), HexDigit(n / 16 % 16), HexDigit(n % 16)]
    else [c]
  }

  /** A text as a string body, the way json.Marshal writes it. */
  function Escape(v: string): string {
    if v == "" then "" else EscapeChar(v[0]) + Escape(v[1..])
  }

  function Codes(v: string): seq<int> {
    if v == "" then [] else [v[0] as int] + Codes(v[1..])
  }

  lemma FourDigits(n: nat)
    requires n < 65536
    ensures n / 4096 < 16
    ensures n / 4096 * 4096 + n / 256 % 16 * 256 + n / 16 % 16 * 16 + n % 16 == n
  {
    assert n / 256 == n / 4096 * 16 + n / 256 % 16 && n / 16 == n / 256 * 16 + n / 16 % 16;
  }

  lemma CharEscapes(c: char)
    ensures WellFormed(EscapeChar(c)) && Decode(EscapeChar(c)) == [c as int]
  {
    var s := EscapeChar(c);
    var n := c as int;
    if |s| == 6 {
      FourDigits(n);
    }
    assert FirstUnit(s) == Some(Unit(|s|, n));
    assert s[|s|..] == "" && WellFormed("") && Decode("") == [];
  }

  /** Whatever the text holds, escaped it is a well-formed body that stands for that text. */
  lemma {:induction false} EscapeDecodes(v: string)
    ensures WellFormed(Escape(v)) && Decode(Escape(v)) == Codes(v)
  {
    hide EscapeChar, WellFormed, Decode;
    if v == "" {
      EmptyBody();
    } else {
      EscapeDecodes(v[1..]);
      CharEscapes(v[0]);
      BothWellFormed(EscapeChar(v[0]), Escape(v[1..]));
    }
  }

  /** Characters that are never written as they are: controls, and those with a meaning in HTML or a script. */
  predicate IsSpecial(c: char) {
    c as int < 32 || c in {'"', '\\', '<', '>', '&'} || c as int in {8232, 8233}
  }

  /** A backslash and a letter for the controls that have one, and for quote and backslash themselves; a code of
      four digits for any other special character; every other character as it is. */
  lemma CharWritten(c: char)
    ensures !IsSpecial(c) ==> EscapeChar(c) == [c]
    ensures IsSpecial(c) ==> EscapeChar(c)[0] == '\\'
    ensures IsSpecial(c) ==> |EscapeChar(c)| == if c as int in {8, 9, 10, 12, 13, 34, 92} then 2 else 6
    ensures forall k :: 0 < k < |EscapeChar(c)| ==> !IsSpecial(EscapeChar(c)[k]) || c in {'"', '\\'}
  {
  }

  /** What a backslash and a letter stand for, by their codes. */
  lemma ShortEscapesAre(c: char)
    ensures ShortEscape(c) == match c as int
                              case 34 => Some(34) case 92 => Some(92) case 47 => Some(47)
                              case 98 => Some(8) case 116 => Some(9) case 110 => Some(10)
                              case 102 => Some(12) case 114 => Some(13)
                              case _ => None
  {
  }

  /** The hexadecimal digits, in ASCII, and what they are worth. */
  lemma HexDigitsAre(c: char)
    ensures IsHex(c) <==> 48 <= c as int <= 57 || 65 <= c as int <= 70 || 97 <= c as int <= 102
    ensures IsHex(c) ==> HexValue(c) == c as int - if c as int <= 57 then 48 else if c as int <= 70 then 55 else 87
  {
  }

  /** A code of four hexadecimal digits stands for that number. */
  lemma CodeStandsFor(a: char, b: char, c: char, d: char, rest: string)
    requires IsHex(a) && IsHex(b) && IsHex(c) && IsHex(d)
    ensures FirstUnit(['\\', 'u', a, b, c, d] + rest)
            == Some(Unit(6, ((HexValue(a) * 16 + HexValue(b)) * 16 + HexValue(c)) * 16 + HexValue(d)))
  {
    hide IsHex, HexValue;
  }

  /** Escaped texts one after another are the escaped text of both. */
  lemma {:induction false} EscapeThen(a: string, b: string)
    ensures Escape(a + b) == Escape(a) + Escape(b)
    decreases |a|
  {
    hide EscapeChar;
    if a == "" {
      assert a + b == b;
    } else {
      assert (a + b)[0] == a[0] && (a + b)[1..] == a[1..] + b;
      EscapeThen(a[1..], b);
    }
  }

  lemma EmptyBody()
    ensures WellFormed("") && Decode("") == []
  {
  }

  /** The first unit of a body is one by itself. */
  lemma UnitAlone(body: string)
    requires FirstUnit(body).Some?
    ensures var u := FirstUnit(body).value; WellFormed(body[..u.length]) && Decode(body[..u.length]) == [u.value]
  {
    hide WellFormed, Decode;
    var a := body[..FirstUnit(body).value.length];
    assert FirstUnit(a) == FirstUnit(body) && a[|a|..] == "";
    EmptyBody();
    ByUnit(a);
  }

  /** A unit of more than one character has no brace in it. */
  lemma UnitHasNoBrace(s: string)
    requires FirstUnit(s).Some? && FirstUnit(s).value.length > 1
    ensures forall i :: 0 <= i < FirstUnit(s).value.length ==> s[i] != '{'
  {
  }

  // ---------------------------------------------------------------- documents

  /** A string of a document, by its body, or a character outside of strings. */
  datatype Piece = Raw(c: char) | Str(body: string)

  /** How long a string's body is, its closing quote found by skipping what follows a backslash. */
  function BodyLength(s: string): (n: Option<nat>)
    ensures n.Some? ==> n.value < |s| && s[n.value] == '"'
  {
    if s == "" then None
    else if s[0] == '"' then Some(0)
    else if s[0] == '\\' && |s| < 2 then None
    else
      var k := if s[0] == '\\' then 2 else 1;
      var n := BodyLength(s[k..]);
      if n.None? then None else Some(k + n.value)
  }

  /** What can stand in a string before its end: characters other than quote and backslash, and backslashes
      followed by one character, whatever it is. */
  predicate InsideString(s: string)
    decreases |s|
  {
    s == "" || (if s[0] == '\\' then |s| >= 2 && InsideString(s[2..]) else s[0] != '"' && InsideString(s[1..]))
  }

  /** A string ends at the first quote that no backslash takes away. */
  lemma {:induction false} BodyLengthExactly(s: string, n: nat)
    ensures BodyLength(s) == Some(n) <==> n < |s| && s[n] == '"' && InsideString(s[..n])
    decreases |s|
  {
    if s != "" && s[0] != '"' && (s[0] != '\\' || |s| >= 2) {
      var k := if s[0] == '\\' then 2 else 1;
      if n >= k {
        BodyLengthExactly(s[k..], n - k);
        if n < |s| {
          assert s[..n][0] == s[0] && s[..n][k..] == s[k..][..n - k];
        }
      } else if n == 1 && |s| > 1 {
        assert s[..1] == [s[0]];
      }
    } else if s != "" && n > 0 && n < |s| {
      assert s[..n][0] == s[0];
    }
  }

  function Lex(doc: string): Option<seq<Piece>>
    decreases |doc|
  {
    if doc == "" then Some([])
    else if doc[0] != '"' then Cons(Raw(doc[0]), Lex(doc[1..]))
    else
      var n := BodyLength(doc[1..]);
      if n.None? then None else Cons(Str(doc[1..n.value + 1]), Lex(doc[n.value + 2..]))
  }

  function Cons(p: Piece, rest: Option<seq<Piece>>): Option<seq<Piece>> {
    if rest.None? then None else Some([p] + rest.value)
  }

  function Show(p: Piece): string {
    if p.Raw? then [p.c] else "\"" + p.body + "\""
  }

  function ShowAll(ps: seq<Piece>): string {
    if ps == [] then "" else Show(ps[0]) + ShowAll(ps[1..])
  }

  /** A piece on its own is one: no quote outside of strings, and every string a well-formed body. */
  predicate Sound(p: Piece) {
    if p.Raw? then p.c != '"' else WellFormed(p.body)
  }

  /** The whole of a document's strings are well formed. */
  ghost predicate SoundAll(ps: seq<Piece>) {
    forall i :: 0 <= i < |ps| ==> Sound(ps[i])
  }

  lemma {:induction false} SkipPlain(s: string, k: nat)
    requires k <= |s| && forall i :: 0 <= i < k ==> s[i] != '"' && s[i] != '\\'
    ensures BodyLength(s) == Shift(k, BodyLength(s[k..]))
    decreases k
  {
    hide BodyLength;
    if k == 0 {
      assert s[0..] == s;
    } else {
      OneSkip(s);
      SkipPlain(s[1..], k - 1);
      assert s[1..][k - 1..] == s[k..];
    }
  }

  lemma OneSkip(s: string)
    requires s != "" && s[0] != '"' && s[0] != '\\'
    ensures BodyLength(s) == Shift(1, BodyLength(s[1..]))
  {
  }

  function Shift(k: nat, n: Option<nat>): Option<nat> {
    if n.None? then None else Some(k + n.value)
  }

  /** No unit of a body hides or opens a quote. */
  lemma UnitSkips(s: string, n: nat)
    requires FirstUnit(s).Some? && n == FirstUnit(s).value.length
    ensures BodyLength(s) == Shift(n, BodyLength(s[n..]))
  {
    if n == 6 {
      SkipPlain(s[2..], 4);
      assert s[2..][4..] == s[6..];
    }
  }

  /** A well-formed body ends where it should. */
  lemma {:induction false} BodyEnds(body: string, rest: string)
    requires WellFormed(body) && rest != "" && rest[0] == '"'
    ensures BodyLength(body + rest) == Some(|body|)
    decreases |body|
  {
    hide FirstUnit, BodyLength, WellFormed;
    if body == "" {
      assert body + rest == rest;
      QuoteEnds(rest);
    } else {
      HasUnit(body);
      var n := FirstUnit(body).value.length;
      UnitOf(body, rest);
      UnitSkips(body + rest, n);
      BodyEnds(body[n..], rest);
      DropInto(body, rest, n);
    }
  }

  lemma QuoteEnds(rest: string)
    requires rest != "" && rest[0] == '"'
    ensures BodyLength(rest) == Some(0)
  {
  }

  /** What follows a closed body does not matter to where it ends. */
  lemma {:induction false} BodyStays(a: string, b: string)
    requires BodyLength(a).Some?
    ensures BodyLength(a + b) == BodyLength(a)
    decreases |a|
  {
    if a[0] != '"' {
      var k := if a[0] == '\\' then 2 else 1;
      BodyStays(a[k..], b);
      assert (a + b)[k..] == a[k..] + b;
    }
  }

  lemma ConsBoth(p: Piece, a: seq<Piece>, b: Option<seq<Piece>>)
    ensures Cons(p, if b.None? then None else Some(a + b.value)) == if b.None? then None else Some([p] + a + b.value)
  {
    if b.Some? {
      assert [p] + (a + b.value) == [p] + a + b.value;
    }
  }

  /** A document put before another is cut as it was. */
  lemma {:induction false} LexBoth(a: string, b: string)
    requires Lex(a).Some?
    ensures Lex(a + b) == if Lex(b).None? then None else Some(Lex(a).value + Lex(b).value)
    decreases |a|
  {
    hide BodyLength;
    if a == "" {
      assert a + b == b;
      if Lex(b).Some? {
        assert [] + Lex(b).value == Lex(b).value;
      }
    } else if a[0] != '"' {
      LexBoth(a[1..], b);
      assert (a + b)[1..] == a[1..] + b;
      ConsBoth(Raw(a[0]), Lex(a[1..]).value, Lex(b));
    } else {
      var n := BodyLength(a[1..]).value;
      BodyStays(a[1..], b);
      LexBoth(a[n + 2..], b);
      LexString(a, n);
      assert (a + b)[1..] == a[1..] + b && (a + b)[n + 2..] == a[n + 2..] + b && (a + b)[1..n + 1] == a[1..n + 1];
      LexString(a + b, n);
      ConsBoth(Str(a[1..n + 1]), Lex(a[n + 2..]).value, Lex(b));
    }
  }

  lemma LexString(doc: string, n: nat)
    requires doc != "" && doc[0] == '"' && BodyLength(doc[1..]) == Some(n)
    ensures n + 2 <= |doc| && Lex(doc) == Cons(Str(doc[1..n + 1]), Lex(doc[n + 2..]))
  {
    hide BodyLength;
  }

  /** A sound piece is cut off as itself. */
  lemma LexPiece(p: Piece)
    requires Sound(p)
    ensures Lex(Show(p)) == Some([p])
  {
    var s := Show(p);
    LexNothing();
    ConsOne(p);
    if p.Raw? {
      assert s[1..] == "";
    } else {
      hide Lex, BodyLength, WellFormed;
      BodyEnds(p.body, "\"");
      assert s[1..] == p.body + "\"";
      LexString(s, |p.body|);
      assert s[1..|p.body| + 1] == p.body && s[|p.body| + 2..] == "";
    }
  }

  lemma ConsOne(p: Piece)
    ensures Cons(p, Some([])) == Some([p])
  {
    assert [p] + [] == [p];
  }

  /** Sound pieces shown one after another are cut into the same pieces. */
  lemma {:induction false} LexShown(ps: seq<Piece>)
    requires SoundAll(ps)
    ensures Lex(ShowAll(ps)) == Some(ps)
    decreases |ps|
  {
    hide Lex, Show, Sound;
    if ps == [] {
      LexNothing();
    } else {
      LexShown(ps[1..]);
      LexPiece(ps[0]);
      LexBoth(Show(ps[0]), ShowAll(ps[1..]));
      assert [ps[0]] + ps[1..] == ps;
    }
  }

  lemma LexNothing()
    ensures Lex("") == Some([])
  {
  }
}
