/** How a JSON value is written for display (internal/report/diff.go:400-408): compact JSON, the way
    json.Marshal writes what json.Unmarshal read. No two values are written alike. */
module CompactJson {
  import opened JsonPath
  import opened Order
  import JsonText

  function Quote(s: string): string {
    "\"" + JsonText.Escape(s) + "\""
  }

  ghost function Compact(j: Json): string
    decreases j, 1, 0
  {
    match j
    case Null => "null"
    case Bool(b) => if b then "true" else "false"
    case Number(literal) => literal
    case Text(text) => Quote(text)
    case List(items) => "[" + (if items == [] then "]" else Compact(items[0]) + ItemsFrom(j, 1))
    case Object(fields) =>
      var keys := SortedKeys(fields.Keys);
      "{" + (if keys == [] then "}" else Pair(j, keys[0]) + PairsFrom(j, keys[1..]))
  }

  /** The items of a list from `i` on, each after a comma, and the bracket. */
  ghost function ItemsFrom(j: Json, i: nat): string
    requires j.List? && i <= |j.items|
    decreases j, 0, |j.items| - i
  {
    if i == |j.items| then "]" else "," + Compact(j.items[i]) + ItemsFrom(j, i + 1)
  }

  ghost function Pair(j: Json, k: string): string
    requires j.Object? && k in j.fields
    decreases j, 0, 0
  {
    Quote(k) + ":" + Compact(j.fields[k])
  }

  /** The fields under these keys, each after a comma, and the brace. */
  ghost function PairsFrom(j: Json, keys: seq<string>): string
    requires j.Object? && forall k :: k in keys ==> k in j.fields
    decreases j, 0, |keys| + 1
  {
    if keys == [] then "}" else "," + Pair(j, keys[0]) + PairsFrom(j, keys[1..])
  }

  // ---------------------------------------------------------------- how it is written

  /** Texts with a comma between each two. */
  function Commas(parts: seq<string>): string {
    if parts == [] then "" else if |parts| == 1 then parts[0] else parts[0] + "," + Commas(parts[1..])
  }

  ghost function Written(items: seq<Json>): seq<string> {
    seq(|items|, i requires 0 <= i < |items| => Compact(items[i]))
  }

  ghost function WrittenPairs(fields: map<string, Json>, keys: seq<string>): seq<string>
    requires forall i :: 0 <= i < |keys| ==> keys[i] in fields
  {
    seq(|keys|, i requires 0 <= i < |keys| => "\"" + JsonText.Escape(keys[i]) + "\":" + Compact(fields[keys[i]]))
  }

  /** Words and numbers as they are, strings escaped in quotes, lists and objects with commas and no white space,
      objects by ascending key. */
  lemma CompactTold(text: string, items: seq<Json>, fields: map<string, Json>, n: NumberText)
    ensures Compact(Null) == "null" && Compact(Bool(true)) == "true" && Compact(Bool(false)) == "false"
    ensures Compact(Number(n)) == n && Compact(Text(text)) == "\"" + JsonText.Escape(text) + "\""
    ensures Compact(List(items)) == "[" + Commas(Written(items)) + "]"
    ensures Compact(Object(fields)) == "{" + Commas(WrittenPairs(fields, SortedKeys(fields.Keys))) + "}"
  {
    hide JsonText.Escape, SortedKeys, ItemsFrom, PairsFrom;
    ListWritten(items);
    ObjectWritten(fields);
  }

  lemma ListWritten(items: seq<Json>)
    ensures Compact(List(items)) == "[" + Commas(Written(items)) + "]"
  {
    hide ItemsFrom, Written, Commas;
    if items != [] {
      ItemsWritten(items, 1);
      WrittenFirst(items);
      CommaFirst(Compact(items[0]), Written(items[1..]));
    } else {
      NoneWritten();
    }
  }

  lemma WrittenFirst(items: seq<Json>)
    requires items != []
    ensures Written(items) == [Compact(items[0])] + Written(items[1..]) && |Written(items)| == |items|
    ensures Written(items[1..]) == [] <==> |items| == 1
  {
    hide Compact;
    var w := [Compact(items[0])] + Written(items[1..]);
    assert |Written(items)| == |w|;
    forall i | 0 <= i < |w|
      ensures Written(items)[i] == w[i]
    {
      assert i > 0 ==> items[1..][i - 1] == items[i];
    }
  }

  lemma NoneWritten()
    ensures Written([]) == [] && Commas([]) == "" && WrittenPairs(map[], []) == []
    ensures forall fields :: WrittenPairs(fields, []) == []
  {
  }

  lemma ObjectWritten(fields: map<string, Json>)
    ensures Compact(Object(fields)) == "{" + Commas(WrittenPairs(fields, SortedKeys(fields.Keys))) + "}"
  {
    hide JsonText.Escape, SortedKeys, PairsFrom, Pair, Commas, WrittenPairs;
    var keys := SortedKeys(fields.Keys);
    NoneWritten();
    if keys != [] {
      assert keys[0] in keys;
      PairsWritten(fields, keys[1..]);
      PairsFirst(fields, keys);
    }
  }

  lemma CommaFirst(first: string, rest: seq<string>)
    ensures Commas([first] + rest) == first + if rest == [] then "" else "," + Commas(rest)
  {
    assert ([first] + rest)[1..] == rest;
  }

  lemma {:induction false} ItemsWritten(items: seq<Json>, i: nat)
    requires i <= |items|
    ensures ItemsFrom(List(items), i) == (if i == |items| then "" else "," + Commas(Written(items[i..]))) + "]"
    decreases |items| - i
  {
    hide Compact, Written, Commas;
    if i < |items| {
      ItemsWritten(items, i + 1);
      WrittenFirst(items[i..]);
      assert items[i..][1..] == items[i + 1..] && items[i..][0] == items[i];
      CommaFirst(Compact(items[i]), Written(items[i + 1..]));
    }
  }

  lemma PairWritten(fields: map<string, Json>, k: string)
    requires k in fields
    ensures Pair(Object(fields), k) == "\"" + JsonText.Escape(k) + "\":" + Compact(fields[k])
  {
    hide Compact, JsonText.Escape;
  }

  lemma {:induction false} PairsWritten(fields: map<string, Json>, keys: seq<string>)
    requires forall k :: k in keys ==> k in fields
    ensures PairsFrom(Object(fields), keys)
            == (if keys == [] then "" else "," + Commas(WrittenPairs(fields, keys))) + "}"
    decreases |keys|
  {
    hide Compact, Pair, WrittenPairs, Commas;
    if keys != [] {
      assert keys[0] in keys;
      PairsWritten(fields, keys[1..]);
      PairsFirst(fields, keys);
    }
  }

  lemma PairsFirst(fields: map<string, Json>, keys: seq<string>)
    requires keys != [] && forall k :: k in keys ==> k in fields
    ensures keys[0] in fields
    ensures Commas(WrittenPairs(fields, keys)) ==
            Pair(Object(fields), keys[0])
            + if |keys| == 1 then "" else "," + Commas(WrittenPairs(fields, keys[1..]))
  {
    hide Compact, Pair, Commas, JsonText.Escape;
    assert keys[0] in keys;
    PairWritten(fields, keys[0]);
    assert WrittenPairs(fields, keys) == [Pair(Object(fields), keys[0])] + WrittenPairs(fields, keys[1..]);
    CommaFirst(Pair(Object(fields), keys[0]), WrittenPairs(fields, keys[1..]));
  }

  // ---------------------------------------------------------------- reading it back

  predicate Closes(c: char) {
    c == ',' || c == ']' || c == '}'
  }

  /** What may follow a value inside a document. */
  predicate Stops(x: string) {
    x == "" || Closes(x[0])
  }

  lemma {:induction false} CodesTell(a: string, b: string)
    requires JsonText.Codes(a) == JsonText.Codes(b)
    ensures a == b
    decreases |a|
  {
    if a != "" && b != "" {
      assert JsonText.Codes(a)[0] == a[0] as int && JsonText.Codes(b)[0] == b[0] as int;
      assert JsonText.Codes(a)[1..] == JsonText.Codes(a[1..]) && JsonText.Codes(b)[1..] == JsonText.Codes(b[1..]);
      CodesTell(a[1..], b[1..]);
      assert a == [a[0]] + a[1..] && b == [b[0]] + b[1..];
    }
  }

  lemma QuoteReads(a: string, b: string, x: string, y: string)
    requires Quote(a) + x == Quote(b) + y
    ensures a == b && x == y
  {
    hide JsonText.Escape, JsonText.Codes, JsonText.WellFormed, JsonText.Decode, JsonText.BodyLength;
    var p, q := JsonText.Escape(a), JsonText.Escape(b);
    JsonText.EscapeDecodes(a);
    JsonText.EscapeDecodes(b);
    JsonText.BodyEnds(p, "\"" + x);
    JsonText.BodyEnds(q, "\"" + y);
    assert (Quote(a) + x)[1..] == p + ("\"" + x) && (Quote(b) + y)[1..] == q + ("\"" + y);
    assert p == (p + ("\"" + x))[..|p|] && q == (q + ("\"" + y))[..|q|];
    CodesTell(a, b);
    assert x == (p + ("\"" + x))[|p| + 1..] && y == (q + ("\"" + y))[|q| + 1..];
  }

  /** How a value begins tells its kind. */
  lemma Begins(j: Json)
    ensures Compact(j) != ""
    ensures var c := Compact(j)[0];
            && !Closes(c)
            && (j.Null? <==> c == 'n') && (j.Bool? <==> c == 't' || c == 'f')
            && (j.Number? <==> IsNumberChar(c)) && (j.Text? <==> c == '"')
            && (j.List? <==> c == '[') && (j.Object? <==> c == '{')
  {
    hide JsonText.Escape, ItemsFrom, PairsFrom, Pair, SortedKeys;
  }

  lemma SameBegin(p: string, q: string, x: string, y: string)
    requires p + x == q + y && p != "" && q != ""
    ensures p[0] == q[0]
  {
    assert (p + x)[0] == p[0] && (q + y)[0] == q[0];
  }

  lemma NotShorter(a: string, b: string, x: string, y: string)
    requires IsNumber(b) && Stops(x) && a + x == b + y
    ensures |b| <= |a|
  {
    if |a| < |b| {
      NextChar(a, b, x, y);
      assert false;
    }
  }

  lemma NextChar(a: string, b: string, x: string, y: string)
    requires a + x == b + y && |a| < |b|
    ensures x != "" && x[0] == b[|a|]
  {
    assert (b + y)[|a|] == b[|a|] && (a + x)[|a|] == x[0];
  }

  lemma NumberReads(a: string, b: string, x: string, y: string)
    requires IsNumber(a) && IsNumber(b) && Stops(x) && Stops(y) && a + x == b + y
    ensures a == b && x == y
  {
    NotShorter(a, b, x, y);
    NotShorter(b, a, y, x);
    assert a == (a + x)[..|a|] && b == (b + y)[..|b|];
    assert x == (a + x)[|a|..] && y == (b + y)[|b|..];
  }

  lemma DropSame(p: string, x: string, y: string)
    requires p + x == p + y
    ensures x == y
  {
    assert x == (p + x)[|p|..] && y == (p + y)[|p|..];
  }

  lemma Reassoc(p: string, q: string, x: string)
    ensures (p + q) + x == p + (q + x)
  {
  }

  /** Two values followed by something that may follow a value: written alike, they are the same. */
  lemma {:induction false} CompactReads(a: Json, b: Json, x: string, y: string)
    requires Compact(a) + x == Compact(b) + y && Stops(x) && Stops(y)
    ensures a == b && x == y
    decreases a, 1, 0
  {
    Begins(a);
    Begins(b);
    SameBegin(Compact(a), Compact(b), x, y);
    match a {
      case Null => DropSame("null", x, y);
      case Bool(p) => BoolReads(a, b, x, y);
      case Number(t) => NumberReads(t, b.literal, x, y);
      case Text(t) => QuoteReads(t, b.text, x, y);
      case List(_) => ListReads(a, b, x, y);
      case Object(_) => ObjectReads(a, b, x, y);
    }
  }

  lemma BoolReads(a: Json, b: Json, x: string, y: string)
    requires a.Bool? && b.Bool? && Compact(a) + x == Compact(b) + y
    ensures a == b && x == y
  {
    SameBegin(Compact(a), Compact(b), x, y);
    DropSame(Compact(a), x, y);
  }

  lemma {:induction false} ListReads(a: Json, b: Json, x: string, y: string)
    requires a.List? && b.List? && Compact(a) + x == Compact(b) + y
    ensures a == b && x == y
    decreases a, 0, |a.items| + 2
  {
    hide Compact, ItemsFrom;
    var p := Listed(a, x);
    var q := Listed(b, y);
    if a.items == [] || b.items == [] {
      EmptyLists(a, b, p, q, x, y);
    } else {
      var u, v := ItemsFrom(a, 1), ItemsFrom(b, 1);
      Reassoc(Compact(a.items[0]), u, x);
      Reassoc(Compact(b.items[0]), v, y);
      ItemsStop(a, 1, x);
      ItemsStop(b, 1, y);
      CompactReads(a.items[0], b.items[0], u + x, v + y);
      ItemsRead(a, b, 1, x, y);
      assert a.items == [a.items[0]] + a.items[1..] && b.items == [b.items[0]] + b.items[1..];
    }
  }

  lemma ItemsStop(j: Json, i: nat, x: string)
    requires j.List? && i <= |j.items|
    ensures Stops(ItemsFrom(j, i) + x)
  {
    hide Compact;
  }

  lemma Listed(j: Json, x: string) returns (p: string)
    requires j.List?
    ensures Compact(j) != "" && (Compact(j) + x)[1..] == p + x
    ensures p == if j.items == [] then "]" else Compact(j.items[0]) + ItemsFrom(j, 1)
  {
    hide Compact, ItemsFrom;
    Opened(j);
    p := Compact(j)[1..];
    assert (Compact(j) + x)[1..] == p + x;
  }

  lemma EmptyLists(a: Json, b: Json, p: string, q: string, x: string, y: string)
    requires a.List? && b.List? && (a.items == [] || b.items == []) && p + x == q + y
    requires p == if a.items == [] then "]" else Compact(a.items[0]) + ItemsFrom(a, 1)
    requires q == if b.items == [] then "]" else Compact(b.items[0]) + ItemsFrom(b, 1)
    ensures a == b && x == y
  {
    hide Compact;
    if a.items != [] {
      Begins(a.items[0]);
    }
    if b.items != [] {
      Begins(b.items[0]);
    }
    SameBegin(p, q, x, y);
    DropSame("]", x, y);
  }

  lemma Opened(j: Json)
    requires j.List? || j.Object?
    ensures Compact(j) != ""
    ensures j.List? ==> Compact(j)[1..] == if j.items == [] then "]" else Compact(j.items[0]) + ItemsFrom(j, 1)
    ensures j.Object? ==>
              var keys := SortedKeys(j.fields.Keys);
              Compact(j)[1..] == if keys == [] then "}" else Pair(j, keys[0]) + PairsFrom(j, keys[1..])
  {
    hide SortedKeys, Pair, PairsFrom, ItemsFrom, Quote;
  }

  lemma {:induction false} ItemsRead(a: Json, b: Json, i: nat, x: string, y: string)
    requires a.List? && b.List? && i <= |a.items| && i <= |b.items|
    requires ItemsFrom(a, i) + x == ItemsFrom(b, i) + y
    ensures a.items[i..] == b.items[i..] && x == y
    decreases a, 0, |a.items| - i
  {
    hide Compact;
    SameBegin(ItemsFrom(a, i), ItemsFrom(b, i), x, y);
    if i == |a.items| {
      DropSame("]", x, y);
    } else {
      var p, q := ItemsFrom(a, i + 1), ItemsFrom(b, i + 1);
      CommaReads(Compact(a.items[i]), p, x, Compact(b.items[i]), q, y);
      CompactReads(a.items[i], b.items[i], p + x, q + y);
      ItemsRead(a, b, i + 1, x, y);
      assert a.items[i..] == [a.items[i]] + a.items[i + 1..] && b.items[i..] == [b.items[i]] + b.items[i + 1..];
    }
  }

  lemma CommaReads(v: string, p: string, x: string, w: string, q: string, y: string)
    requires ("," + v + p) + x == ("," + w + q) + y
    ensures v + (p + x) == w + (q + y)
  {
    assert ("," + v + p) + x == "," + (v + (p + x)) && ("," + w + q) + y == "," + (w + (q + y));
    DropSame(",", v + (p + x), w + (q + y));
  }

  lemma {:induction false} PairReads(a: Json, b: Json, k: string, l: string, x: string, y: string)
    requires a.Object? && b.Object? && k in a.fields && l in b.fields && Stops(x) && Stops(y)
    requires Pair(a, k) + x == Pair(b, l) + y
    ensures k == l && a.fields[k] == b.fields[l] && x == y
    decreases a, 0, 0
  {
    hide Compact, Quote;
    var v, w := Compact(a.fields[k]), Compact(b.fields[l]);
    assert Pair(a, k) + x == Quote(k) + (":" + (v + x)) && Pair(b, l) + y == Quote(l) + (":" + (w + y));
    QuoteReads(k, l, ":" + (v + x), ":" + (w + y));
    DropSame(":", v + x, w + y);
    CompactReads(a.fields[k], b.fields[l], x, y);
  }

  /** The two objects have the same keys from here on, with the same values. */
  ghost predicate SamePairs(a: Json, b: Json, keys: seq<string>, keys': seq<string>)
    requires a.Object? && b.Object?
  {
    keys == keys' && forall k :: k in keys ==> k in a.fields && k in b.fields && a.fields[k] == b.fields[k]
  }

  lemma {:induction false} PairsRead(a: Json, b: Json, keys: seq<string>, keys': seq<string>, x: string, y: string)
    requires a.Object? && b.Object?
    requires (forall k :: k in keys ==> k in a.fields) && (forall k :: k in keys' ==> k in b.fields)
    requires PairsFrom(a, keys) + x == PairsFrom(b, keys') + y
    ensures SamePairs(a, b, keys, keys') && x == y
    decreases a, 0, |keys| + 1
  {
    hide Pair;
    SameBegin(PairsFrom(a, keys), PairsFrom(b, keys'), x, y);
    if keys == [] {
      DropSame("}", x, y);
    } else {
      var p, q := PairsFrom(a, keys[1..]), PairsFrom(b, keys'[1..]);
      CommaReads(Pair(a, keys[0]), p, x, Pair(b, keys'[0]), q, y);
      PairReads(a, b, keys[0], keys'[0], p + x, q + y);
      PairsRead(a, b, keys[1..], keys'[1..], x, y);
      assert keys == [keys[0]] + keys[1..] && keys' == [keys'[0]] + keys'[1..];
    }
  }

  lemma {:induction false} ObjectReads(a: Json, b: Json, x: string, y: string)
    requires a.Object? && b.Object? && Compact(a) + x == Compact(b) + y
    ensures a == b && x == y
    decreases a, 0, |SortedKeys(a.fields.Keys)| + 2
  {
    hide Compact, Pair, PairsFrom, SortedKeys, SamePairs;
    var keys, keys' := SortedKeys(a.fields.Keys), SortedKeys(b.fields.Keys);
    var p := Fields(a, x);
    var q := Fields(b, y);
    if keys == [] || keys' == [] {
      EmptyObjects(a, b, keys, keys', p, q, x, y);
    } else {
      FieldsRead(a, b, keys, keys', x, y);
    }
    SameObject(a, b, keys, keys');
  }

  lemma Fields(j: Json, x: string) returns (p: string)
    requires j.Object?
    ensures Compact(j) != "" && (Compact(j) + x)[1..] == p + x
    ensures var keys := SortedKeys(j.fields.Keys);
            p == if keys == [] then "}" else Pair(j, keys[0]) + PairsFrom(j, keys[1..])
  {
    hide Compact, Pair, PairsFrom, SortedKeys;
    Opened(j);
    p := Compact(j)[1..];
    assert (Compact(j) + x)[1..] == p + x;
  }

  lemma {:induction false} FieldsRead(a: Json, b: Json, keys: seq<string>, keys': seq<string>, x: string, y: string)
    requires a.Object? && b.Object? && keys != [] && keys' != []
    requires (forall k :: k in keys ==> k in a.fields) && (forall k :: k in keys' ==> k in b.fields)
    requires (Pair(a, keys[0]) + PairsFrom(a, keys[1..])) + x == (Pair(b, keys'[0]) + PairsFrom(b, keys'[1..])) + y
    ensures SamePairs(a, b, keys, keys') && x == y
    decreases a, 0, |keys| + 1
  {
    hide Pair;
    Reassoc(Pair(a, keys[0]), PairsFrom(a, keys[1..]), x);
    Reassoc(Pair(b, keys'[0]), PairsFrom(b, keys'[1..]), y);
    PairReads(a, b, keys[0], keys'[0], PairsFrom(a, keys[1..]) + x, PairsFrom(b, keys'[1..]) + y);
    PairsRead(a, b, keys[1..], keys'[1..], x, y);
    assert keys == [keys[0]] + keys[1..] && keys' == [keys'[0]] + keys'[1..];
  }

  lemma EmptyObjects(a: Json, b: Json, keys: seq<string>, keys': seq<string>, p: string, q: string, x: string,
          y: string)
    requires a.Object? && b.Object? && (keys == [] || keys' == []) && p + x == q + y
    requires (forall k :: k in keys ==> k in a.fields) && (forall k :: k in keys' ==> k in b.fields)
    requires p == if keys == [] then "}" else Pair(a, keys[0]) + PairsFrom(a, keys[1..])
    requires q == if keys' == [] then "}" else Pair(b, keys'[0]) + PairsFrom(b, keys'[1..])
    ensures SamePairs(a, b, keys, keys') && x == y
  {
    hide Pair, PairsFrom;
    if keys != [] {
      PairBegins(a, keys[0]);
    }
    if keys' != [] {
      PairBegins(b, keys'[0]);
    }
    SameBegin(p, q, x, y);
    DropSame("}", x, y);
  }

  lemma PairBegins(j: Json, k: string)
    requires j.Object? && k in j.fields
    ensures Pair(j, k) != "" && Pair(j, k)[0] == '"'
  {
    hide Compact, JsonText.Escape;
  }

  lemma SameObject(a: Json, b: Json, keys: seq<string>, keys': seq<string>)
    requires a.Object? && b.Object? && SamePairs(a, b, keys, keys')
    requires (forall k :: k in keys <==> k in a.fields) && (forall k :: k in keys' <==> k in b.fields)
    ensures a == b
  {
    assert a.fields == b.fields;
  }

  /** No two values are written alike. */
  lemma CompactTells(a: Json, b: Json)
    requires Compact(a) == Compact(b)
    ensures a == b
  {
    hide Compact;
    assert Compact(a) + "" == Compact(a) && Compact(b) + "" == Compact(b);
    CompactReads(a, b, "", "");
  }
}
