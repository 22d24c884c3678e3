/** Storing what a kept trace captured (internal/span/capture.go:91-138): every body is scrubbed before
    it is cut, and the raw references are let go. */
module Capture {
  import opened Options
  import opened Secrets

  type Redactor = string -> string

  /** What a span holds of a call until its trace is kept or dropped. */
  datatype Raw = Raw(
    callMethod: string, url: string, status: int, statusText: string, retryAfter: string, failure: string,
    request: Option<string>, response: Option<string>)

  datatype Payload = Payload(
    callMethod: string, url: string, status: int, statusText: string, retryAfter: string, failure: string,
    reqBytes: nat, respBytes: nat, request: string, response: string, truncated: bool)

  /** There is something to store. */
  predicate Captured(r: Raw) {
    r.status != 0 || r.statusText != "" || r.request.Some? || r.response.Some? || r.failure != ""
  }

  function Length(b: Option<string>): nat {
    if b.None? then 0 else |b.value|
  }

  /** A body scrubbed, then cut when there is a positive cap. */
  function CapBody(b: Option<string>, redact: Redactor, maxBytes: int): (string, bool) {
    if Length(b) == 0 then ("", false) else
      var r := redact(b.value);
      if 0 < maxBytes < |r| then (r[..maxBytes], true) else (r, false)
  }

  function Stored(r: Raw, redact: Redactor, maxBytes: int): Payload {
    var req := if maxBytes >= 0 then CapBody(r.request, redact, maxBytes) else ("", false);
    var resp := if maxBytes >= 0 then CapBody(r.response, redact, maxBytes) else ("", false);
    Payload(r.callMethod, if r.url != "" then redact(r.url) else "", r.status, r.statusText, r.retryAfter,
            if r.failure != "" then redact(r.failure) else "", Length(r.request), Length(r.response),
            req.0, resp.0, req.1 || resp.1)
  }

  // ---------------------------------------------------------------- what is stored

  /** Nothing was captured exactly when the span knows no more than the call it was going to make. */
  lemma CapturedTold(r: Raw)
    ensures !Captured(r) <==> r == Raw(r.callMethod, r.url, 0, "", r.retryAfter, "", None, None)
  {
  }

  /** Field by field, the payload is what was captured: names, status and sizes as they were, reason and address
      scrubbed. The bodies are told by `CapHolds`. */
  predicate Tells(p: Payload, r: Raw, redact: Redactor) {
    && p.callMethod == r.callMethod && p.status == r.status
    && p.statusText == r.statusText && p.retryAfter == r.retryAfter
    && p.reqBytes == (match r.request { case None => 0 case Some(b) => |b| })
    && p.respBytes == (match r.response { case None => 0 case Some(b) => |b| })
    && (if r.failure == "" then p.failure == "" else p.failure == redact(r.failure))
    && (if r.url == "" then p.url == "" else p.url == redact(r.url))
  }

  lemma StoredTells(r: Raw, redact: Redactor, maxBytes: int)
    ensures Tells(Stored(r, redact, maxBytes), r, redact)
  {
    hide CapBody;
  }

  /** A scrubbing after which no text contains the value. */
  ghost predicate Scrubs(redact: Redactor, v: string) {
    forall t :: !Contains(redact(t), v)
  }

  /** How a set's values are put in order to scrub a text; equally long ones may come differently each time. */
  type Ordering = string -> seq<string>

  ghost predicate Orders(order: Ordering, values: set<string>) {
    forall t :: LongestFirst(order(t), values) && NoneEmpty(order(t))
  }

  /** Replacing the registered values in turn, longest first, as a function. */
  ghost function Redacting(order: Ordering, values: set<string>): Redactor
    requires Orders(order, values)
  {
    (t: string) => Redacted(order(t), t)
  }

  /** A safe set scrubs all of its values. */
  lemma RedactingScrubs(values: set<string>, order: Ordering, v: string)
    requires Orders(order, values) && "" !in values && Safe(values) && v in values
    ensures Scrubs(Redacting(order, values), v)
  {
    hide Makes, Contains, Redacted;
    forall t
      ensures !Contains(Redacting(order, values)(t), v)
    {
      RedactedIsClean(values, order(t), order(t), t);
    }
  }

  lemma NothingInEmpty(v: string)
    requires v != ""
    ensures !Contains("", v)
  {
  }

  predicate Clean(p: Payload, v: string) {
    !Contains(p.request, v) && !Contains(p.response, v) && !Contains(p.failure, v) && !Contains(p.url, v)
  }

  /** No stored request, response, failure or URL contains a value that is scrubbed, cut or not. */
  lemma StoredIsClean(r: Raw, redact: Redactor, maxBytes: int, v: string)
    requires v != "" && Scrubs(redact, v)
    ensures Clean(Stored(r, redact, maxBytes), v)
  {
    hide Contains;
    NothingInEmpty(v);
    BodyIsClean(r.request, redact, maxBytes, v);
    BodyIsClean(r.response, redact, maxBytes, v);
  }

  /** With a set of plain values registered, no captured call stores one, whichever of equally long ones comes
      first in each text. */
  lemma PlainStoredIsClean(r: Raw, values: set<string>, order: Ordering, maxBytes: int, v: string)
    requires Orders(order, values) && (forall w :: w in values ==> Plain(w)) && v in values
    ensures Clean(Stored(r, Redacting(order, values), maxBytes), v)
  {
    hide Plain, Safe, Orders, Scrubs, Redacting, Clean, Stored;
    PlainIsSafe(values);
    RedactingScrubs(values, order, v);
    StoredIsClean(r, Redacting(order, values), maxBytes, v);
  }

  lemma BodyIsClean(b: Option<string>, redact: Redactor, maxBytes: int, v: string)
    requires v != "" && Scrubs(redact, v)
    ensures !Contains(CapBody(b, redact, maxBytes).0, v)
  {
    hide Contains;
    NothingInEmpty(v);
    if b.Some? && 0 < maxBytes < |redact(b.value)| {
      PartClean(redact(b.value), maxBytes, v);
    }
  }

  /** A positive cap holds, and `truncated` says whether it cut anything; no cap cuts nothing; a negative
      one stores no bodies. */
  lemma CapHolds(r: Raw, redact: Redactor, maxBytes: int)
    ensures var p := Stored(r, redact, maxBytes);
            var req := if Length(r.request) == 0 then "" else redact(r.request.value);
            var resp := if Length(r.response) == 0 then "" else redact(r.response.value);
            if maxBytes > 0 then
              && |p.request| <= maxBytes && |p.response| <= maxBytes && p.request <= req && p.response <= resp
              && (p.truncated <==> p.request != req || p.response != resp)
            else !p.truncated && p.request == (if maxBytes == 0 then req else "")
                 && p.response == (if maxBytes == 0 then resp else "")
  {
  }

  /** Cutting first would not do: wherever the cut falls inside a secret, the part before the cut is no
      secret any more, and stays; scrubbing first, the whole of it becomes the placeholder. */
  lemma CutBeforeScrubLeaves(v: string, before: string, after: string, n: nat)
    requires 0 < n < |v| && NoneBefore(before + v, v, |before|)
    ensures var t := before + v + after;
            && NoneEmpty([v])
            && Redacted([v], t[..|before| + n]) == before + v[..n]
            && Redacted([v], t) == before + (PLACEHOLDER + ReplaceAll(after, v))
  {
    var t := before + v + after;
    var cut := before + v[..n];
    assert t[..|before| + n] == cut;
    forall j
      ensures !OccursAt(cut, v, j)
    {
      assert cut == (before + v)[..|cut|];
      PartOccurs(before + v, |cut|, v, j);
    }
    NothingToReplace(cut, v);
    OneRedacted(v, cut);
    OneRedacted(v, t);
    FirstAfter(before, v, after);
  }

  // ---------------------------------------------------------------- the tree as it is finalized

  /** A span of a whole trace. `Repr` is the span and everything below it. */
  class Span {
    var raw: Raw
    var payload: Option<Payload>
    const children: seq<Span>
    ghost const Repr: set<Span>

    constructor (raw: Raw, children: seq<Span>)
      requires forall i :: 0 <= i < |children| ==> children[i].Valid()
      requires forall i, j :: 0 <= i < j < |children| ==> children[i].Repr !! children[j].Repr
      ensures Valid() && fresh(this) && this.raw == raw && payload == None && this.children == children
      ensures Repr == {this} + set i, s | 0 <= i < |children| && s in children[i].Repr :: s
    {
      this.raw, payload, this.children := raw, None, children;
      Repr := {this} + set i, s | 0 <= i < |children| && s in children[i].Repr :: s;
    }

    /** A tree: no span is below itself, or below two others. */
    ghost predicate Valid()
      decreases Repr
    {
      && this in Repr
      && (forall i :: 0 <= i < |children| ==>
           this !in children[i].Repr && children[i].Repr < Repr && children[i].Valid())
      && (forall i, j :: 0 <= i < j < |children| ==> children[i].Repr !! children[j].Repr)
      && (forall s :: s in Repr ==> s == this || exists i :: 0 <= i < |children| && s in children[i].Repr)
    }

    /** What finalizing makes of this one span: a payload of what it had captured, and no more reference
        to it; a span that captured nothing is left alone. */
    twostate predicate Finalized(redact: Redactor, maxBytes: int)
      reads this
    {
      if Captured(old(raw)) then
        && payload == Some(Stored(old(raw), redact, maxBytes))
        && raw == old(raw).(request := None, response := None, failure := "", statusText := "")
      else payload == old(payload) && raw == old(raw)
    }

    /** A span that knew more than the call it was going to make holds all of that in its payload, with both
        bodies, and has let it go; any other span is as it was. */
    twostate lemma FinalizedTold(redact: Redactor, maxBytes: int)
      requires Finalized(redact, maxBytes)
      ensures var r := old(raw);
              if r == Raw(r.callMethod, r.url, 0, "", r.retryAfter, "", None, None) then
                payload == old(payload) && raw == r
              else
                && payload.Some? && Tells(payload.value, r, redact)
                && raw == Raw(r.callMethod, r.url, r.status, "", r.retryAfter, "", None, None)
                && (maxBytes == 0 ==>
                      && payload.value.request == (if Length(r.request) == 0 then "" else redact(r.request.value))
                      && payload.value.response == (if Length(r.response) == 0 then "" else redact(r.response.value)))
    {
      hide Stored, Captured, Tells;
      CapturedTold(old(raw));
      StoredTells(old(raw), redact, maxBytes);
      CapHolds(old(raw), redact, maxBytes);
    }

    method Finalize(redact: Redactor, maxBytes: int)
      requires Valid()
      modifies Repr
      ensures forall s :: s in Repr ==> s.Finalized(redact, maxBytes)
      decreases Repr, 1
    {
      hide Stored, Captured, Valid, Below;
      ghost var done := {this};
      NothingBelow();
      Store(redact, maxBytes);
      for i := 0 to |children|
        invariant done == {this} + Below(i) && done <= Repr
        invariant forall s :: s in done ==> s.Finalized(redact, maxBytes)
        invariant forall s :: s in Repr && s !in done ==> unchanged(s)
      {
        ChildAt(i);
        children[i].Finalize(redact, maxBytes);
        done := done + children[i].Repr;
      }
      AllBelow();
    }

    /** The spans of the first children and everything below them. */
    ghost function Below(n: nat): set<Span>
      requires n <= |children|
    {
      set i, s | 0 <= i < n && s in children[i].Repr :: s
    }

    lemma NothingBelow()
      requires Valid()
      ensures Below(0) == {} && this in Repr
    {
    }

    lemma ChildAt(i: nat)
      requires Valid() && i < |children|
      ensures children[i].Valid() && children[i].Repr < Repr
      ensures Below(i + 1) == Below(i) + children[i].Repr && children[i].Repr !! {this} + Below(i)
    {
    }

    lemma AllBelow()
      requires Valid()
      ensures Repr == {this} + Below(|children|)
    {
    }

    method Store(redact: Redactor, maxBytes: int)
      modifies this
      ensures Finalized(redact, maxBytes)
    {
      if Captured(raw) {
        var p := Payload(raw.callMethod, "", raw.status, raw.statusText, raw.retryAfter, "",
                         Length(raw.request), Length(raw.response), "", "", false);
        if raw.failure != "" {
          p := p.(failure := redact(raw.failure));
        }
        if raw.url != "" {
          p := p.(url := redact(raw.url));
        }
        if maxBytes >= 0 {
          var (request, t1) := CapBody(raw.request, redact, maxBytes);
          var (response, t2) := CapBody(raw.response, redact, maxBytes);
          p := p.(request := request, response := response, truncated := t1 || t2);
        }
        payload := Some(p);
        raw := raw.(request := None, response := None, failure := "", statusText := "");
      }
    }
  }

  /** Finalize a trace that is kept, scrubbing with what is registered: when the registered values are
      safe, no span of it stores one. */
  method FinalizeTrace(root: Span, secrets: SecretSet, maxBytes: int)
    requires root.Valid() && secrets.Valid()
    modifies root.Repr
    ensures forall s :: s in root.Repr && Captured(old(s.raw)) ==>
              s.payload.Some? &&
              (Safe(secrets.values) ==> forall v :: v in secrets.values ==> Clean(s.payload.value, v))
    ensures (forall v :: v in secrets.values ==> Plain(v)) ==>
              forall s, v :: s in root.Repr && Captured(old(s.raw)) && v in secrets.values ==> Clean(s.payload.value, v)
    ensures forall s :: s in root.Repr && !Captured(old(s.raw)) ==> s.payload == old(s.payload)
  {
    hide Makes, Stored, Captured, Clean, Plain;
    var vs := secrets.Ordered();
    assert forall i :: 0 <= i < |vs| ==> vs[i] in vs;
    ghost var order: Ordering := _ => vs;
    ghost var values := secrets.values;
    var redact: Redactor := t => Redacted(vs, t);
    root.Finalize(redact, maxBytes);
    if forall v :: v in values ==> Plain(v) {
      PlainIsSafe(values);
    }
    if Safe(values) {
      forall r: Raw, v | v in values
        ensures Clean(Stored(r, redact, maxBytes), v)
      {
        assert Scrubs(redact, v) by { SameScrubs(values, order, vs, redact, v); }
        StoredIsClean(r, redact, maxBytes, v);
      }
    }
  }

  lemma SameScrubs(values: set<string>, order: Ordering, vs: seq<string>, redact: Redactor, v: string)
    requires Orders(order, values) && "" !in values && Safe(values) && v in values && NoneEmpty(vs)
    requires forall t :: order(t) == vs && redact(t) == Redacted(vs, t)
    ensures Scrubs(redact, v)
  {
    hide Makes, Contains, Redacted;
    RedactingScrubs(values, order, v);
    forall t
      ensures !Contains(redact(t), v)
    {
      assert redact(t) == Redacting(order, values)(t);
    }
  }
}
