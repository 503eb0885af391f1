/** Template matching, used by every query of the Space, the Registry and the EventMgr. */
module Matcher {

  datatype MatchOp = Eq(value: string) | Contains(sub: string) | StartsWith(prefix: string) | Any

  type Attrs = map<string, string>
  type Template = map<string, string>

  predicate HasSubstring(s: string, sub: string) {
    exists i :: 0 <= i <= |s| - |sub| && s[i..][..|sub|] == sub
  }

  predicate OpMatches(op: MatchOp, value: string) {
    match op
    case Eq(v) => value == v
    case Contains(sub) => HasSubstring(value, sub)
    case StartsWith(p) => p <= value
    case Any => true
  }

  const CONTAINS := "contains:"
  const STARTS_WITH := "starts_with:"

  function ParseOp(v: string): MatchOp {
    if v == "" || v == "*" then Any
    else if CONTAINS <= v then Contains(v[|CONTAINS|..])
    else if STARTS_WITH <= v then StartsWith(v[|STARTS_WITH|..])
    else Eq(v)
  }

  /** One template field against the attributes: a missing attribute matches only `Any`. */
  predicate FieldMatches(op: MatchOp, key: string, attrs: Attrs) {
    if key in attrs then OpMatches(op, attrs[key]) else op.Any?
  }

  predicate Matches(template: Template, attrs: Attrs) {
    forall key :: key in template ==> FieldMatches(ParseOp(template[key]), key, attrs)
  }

  // ── What a template asks for, from the strings alone ───────────────────────

  /** The value reads as no operator. */
  predicate IsPlain(v: string) {
    v != "" && v != "*" && !("contains:" <= v) && !("starts_with:" <= v)
  }

  predicate Concat(x: string, p: string, s: string, q: string) {
    x == p + s + q
  }

  ghost predicate AsksForPart(v: string, x: string) {
    exists s, p, q :: Concat(v, "", "contains:", s) && Concat(x, p, s, q)
  }

  ghost predicate AsksForStart(v: string, x: string) {
    exists s, q :: Concat(v, "", "starts_with:", s) && Concat(x, "", s, q)
  }

  /** Template value v is satisfied by the attribute of that key, if there is one. */
  ghost predicate Satisfied(v: string, key: string, attrs: Attrs) {
    || v == "" || v == "*"
    || (&& key in attrs
        && (AsksForPart(v, attrs[key]) || AsksForStart(v, attrs[key]) || (IsPlain(v) && attrs[key] == v)))
  }

  lemma PartExactly(v: string, x: string)
    ensures AsksForPart(v, x) <==> "contains:" <= v && HasSubstring(x, v[9..])
  {
    if s, p, q :| Concat(v, "", "contains:", s) && Concat(x, p, s, q) {
      assert v[9..] == s;
      assert x[|p|..][..|s|] == s;
    }
    if "contains:" <= v && HasSubstring(x, v[9..]) {
      var s := v[9..];
      var i :| 0 <= i <= |x| - |s| && x[i..][..|s|] == s;
      assert Concat(v, "", "contains:", s) && Concat(x, x[..i], s, x[i + |s|..]);
    }
  }

  lemma StartExactly(v: string, x: string)
    ensures AsksForStart(v, x) <==> "starts_with:" <= v && v[12..] <= x
  {
    if s, q :| Concat(v, "", "starts_with:", s) && Concat(x, "", s, q) {
      assert v[12..] == s;
    }
    if "starts_with:" <= v && v[12..] <= x {
      var s := v[12..];
      assert Concat(v, "", "starts_with:", s) && Concat(x, "", s, x[|s|..]);
    }
  }

  lemma FieldExactly(v: string, key: string, attrs: Attrs)
    ensures FieldMatches(ParseOp(v), key, attrs) <==> Satisfied(v, key, attrs)
  {
    hide HasSubstring, AsksForPart, AsksForStart;
    if key in attrs {
      PartExactly(v, attrs[key]);
      StartExactly(v, attrs[key]);
    }
    assert ("contains:" <= v ==> v[0] == 'c') && ("starts_with:" <= v ==> v[0] == 's');
  }

  /** Matching, from the strings alone: an attribute set matches if and only if each template
      value is empty or a star, or the attribute is there and contains what follows
      `contains:`, starts with what follows `starts_with:`, or equals a plain value. */
  lemma MatchesExactly(template: Template, attrs: Attrs)
    ensures Matches(template, attrs) <==> forall key :: key in template ==> Satisfied(template[key], key, attrs)
  {
    hide FieldMatches, ParseOp, Satisfied;
    forall key | key in template
      ensures FieldMatches(ParseOp(template[key]), key, attrs) <==> Satisfied(template[key], key, attrs)
    {
      FieldExactly(template[key], key, attrs);
    }
  }

  /** The template value w accepts the attribute value v and nothing else. */
  ghost predicate Pins(w: string, v: string) {
    forall x :: OpMatches(ParseOp(w), x) <==> x == v
  }

  /** A template can ask for exactly one value v if and only if v does not read as an
      operator itself; there is no way to escape one. */
  lemma PinnableIffPlain(v: string)
    ensures (exists w :: Pins(w, v)) <==> ParseOp(v) == Eq(v)
  {
    if ParseOp(v) == Eq(v) { assert Pins(v, v); }
    forall w | Pins(w, v) ensures ParseOp(v) == Eq(v) {
      var x := AcceptedValue(w, v);
    }
  }

  /** What reads as an operator accepts some other value too. */
  lemma AcceptedValue(w: string, v: string) returns (x: string)
    ensures OpMatches(ParseOp(w), x)
    ensures if ParseOp(w).Eq? then x == w else x != v
  {
    match ParseOp(w)
    case Eq(u) => x := u;
    case Any => x := v + "x";
    case Contains(sub) =>
      x := if sub != v then sub else sub + "x";
      assert x[0..][..|sub|] == sub;
    case StartsWith(sub) =>
      x := if sub != v then sub else sub + "x";
  }
}
