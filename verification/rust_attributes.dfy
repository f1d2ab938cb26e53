/** Finding `#[ignore = "…"]` attributes in blanked text, with their reasons read from the source. */
module RustAttributes {
  import opened Options
  import opened RustLexer
  import opened RustSearch

  // ----- Ignore attributes -----

  predicate IgnoreAt(r: string, i: nat) {
    && CharAt(r, i, 'i') && CharAt(r, i + 1, 'g') && CharAt(r, i + 2, 'n')
    && CharAt(r, i + 3, 'o') && CharAt(r, i + 4, 'r') && CharAt(r, i + 5, 'e')
  }

  /** The end of a match of `#\s*\[\s*ignore\s*=` at `i`. */
  function IgnoreEnd(r: string, i: nat): Option<nat> {
    var bracket := SkipSpace(r, i + 1);
    var word := SkipSpace(r, bracket + 1);
    var equals := SkipSpace(r, word + 6);
    if CharAt(r, i, '#') && CharAt(r, bracket, '[') && IgnoreAt(r, word) && CharAt(r, equals, '=') then Some(equals + 1)
    else None
  }

  datatype Attribute = Attribute(start: nat, end: nat, reason: string)

  /** The attribute whose `#` is at `i`: found in the blanked text, its reason read from the source. */
  function AttributeAt(source: string, sanitized: string, i: nat): Option<Attribute> {
    var matched := IgnoreEnd(sanitized, i);
    if matched.None? then None else
    var literal := Literal(source, matched.value);
    if literal.None? then None else
    var close := SkipSpace(source, literal.value.1);
    if CharAt(source, close, ']') then Some(Attribute(i, close + 1, literal.value.0)) else None
  }

  /** All attributes that start before `i`, in order. */
  function AttributesBefore(source: string, sanitized: string, i: nat): seq<Attribute> {
    Before(Finder(source, sanitized), i)
  }

  function Finder(source: string, sanitized: string): nat -> Option<Attribute> {
    (k: nat) => AttributeAt(source, sanitized, k)
  }

  /** Matches do not overlap. */
  lemma MatchHasOneHash(r: string, i: nat)
    requires IgnoreEnd(r, i).Some?
    ensures i < IgnoreEnd(r, i).value <= |r|
    ensures forall k :: i < k < IgnoreEnd(r, i).value ==> r[k] != '#'
  {
    var bracket := SkipSpace(r, i + 1);
    var word := SkipSpace(r, bracket + 1);
    SkipSpaceBounds(r, i + 1);
    SkipSpaceBounds(r, bracket + 1);
    SkipSpaceBounds(r, word + 6);
  }

  lemma NoMatchNoAttribute(source: string, sanitized: string, k: nat)
    requires IgnoreEnd(sanitized, k).None?
    ensures Finder(source, sanitized)(k).None?
  { }

  lemma NoneInMatch(source: string, sanitized: string, i: nat, end: nat)
    requires IgnoreEnd(sanitized, i) == Some(end)
    ensures i < end <= |sanitized| && NothingIn(Finder(source, sanitized), i + 1, end)
  {
    MatchHasOneHash(sanitized, i);
    forall k: nat | i + 1 <= k < end ensures Finder(source, sanitized)(k).None? {
      assert !CharAt(sanitized, k, '#');
      NoMatchNoAttribute(source, sanitized, k);
    }
  }

  lemma AttributesSkip(source: string, sanitized: string, i: nat, end: nat)
    requires IgnoreEnd(sanitized, i) == Some(end)
    ensures i < end <= |sanitized|
    ensures AttributesBefore(source, sanitized, end) ==
              AttributesBefore(source, sanitized, i) + Listed(AttributeAt(source, sanitized, i))
  {
    NoneInMatch(source, sanitized, i, end);
    MaySkip(Finder(source, sanitized), i, end);
  }

  lemma NoMatchAddsNothing(source: string, sanitized: string, i: nat)
    requires IgnoreEnd(sanitized, i).None?
    ensures AttributesBefore(source, sanitized, i + 1) == AttributesBefore(source, sanitized, i)
  {
    NoMatchNoAttribute(source, sanitized, i);
    MaySkip(Finder(source, sanitized), i, i + 1);
  }

  /** The rest of an attribute, once its opening was matched. */
  method ReadAttribute(source: string, sanitized: string, start: nat, matchEnd: nat) returns (found: Option<Attribute>)
    requires IgnoreEnd(sanitized, start) == Some(matchEnd)
    ensures found == AttributeAt(source, sanitized, start)
  {
    var literal := ParseRustStringLiteral(source, matchEnd);
    if literal.None? { return None; }
    var close := literal.value.1;
    while close < |source| && IsSpace(source[close])
      invariant SkipSpace(source, close) == SkipSpace(source, literal.value.1)
    {
      close := close + 1;
    }
    if close >= |source| || source[close] != ']' { return None; }
    return Some(Attribute(start, close + 1, literal.value.0));
  }

  method IgnoreAttributes(source: string, sanitized: string) returns (attributes: seq<Attribute>)
    ensures attributes == AttributesBefore(source, sanitized, |sanitized|)
  {
    attributes := [];
    var index := 0;
    while index < |sanitized|
      invariant index <= |sanitized|
      invariant attributes == AttributesBefore(source, sanitized, index)
      decreases |sanitized| - index
    {
      var matched := IgnoreEnd(sanitized, index);
      if matched.None? {
        NoMatchAddsNothing(source, sanitized, index);
        index := index + 1;
      } else {
        AttributesSkip(source, sanitized, index, matched.value);
        var found := ReadAttribute(source, sanitized, index, matched.value);
        attributes := attributes + Listed(found);
        index := matched.value;
      }
    }
  }

  /**
   * An attribute that is found starts outside every comment and literal, and the text of its
   * reason is blank in the blanked text, while the brackets around it are not.
   */
  lemma ReasonIsBlanked(source: string, r: string, i: nat, m: nat, a: Attribute)
    requires r == Sanitize(source) && IgnoreEnd(r, i) == Some(m) && AttributeAt(source, r, i) == Some(a)
    ensures Literal(source, m).Some? && i < m
        && BlankBetween(source, r, SkipSpace(source, m), Literal(source, m).value.1, a.end)
    ensures Kept(source, 0, i) && r[a.end - 1] == ']'
  {
    OpeningKept(source, r, i, m);
    AttributeEnds(source, r, i, m, a);
    ReasonAfter(source, r, m, a.end);
  }

  /** Blank from `o` up to `e`, and kept again just before `end`. */
  predicate BlankBetween(source: string, r: string, o: nat, e: nat, end: nat)
    requires |r| == |source|
  {
    o < e < end <= |source| && Kept(source, 0, end - 1) && forall k :: o <= k < e ==> !Visible(r[k])
  }

  lemma AttributeEnds(source: string, r: string, i: nat, m: nat, a: Attribute)
    requires IgnoreEnd(r, i) == Some(m) && AttributeAt(source, r, i) == Some(a)
    ensures Literal(source, m).Some? && a.end == SkipSpace(source, Literal(source, m).value.1) + 1
    ensures CharAt(source, a.end - 1, ']')
  {
  }

  lemma KeptStays(s: string, k: nat)
    requires k < |s| && Kept(s, 0, k)
    ensures Sanitize(s)[k] == s[k]
  {
  }

  lemma OpeningKept(source: string, r: string, i: nat, m: nat)
    requires r == Sanitize(source) && IgnoreEnd(r, i) == Some(m)
    ensures i < m <= |source| && Kept(source, 0, i) && Kept(source, 0, m - 1)
  {
    MatchHasOneHash(r, i);
    SanitizeAligned(source, i);
    SanitizeAligned(source, m - 1);
  }

  lemma ReasonAfter(source: string, r: string, m: nat, end: nat)
    requires r == Sanitize(source) && 0 < m <= |source| && Kept(source, 0, m - 1) && Literal(source, m).Some?
    requires end == SkipSpace(source, Literal(source, m).value.1) + 1 && CharAt(source, end - 1, ']')
    ensures BlankBetween(source, r, SkipSpace(source, m), Literal(source, m).value.1, end) && r[end - 1] == ']'
  {
    ScannersAgree(source, m - 1);
    TokenThenClose(source, r, SkipSpace(source, m), Literal(source, m).value.1, end);
  }

  lemma TokenThenClose(source: string, r: string, o: nat, e: nat, end: nat)
    requires r == Sanitize(source) && o < e <= |source| && forall k :: o <= k < e ==> !Kept(source, 0, k)
    requires e < |source| ==> (Kept(source, 0, e) <==> TokenEnd(source, e).None?)
    requires end == SkipSpace(source, e) + 1 && CharAt(source, end - 1, ']')
    ensures BlankBetween(source, r, o, e, end) && r[end - 1] == ']'
  {
    TokenIsBlank(source, o, e);
    CloseStays(source, e);
  }

  /** The bracket after a token that the scanner dropped is kept. */
  lemma CloseStays(s: string, e: nat)
    requires e <= |s| && CharAt(s, SkipSpace(s, e), ']')
    requires e < |s| ==> (Kept(s, 0, e) <==> TokenEnd(s, e).None?)
    ensures e <= SkipSpace(s, e) < |s| && Kept(s, 0, SkipSpace(s, e)) && Sanitize(s)[SkipSpace(s, e)] == ']'
  {
    SkipSpaceBounds(s, e);
    CloseKept(s, e);
    KeptStays(s, SkipSpace(s, e));
  }

  lemma TokenIsBlank(source: string, o: nat, e: nat)
    requires o <= e <= |source| && forall k :: o <= k < e ==> !Kept(source, 0, k)
    ensures forall k :: o <= k < e ==> !Visible(Sanitize(source)[k])
  {
    forall k | o <= k < e ensures !Visible(Sanitize(source)[k]) { SanitizeAligned(source, k); }
  }

  lemma {:induction false} CloseKept(s: string, e: nat)
    requires e < |s| && (Kept(s, 0, e) <==> TokenEnd(s, e).None?) && CharAt(s, SkipSpace(s, e), ']')
    ensures e <= SkipSpace(s, e) && Kept(s, 0, SkipSpace(s, e))
    decreases |s| - e
  {
    if IsSpace(s[e]) {
      SkipSpaceBounds(s, e + 1);
      assert TokenEnd(s, e).None?;
      KeptNeighbour(s, 0, e);
      assert TokenEnd(s, e + 1).None?;
      CloseKept(s, e + 1);
    }
  }
}
