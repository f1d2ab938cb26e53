/** The modules of a Rust file: their headers in blanked text, and the ranges of their bodies. */
module RustModules {
  import opened Options
  import opened RustLexer
  import opened RustSearch
  import opened BraceMatching

  // ----- Headers -----

  predicate IsNameStart(c: char) { 'A' <= c <= 'Z' || 'a' <= c <= 'z' || c == '_' }

  predicate IsNameChar(c: char) { IsNameStart(c) || '0' <= c <= '9' }

  function NameEnd(r: string, i: nat): nat
    decreases |r| - i
  {
    if i < |r| && IsNameChar(r[i]) then NameEnd(r, i + 1) else i
  }

  predicate ModAt(r: string, i: nat) { CharAt(r, i, 'm') && CharAt(r, i + 1, 'o') && CharAt(r, i + 2, 'd') }

  /** What the regular expression engine takes for a word character; it decides where a word begins. */
  type WordChars = char -> bool

  function NameAt(r: string, i: nat): nat { SkipSpace(r, i + 3) }

  function BraceAt(r: string, i: nat): nat { SkipSpace(r, NameEnd(r, NameAt(r, i))) }

  predicate IsHeader(word: WordChars, r: string, i: nat) {
    && ModAt(r, i) && (i == 0 || !word(r[i - 1]))
    && i + 3 < NameAt(r, i) < |r| && IsNameStart(r[NameAt(r, i)])
    && CharAt(r, BraceAt(r, i), '{')
  }

  lemma {:induction false} NameEndBounds(r: string, i: nat)
    requires i <= |r|
    ensures i <= NameEnd(r, i) <= |r|
    ensures forall k :: i <= k < NameEnd(r, i) ==> IsNameChar(r[k])
    ensures NameEnd(r, i) < |r| ==> !IsNameChar(r[NameEnd(r, i)])
    decreases |r| - i
  {
    if i < |r| && IsNameChar(r[i]) { NameEndBounds(r, i + 1); }
  }

  /** How a header is laid out: `mod`, blanks, the name, blanks, the brace. */
  lemma HeaderLayout(word: WordChars, r: string, i: nat)
    requires IsHeader(word, r, i)
    ensures var name, end, brace := NameAt(r, i), NameEnd(r, NameAt(r, i)), BraceAt(r, i);
            && i + 3 < name < end <= brace < |r| && r[brace] == '{'
            && (forall k :: i + 3 <= k < name ==> IsSpace(r[k]))
            && (forall k :: name <= k < end ==> IsNameChar(r[k]))
            && (forall k :: end <= k < brace ==> IsSpace(r[k]))
  {
    SkipSpaceBounds(r, i + 3);
    NameEndBounds(r, NameAt(r, i));
    SkipSpaceBounds(r, NameEnd(r, NameAt(r, i)));
  }

  /** A header at `i`: where its brace is, and its name. */
  function HeaderAt(word: WordChars, r: string, i: nat): Option<Header> {
    if !IsHeader(word, r, i) then None
    else
      HeaderLayout(word, r, i);
      Some(Header(BraceAt(r, i), r[NameAt(r, i)..NameEnd(r, NameAt(r, i))]))
  }

  /** No header starts inside another one, so a search may resume after its brace. */
  lemma HeadersDoNotOverlap(word: WordChars, r: string, i: nat, k: nat)
    requires IsHeader(word, r, i) && i < k <= BraceAt(r, i)
    ensures !IsHeader(word, r, k)
  {
    HeaderLayout(word, r, i);
    var end, brace := NameEnd(r, NameAt(r, i)), BraceAt(r, i);
    if ModAt(r, k) {
      assert NameAt(r, i) <= k < end;
      assert k + 3 <= end by { assert IsSpace(r[end]) || r[end] == '{'; }
      if k + 3 < end {
        assert IsNameChar(r[k + 3]) && NameAt(r, k) == k + 3;
      } else {
        assert NameAt(r, k) == brace;
      }
    }
  }

  function HeaderFinder(word: WordChars, r: string): nat -> Option<Header> {
    (k: nat) => HeaderAt(word, r, k)
  }

  /** All headers that start before `i`, in order. */
  function HeadersBefore(word: WordChars, r: string, i: nat): seq<Header> {
    Before(HeaderFinder(word, r), i)
  }

  lemma NoneInHeader(word: WordChars, r: string, i: nat)
    requires IsHeader(word, r, i)
    ensures i < BraceAt(r, i) < |r| && NothingIn(HeaderFinder(word, r), i + 1, BraceAt(r, i) + 1)
  {
    HeaderLayout(word, r, i);
    forall k: nat | i + 1 <= k < BraceAt(r, i) + 1 ensures HeaderFinder(word, r)(k).None? {
      HeadersDoNotOverlap(word, r, i, k);
    }
  }

  lemma HeaderSkips(word: WordChars, r: string, i: nat)
    requires IsHeader(word, r, i)
    ensures i < BraceAt(r, i) < |r|
    ensures HeadersBefore(word, r, BraceAt(r, i) + 1) == HeadersBefore(word, r, i) + [HeaderAt(word, r, i).value]
  {
    NoneInHeader(word, r, i);
    MaySkip(HeaderFinder(word, r), i, BraceAt(r, i) + 1);
  }

  /** The search for module headers, which resumes after each match. */
  method FindHeaders(word: WordChars, r: string) returns (headers: seq<Header>)
    ensures headers == HeadersBefore(word, r, |r|)
  {
    headers := [];
    var index := 0;
    while index < |r|
      invariant index <= |r| && headers == HeadersBefore(word, r, index)
      decreases |r| - index
    {
      var header := HeaderAt(word, r, index);
      if header.Some? {
        HeaderSkips(word, r, index);
        headers, index := headers + [header.value], header.value.brace + 1;
      } else {
        index := index + 1;
      }
    }
  }

  // ----- Ranges -----

  /** The modules of a source file: one range for each header of the blanked text whose brace is closed, in order. */
  method ModuleRanges(word: WordChars, source: string) returns (ranges: seq<Range>)
    ensures var r := Sanitize(source);
            var closed := ClosedHeaders(r, HeadersBefore(word, r, |r|));
            |ranges| == |closed| && forall k :: 0 <= k < |ranges| ==> IsRangeOf(r, ranges[k], closed[k])
  {
    var sanitized := SanitizeRust(source);
    var headers := FindHeaders(word, sanitized);
    ranges := ClosedRanges(sanitized, headers);
  }

  /** A header stands outside every comment and literal, and its name is read as the source has it. */
  lemma HeaderIsCode(word: WordChars, source: string, i: nat)
    requires IsHeader(word, Sanitize(source), i)
    ensures var r := Sanitize(source);
            var name, end := NameAt(r, i), NameEnd(r, NameAt(r, i));
            && Kept(source, 0, i) && Kept(source, 0, BraceAt(r, i)) && source[BraceAt(r, i)] == '{'
            && name <= end <= |source| && source[name..end] == HeaderAt(word, r, i).value.name
            && forall k :: name <= k < end ==> Kept(source, 0, k)
  {
    var r := Sanitize(source);
    HeaderLayout(word, r, i);
    var name, end := NameAt(r, i), NameEnd(r, NameAt(r, i));
    SanitizeAligned(source, i);
    SanitizeAligned(source, BraceAt(r, i));
    forall k | name <= k < end ensures Kept(source, 0, k) && source[k] == r[k] { SanitizeAligned(source, k); }
  }
}
