/**
 * The Rust scanner of the PostgreSQL test discovery check: blanking comments and literals in place,
 * and reading the string literal of an attribute from the text that was not blanked.
 */
module RustLexer {
  import opened Options

  // ----- Tokens -----

  predicate CharAt(s: string, i: nat, c: char) { i < |s| && s[i] == c }

  /** `s.find(c, from)`, with the length of `s` for an absent character. */
  function FindChar(s: string, c: char, from: nat): nat
    decreases |s| - from
  {
    if from >= |s| then |s| else if s[from] == c then from else FindChar(s, c, from + 1)
  }

  /** Where a block comment ends that is open `depth` times at `i`. */
  function BlockEnd(s: string, i: nat, depth: nat): nat
    decreases |s| - i
  {
    if i >= |s| || depth == 0 then i
    else if s[i] == '/' && CharAt(s, i + 1, '*') then BlockEnd(s, i + 2, depth + 1)
    else if s[i] == '*' && CharAt(s, i + 1, '/') then BlockEnd(s, i + 2, depth - 1)
    else BlockEnd(s, i + 1, depth)
  }

  predicate IsHex(c: char) { '0' <= c <= '9' || 'A' <= c <= 'F' || 'a' <= c <= 'f' }

  /** The end of a run of hex digits and underscores. */
  function HexRun(s: string, i: nat): nat
    decreases |s| - i
  {
    if i < |s| && (IsHex(s[i]) || s[i] == '_') then HexRun(s, i + 1) else i
  }

  /** The end of a character literal whose opening quote is just before `i`. */
  function QuoteEnd(s: string, i: nat): Option<nat> {
    if !CharAt(s, i, '\\') then
      if i < |s| && s[i] != '\'' && s[i] != '\n' && CharAt(s, i + 1, '\'') then Some(i + 2) else None
    else if CharAt(s, i + 1, 'u') && CharAt(s, i + 2, '{') && HexRun(s, i + 3) > i + 3
            && CharAt(s, HexRun(s, i + 3), '}') && CharAt(s, HexRun(s, i + 3) + 1, '\'') then
      Some(HexRun(s, i + 3) + 2)
    else if CharAt(s, i + 1, 'x') && i + 3 < |s| && IsHex(s[i + 2]) && IsHex(s[i + 3]) && CharAt(s, i + 4, '\'') then
      Some(i + 5)
    else if i + 1 < |s| && s[i + 1] != '\n' && CharAt(s, i + 2, '\'') then Some(i + 3)
    else None
  }

  /** A character or byte literal at `i`. */
  function CharEnd(s: string, i: nat): Option<nat> {
    if CharAt(s, i, '\'') then QuoteEnd(s, i + 1)
    else if CharAt(s, i, 'b') && CharAt(s, i + 1, '\'') then QuoteEnd(s, i + 2)
    else None
  }

  function HashRun(s: string, i: nat): nat
    decreases |s| - i
  {
    if CharAt(s, i, '#') then HashRun(s, i + 1) else i
  }

  /** A raw string opener at `i`: the number of hashes, and where the content starts. */
  function RawOpen(s: string, i: nat): Option<(nat, nat)> {
    var r := if CharAt(s, i, 'b') then i + 1 else i;
    var q := HashRun(s, r + 1);
    if CharAt(s, r, 'r') && r + 1 <= q <= r + 1 + 255 && CharAt(s, q, '"') then Some((q - (r + 1), q + 1)) else None
  }

  predicate TerminatorAt(s: string, i: nat, hashes: nat) {
    && CharAt(s, i, '"') && i + 1 + hashes <= |s|
    && forall k :: i < k <= i + hashes ==> s[k] == '#'
  }

  function FindTerminator(s: string, hashes: nat, from: nat): Option<nat>
    decreases |s| - from
  {
    if from >= |s| then None
    else if TerminatorAt(s, from, hashes) then Some(from)
    else FindTerminator(s, hashes, from + 1)
  }

  /** The end of a raw string with this opener; an unterminated one runs to the end of the text. */
  function RawEnd(s: string, open: (nat, nat)): nat {
    var t := FindTerminator(s, open.0, open.1);
    if t.Some? then t.value + 1 + open.0 else |s|
  }

  /** The end of an ordinary string whose content starts at `i`; likewise. */
  function StringEnd(s: string, i: nat): nat
    decreases |s| - i
  {
    if i >= |s| then |s|
    else if s[i] == '\\' then StringEnd(s, i + 2)
    else if s[i] == '"' then i + 1
    else StringEnd(s, i + 1)
  }

  /** The end of the comment or literal that the scanner sees at `i`, if any. */
  function TokenEnd(s: string, i: nat): Option<nat>
    requires i < |s|
  {
    if s[i] == '/' && CharAt(s, i + 1, '/') then Some(FindChar(s, '\n', i + 2))
    else if s[i] == '/' && CharAt(s, i + 1, '*') then Some(BlockEnd(s, i + 2, 1))
    else if CharEnd(s, i).Some? then CharEnd(s, i)
    else if RawOpen(s, i).Some? then Some(RawEnd(s, RawOpen(s, i).value))
    else if s[i] == 'b' && CharAt(s, i + 1, '"') then Some(StringEnd(s, i + 2))
    else if s[i] == '"' then Some(StringEnd(s, i + 1))
    else None
  }

  // ----- Bounds -----

  lemma {:induction false} FindCharBounds(s: string, c: char, from: nat)
    requires from <= |s|
    ensures from <= FindChar(s, c, from) <= |s|
    ensures forall k :: from <= k < FindChar(s, c, from) ==> s[k] != c
    decreases |s| - from
  {
    if from < |s| && s[from] != c { FindCharBounds(s, c, from + 1); }
  }

  lemma {:induction false} BlockEndBounds(s: string, i: nat, depth: nat)
    requires i <= |s|
    ensures i <= BlockEnd(s, i, depth) <= |s|
    decreases |s| - i
  {
    if i < |s| && depth > 0 {
      if s[i] == '/' && CharAt(s, i + 1, '*') { BlockEndBounds(s, i + 2, depth + 1); }
      else if s[i] == '*' && CharAt(s, i + 1, '/') { BlockEndBounds(s, i + 2, depth - 1); }
      else { BlockEndBounds(s, i + 1, depth); }
    }
  }

  lemma {:induction false} HexRunBounds(s: string, i: nat)
    requires i <= |s|
    ensures i <= HexRun(s, i) <= |s|
    ensures forall k :: i <= k < HexRun(s, i) ==> IsHex(s[k]) || s[k] == '_'
    decreases |s| - i
  {
    if i < |s| && (IsHex(s[i]) || s[i] == '_') { HexRunBounds(s, i + 1); }
  }

  lemma {:induction false} TerminatorBounds(s: string, hashes: nat, from: nat)
    requires from <= |s|
    ensures var t := FindTerminator(s, hashes, from); t.Some? ==> from <= t.value && t.value + 1 + hashes <= |s|
    decreases |s| - from
  {
    if from < |s| && !TerminatorAt(s, from, hashes) { TerminatorBounds(s, hashes, from + 1); }
  }

  lemma {:induction false} StringEndBounds(s: string, i: nat)
    ensures StringEnd(s, i) <= |s| && (i <= |s| ==> i <= StringEnd(s, i))
    ensures i < |s| ==> i < StringEnd(s, i)
    decreases |s| - i
  {
    if i < |s| && s[i] == '\\' { StringEndBounds(s, i + 2); }
    else if i < |s| && s[i] != '"' { StringEndBounds(s, i + 1); }
  }

  lemma CharEndBounds(s: string, i: nat)
    requires CharEnd(s, i).Some?
    ensures i + 3 <= CharEnd(s, i).value <= |s|
    ensures forall k :: i <= k < CharEnd(s, i).value ==> s[k] != '\n'
  {
    var q := if s[i] == '\'' then i + 1 else i + 2;
    if q + 3 <= |s| { HexRunBounds(s, q + 3); }
  }

  /** Tokens advance the scanner and stay inside the text; a token of one character ends the text. */
  lemma TokenBounds(s: string, i: nat)
    requires i < |s| && TokenEnd(s, i).Some?
    ensures i < TokenEnd(s, i).value <= |s|
    ensures TokenEnd(s, i).value == i + 1 ==> i + 1 == |s|
  {
    if s[i] == '/' && CharAt(s, i + 1, '/') {
      FindCharBounds(s, '\n', i + 2);
    } else if s[i] == '/' && CharAt(s, i + 1, '*') {
      BlockEndBounds(s, i + 2, 1);
    } else if CharEnd(s, i).Some? {
      CharEndBounds(s, i);
    } else if RawOpen(s, i).Some? {
      var open := RawOpen(s, i).value;
      TerminatorBounds(s, open.0, open.1);
    } else if s[i] == 'b' && CharAt(s, i + 1, '"') {
      StringEndBounds(s, i + 2);
    } else {
      StringEndBounds(s, i + 1);
    }
  }

  // ----- The blanked text -----

  function BlankChar(c: char): char { if c == '\n' then '\n' else ' ' }

  /** Where the scanner goes from `i`. */
  function Next(s: string, i: nat): (n: nat)
    requires i < |s|
    ensures i < n <= |s|
  {
    if TokenEnd(s, i).Some? then TokenBounds(s, i); TokenEnd(s, i).value else i + 1
  }

  /** Whether the scanner, standing at `i`, later stops at `k` and keeps the character there. */
  predicate Kept(s: string, i: nat, k: nat)
    decreases |s| - i
  {
    i < |s| && i <= k && (if k < Next(s, i) then TokenEnd(s, i).None? else Kept(s, Next(s, i), k))
  }

  /** Every character is kept or blanked; newlines survive either way. */
  function Sanitize(s: string): (r: string)
    ensures |r| == |s|
  {
    seq(|s|, k requires 0 <= k < |s| => if Kept(s, 0, k) then s[k] else BlankChar(s[k]))
  }

  // ----- What blanking preserves -----

  lemma {:induction false} KeptIsBare(s: string, i: nat, k: nat)
    requires Kept(s, i, k)
    ensures k < |s| && TokenEnd(s, k).None?
    decreases |s| - i
  {
    if k >= Next(s, i) { KeptIsBare(s, Next(s, i), k); }
  }

  /** After a kept character the scanner looks at the very next one: it keeps that one, or drops a whole token. */
  lemma {:induction false} KeptNeighbour(s: string, i: nat, k: nat)
    requires Kept(s, i, k) && k + 1 < |s|
    ensures TokenEnd(s, k + 1).None? ==> Kept(s, i, k + 1)
    ensures TokenEnd(s, k + 1).Some? ==> forall m :: k + 1 <= m < TokenEnd(s, k + 1).value ==> !Kept(s, i, m)
    decreases |s| - i
  {
    if k >= Next(s, i) { KeptNeighbour(s, Next(s, i), k); }
    else { TokenNext(s, k + 1); }
  }

  lemma TokenNext(s: string, i: nat)
    requires i < |s|
    ensures TokenEnd(s, i).None? ==> Kept(s, i, i)
    ensures TokenEnd(s, i).Some? ==> forall m :: i <= m < TokenEnd(s, i).value ==> !Kept(s, i, m)
  { }

  /** A visible character of the blanked text was kept. */
  predicate Visible(c: char) { c != ' ' && c != '\n' }

  /**
   * Length and newlines survive, and characters only ever turn into blanks: offsets stay aligned
   * with the source.
   */
  lemma SanitizeAligned(s: string, k: nat)
    requires k < |s|
    ensures var r := Sanitize(s);
            && (r[k] == s[k] || r[k] == ' ')
            && (r[k] == '\n' <==> s[k] == '\n')
            && (Visible(r[k]) ==> Kept(s, 0, k) && r[k] == s[k])
  { }

  /** A character between two kept ones, when the second is visible, was kept too. */
  lemma BetweenKept(s: string, q: nat)
    requires 0 < q < |s| - 1 && Kept(s, 0, q - 1) && Visible(Sanitize(s)[q + 1])
    ensures Sanitize(s)[q] == s[q]
  {
    KeptNeighbour(s, 0, q - 1);
    SanitizeAligned(s, q + 1);
    if TokenEnd(s, q).Some? {
      TokenBounds(s, q);
    }
  }

  lemma {:induction false} HexRunLocal(s: string, t: string, i: nat)
    requires |s| == |t| && i <= |t| && forall k :: i <= k <= HexRun(t, i) && k < |t| ==> s[k] == t[k]
    ensures HexRun(s, i) == HexRun(t, i)
    decreases |t| - i
  {
    if i < |t| && (IsHex(t[i]) || t[i] == '_') {
      HexRunBounds(t, i + 1);
      HexRunLocal(s, t, i + 1);
    }
  }

  /** Whether a text matches a character literal depends on the characters of the literal alone. */
  lemma QuoteEndLocal(s: string, t: string, i: nat)
    requires |s| == |t| && QuoteEnd(t, i).Some?
    requires forall k :: i <= k < QuoteEnd(t, i).value && k < |t| ==> s[k] == t[k]
    ensures QuoteEnd(s, i).Some?
  {
    if i + 3 <= |t| {
      HexRunBounds(t, i + 3);
      if QuoteEnd(t, i).value == HexRun(t, i + 3) + 2 && CharAt(t, i + 1, 'u') { HexRunLocal(s, t, i + 3); }
    }
  }

  /** In the blanked text the body of a would-be character literal is untouched source. */
  lemma QuoteBodyKept(s: string, i: nat)
    requires 0 < i && QuoteEnd(Sanitize(s), i).Some? && Kept(s, 0, i - 1)
    ensures forall k :: i <= k < QuoteEnd(Sanitize(s), i).value && k < |s| ==> Sanitize(s)[k] == s[k]
  {
    var r := Sanitize(s);
    if !CharAt(r, i, '\\') { BetweenKept(s, i); }
    else if QuoteEnd(r, i).value == i + 3 {
      SanitizeAligned(s, i);
      BetweenKept(s, i + 1);
    }
    forall k | i <= k < QuoteEnd(r, i).value && k < |s| ensures r[k] == s[k] {
      QuoteBodyVisible(r, i, k);
      SanitizeAligned(s, k);
    }
  }

  /** All of a character literal is visible, but perhaps the one character it denotes. */
  lemma QuoteBodyVisible(r: string, i: nat, k: nat)
    requires QuoteEnd(r, i).Some? && i <= k < QuoteEnd(r, i).value
    ensures k < |r|
    ensures || Visible(r[k])
            || (k == i && !CharAt(r, i, '\\'))
            || (k == i + 1 && CharAt(r, i, '\\') && QuoteEnd(r, i).value == i + 3)
  {
    if i + 3 <= |r| { HexRunBounds(r, i + 3); }
  }

  lemma NoQuoteMark(s: string, k: nat)
    requires k < |s|
    ensures Sanitize(s)[k] != '"'
  {
    SanitizeAligned(s, k);
    if Sanitize(s)[k] == '"' { KeptIsBare(s, 0, k); }
  }

  lemma NoCharLiteral(s: string, p: nat)
    requires p < |s|
    ensures CharEnd(Sanitize(s), p).None?
  {
    var r := Sanitize(s);
    if CharEnd(r, p).Some? {
      SanitizeAligned(s, p);
      KeptIsBare(s, 0, p);
      var q := if r[p] == '\'' then p + 1 else p + 2;
      SanitizeAligned(s, q - 1);
      QuoteBodyKept(s, q);
      QuoteEndLocal(s, r, q);
      assert false;
    }
  }

  /** The blanked text holds no opener of a comment or literal anywhere, for every input. */
  lemma NothingLeftToBlank(s: string, p: nat)
    requires p < |s|
    ensures TokenEnd(Sanitize(s), p).None?
  {
    var r := Sanitize(s);
    SanitizeAligned(s, p);
    NoCharLiteral(s, p);
    NoQuoteMark(s, p);
    if p + 1 < |s| { SanitizeAligned(s, p + 1); NoQuoteMark(s, p + 1); }
    if RawOpen(r, p).Some? { NoQuoteMark(s, RawOpen(r, p).value.1 - 1); }
    if TokenEnd(r, p).Some? { KeptIsBare(s, 0, p); }
  }

  lemma {:induction false} BareIsKept(s: string, i: nat, k: nat)
    requires i <= k < |s| && forall p :: 0 <= p < |s| ==> TokenEnd(s, p).None?
    ensures Kept(s, i, k)
    decreases k - i
  {
    if i < k { BareIsKept(s, i + 1, k); }
  }

  /** Blanking a second time changes nothing. */
  lemma SanitizeIdempotent(s: string)
    ensures Sanitize(Sanitize(s)) == Sanitize(s)
  {
    var r := Sanitize(s);
    forall p | 0 <= p < |r| ensures TokenEnd(r, p).None? { NothingLeftToBlank(s, p); }
    forall k | 0 <= k < |r| ensures Sanitize(r)[k] == r[k] { BareIsKept(r, 0, k); }
  }

  // ----- The scanner itself -----

  /** The text while the scanner stands at `i`: everything before is settled, everything after is source. */
  ghost predicate Progress(chars: seq<char>, s: string, i: nat) {
    && |chars| == |s|
    && (forall k :: 0 <= k < i && k < |s| ==> chars[k] == Sanitize(s)[k])
    && (forall k :: i <= k < |s| ==> chars[k] == s[k])
  }

  /** The scanner has not yet decided anything from `i` on. */
  predicate StandsAt(s: string, i: nat) {
    forall k :: i <= k < |s| ==> (Kept(s, 0, k) <==> Kept(s, i, k))
  }

  /** Blank a span; only spans that may hold newlines are blanked around them. */
  method BlankRange(chars: array<char>, from: nat, to: nat, mayHoldNewlines: bool)
    requires from <= to <= chars.Length
    requires !mayHoldNewlines ==> forall k :: from <= k < to ==> chars[k] != '\n'
    modifies chars
    ensures forall k :: 0 <= k < chars.Length ==>
        chars[k] == if from <= k < to then BlankChar(old(chars[k])) else old(chars[k])
  {
    for offset := from to to
      invariant forall k :: 0 <= k < chars.Length ==>
          chars[k] == if from <= k < offset then BlankChar(old(chars[k])) else old(chars[k])
    {
      if !mayHoldNewlines || chars[offset] != '\n' { chars[offset] := ' '; }
    }
  }

  /** The nested block comment loop. */
  method SkipBlock(s: string, start: nat) returns (index: nat)
    requires start + 2 <= |s|
    ensures index == BlockEnd(s, start + 2, 1)
  {
    var depth := 1;
    index := start + 2;
    while index < |s| && depth > 0
      invariant index <= |s|
      invariant BlockEnd(s, index, depth) == BlockEnd(s, start + 2, 1)
    {
      if s[index] == '/' && CharAt(s, index + 1, '*') { depth, index := depth + 1, index + 2; }
      else if s[index] == '*' && CharAt(s, index + 1, '/') { depth, index := depth - 1, index + 2; }
      else { index := index + 1; }
    }
  }

  /** The ordinary string loop; an escape at the very end may step past the text. */
  method SkipString(s: string, content: nat) returns (index: nat)
    requires content <= |s|
    ensures StringEnd(s, content) == if index < |s| then index else |s|
  {
    index := content;
    while index < |s|
      invariant StringEnd(s, index) == StringEnd(s, content)
    {
      if s[index] == '\\' { index := index + 2; }
      else if s[index] == '"' { index := index + 1; return; }
      else { index := index + 1; }
    }
  }

  lemma KeepAdvances(s: string, i: nat)
    requires i < |s| && StandsAt(s, i)
    ensures StandsAt(s, Next(s, i))
    ensures forall k :: i <= k < Next(s, i) ==> Sanitize(s)[k] == if TokenEnd(s, i).Some? then BlankChar(s[k]) else s[k]
  { }

  /** The span of the token at `start`, empty if there is none. */
  method ScanToken(source: string, start: nat) returns (end: nat, mayHoldNewlines: bool)
    requires start < |source|
    ensures end == if TokenEnd(source, start).Some? then TokenEnd(source, start).value else start
    ensures start <= end <= |source|
    ensures !mayHoldNewlines ==> forall k :: start <= k < end ==> source[k] != '\n'
  {
    end, mayHoldNewlines := start, true;
    if TokenEnd(source, start).Some? { TokenBounds(source, start); }
    if source[start] == '/' && CharAt(source, start + 1, '/') {
      FindCharBounds(source, '\n', start + 2);
      end, mayHoldNewlines := FindChar(source, '\n', start + 2), false;
    } else if source[start] == '/' && CharAt(source, start + 1, '*') {
      end := SkipBlock(source, start);
    } else if CharEnd(source, start).Some? {
      CharEndBounds(source, start);
      end, mayHoldNewlines := CharEnd(source, start).value, false;
    } else if RawOpen(source, start).Some? {
      var open := RawOpen(source, start).value;
      var terminator := FindTerminator(source, open.0, open.1);
      end := if terminator.Some? then terminator.value + 1 + open.0 else |source|;
    } else {
      var quote := if source[start] == 'b' && CharAt(source, start + 1, '"') then start + 1 else start;
      if source[quote] == '"' {
        end := SkipString(source, quote + 1);
        if end > |source| { end := |source|; }
      }
    }
  }

  /** Blank comments and literals in place, in one pass over the text. */
  method SanitizeRust(source: string) returns (text: string)
    ensures text == Sanitize(source)
  {
    var chars := new char[|source|](k requires 0 <= k < |source| => source[k]);
    var index := 0;
    while index < |source|
      invariant index <= |source| && StandsAt(source, index)
      invariant Progress(chars[..], source, index)
      decreases |source| - index
    {
      KeepAdvances(source, index);
      var end, mayHoldNewlines := ScanToken(source, index);
      if end > index {
        BlankRange(chars, index, end, mayHoldNewlines);
        index := end;
      } else {
        index := index + 1;
      }
    }
    text := chars[..];
  }

  // ----- Reading a literal from the source -----

  /** Python's `str.isspace` on one character. */
  predicate IsSpace(c: char) {
    || '\t' <= c <= '\r' || '\U{1c}' <= c <= ' ' || c == '\U{85}' || c == '\U{a0}' || c == '\U{1680}'
    || '\U{2000}' <= c <= '\U{200a}' || c == '\U{2028}' || c == '\U{2029}' || c == '\U{202f}' || c == '\U{205f}'
    || c == '\U{3000}'
  }

  function SkipSpace(s: string, i: nat): nat
    decreases |s| - i
  {
    if i < |s| && IsSpace(s[i]) then SkipSpace(s, i + 1) else i
  }

  lemma {:induction false} SkipSpaceBounds(s: string, i: nat)
    requires i <= |s|
    ensures i <= SkipSpace(s, i) <= |s|
    ensures forall k :: i <= k < SkipSpace(s, i) ==> IsSpace(s[k])
    decreases |s| - i
  {
    if i < |s| && IsSpace(s[i]) { SkipSpaceBounds(s, i + 1); }
  }

  /** The unescaped content and the end of an ordinary string whose content starts at `i`. */
  function StringBody(s: string, i: nat): Option<(string, nat)>
    decreases |s| - i
  {
    if i >= |s| then None
    else if s[i] == '"' then Some(("", i + 1))
    else if s[i] == '\\' && i + 1 >= |s| then None
    else
      var (c, n) := if s[i] == '\\' then (s[i + 1], i + 2) else (s[i], i + 1);
      var rest := StringBody(s, n);
      if rest.None? then None else Some(([c] + rest.value.0, rest.value.1))
  }

  /** The first literal after any blanks from `start`, ordinary or raw: its content and its end. */
  function Literal(s: string, start: nat): Option<(string, nat)> {
    var i := SkipSpace(s, start);
    if RawOpen(s, i).Some? then
      var open := RawOpen(s, i).value;
      var t := FindTerminator(s, open.0, open.1);
      if t.None? then None else TerminatorBounds(s, open.0, open.1); Some((s[open.1..t.value], t.value + 1 + open.0))
    else if CharAt(s, i, '"') then StringBody(s, i + 1)
    else None
  }

  method ParseRustStringLiteral(s: string, start: nat) returns (literal: Option<(string, nat)>)
    ensures literal == Literal(s, start)
  {
    var index := start;
    while index < |s| && IsSpace(s[index])
      invariant SkipSpace(s, index) == SkipSpace(s, start)
    {
      index := index + 1;
    }
    var raw := RawOpen(s, index);
    if raw.Some? {
      var open := raw.value;
      var t := FindTerminator(s, open.0, open.1);
      if t.None? { return None; }
      TerminatorBounds(s, open.0, open.1);
      return Some((s[open.1..t.value], t.value + 1 + open.0));
    }
    if !CharAt(s, index, '"') { return None; }
    literal := ReadString(s, index + 1);
  }

  method ReadString(s: string, first: nat) returns (literal: Option<(string, nat)>)
    ensures literal == StringBody(s, first)
  {
    var index, content := first, "";
    PrefixedNothing(StringBody(s, first));
    while index < |s|
      invariant Prefixed(content, StringBody(s, index)) == StringBody(s, first)
    {
      if s[index] == '\\' {
        if index + 1 >= |s| { return None; }
        PrefixedMore(content, s[index + 1], StringBody(s, index + 2));
        content, index := content + [s[index + 1]], index + 2;
      } else if s[index] == '"' {
        assert content + "" == content;
        return Some((content, index + 1));
      } else {
        PrefixedMore(content, s[index], StringBody(s, index + 1));
        content, index := content + [s[index]], index + 1;
      }
    }
    return None;
  }

  function Prefixed(content: string, rest: Option<(string, nat)>): Option<(string, nat)> {
    if rest.None? then None else Some((content + rest.value.0, rest.value.1))
  }

  lemma PrefixedNothing(rest: Option<(string, nat)>)
    ensures Prefixed("", rest) == rest
  {
    if rest.Some? { assert "" + rest.value.0 == rest.value.0; }
  }

  lemma PrefixedMore(content: string, c: char, rest: Option<(string, nat)>)
    ensures Prefixed(content + [c], rest) == Prefixed(content, Prefixed([c], rest))
  {
    if rest.Some? { assert (content + [c]) + rest.value.0 == content + ([c] + rest.value.0); }
  }

  // ----- The two scanners agree -----

  lemma {:induction false} StringBodyEnds(s: string, i: nat)
    requires StringBody(s, i).Some?
    ensures StringEnd(s, i) == StringBody(s, i).value.1
    decreases |s| - i
  {
    if s[i] == '\\' { StringBodyEnds(s, i + 2); }
    else if s[i] != '"' { StringBodyEnds(s, i + 1); }
  }

  lemma LiteralIsToken(s: string, start: nat)
    requires Literal(s, start).Some?
    ensures var o := SkipSpace(s, start);
            o < |s| && TokenEnd(s, o) == Some(Literal(s, start).value.1) && o < TokenEnd(s, o).value <= |s|
  {
    var o := SkipSpace(s, start);
    if RawOpen(s, o).None? { StringBodyEnds(s, o + 1); }
    TokenBounds(s, o);
  }

  lemma {:induction false} SpacesKept(s: string, p: nat)
    requires Kept(s, 0, p) && p < |s|
    ensures p < SkipSpace(s, p + 1)
    ensures forall k :: p < k < SkipSpace(s, p + 1) ==> Kept(s, 0, k)
    decreases |s| - p
  {
    if p + 1 < |s| && IsSpace(s[p + 1]) {
      KeptNeighbour(s, 0, p);
      SpacesKept(s, p + 1);
    }
  }

  /** The scanner, standing at `i`, comes to stand at `k`. */
  predicate Reaches(s: string, i: nat, k: nat)
    decreases |s| - i
  {
    i == k || (i < k && i < |s| && Reaches(s, Next(s, i), k))
  }

  /** Where the scanner stands, the rest of the text is decided from there. */
  lemma {:induction false} ReachesDecides(s: string, i: nat, k: nat, m: nat)
    requires Reaches(s, i, k) && k <= m
    ensures Kept(s, i, m) <==> Kept(s, k, m)
    decreases |s| - i
  {
    if i < k {
      ReachesBeyond(s, Next(s, i), k);
      ReachesDecides(s, Next(s, i), k, m);
    }
  }

  lemma ReachesBeyond(s: string, i: nat, k: nat)
    requires Reaches(s, i, k)
    ensures i <= k
  { }

  lemma {:induction false} ReachesOn(s: string, i: nat, k: nat)
    requires Reaches(s, i, k) && k < |s|
    ensures Reaches(s, i, Next(s, k))
    decreases |s| - i
  {
    if i < k {
      ReachesBeyond(s, Next(s, i), k);
      ReachesOn(s, Next(s, i), k);
    }
  }

  /**
   * A literal whose opener the blanking scanner reaches is exactly one of its tokens: the span is
   * blanked to the last character, and the scanner resumes at the end that the second scanner found.
   */
  lemma ReachedLiteralIsBlanked(s: string, start: nat)
    requires Literal(s, start).Some? && Reaches(s, 0, SkipSpace(s, start))
    ensures var o, e := SkipSpace(s, start), Literal(s, start).value.1;
            && o < e <= |s| && TokenEnd(s, o) == Some(e)
            && (forall k :: o <= k < e ==> !Kept(s, 0, k) && Sanitize(s)[k] == BlankChar(s[k]))
            && Reaches(s, 0, e)
            && (e < |s| ==> (Kept(s, 0, e) <==> TokenEnd(s, e).None?))
  {
    LiteralIsToken(s, start);
    var o, e := SkipSpace(s, start), Literal(s, start).value.1;
    ReachesOn(s, 0, o);
    TokenNext(s, o);
    forall k | o <= k < e ensures !Kept(s, 0, k) { ReachesDecides(s, 0, o, k); }
    if e < |s| {
      ReachesDecides(s, 0, e, e);
      TokenNext(s, e);
    }
  }

  /** A kept character is a place the scanner reaches, and so is the one after it. */
  lemma {:induction false} KeptIsReached(s: string, i: nat, k: nat)
    requires Kept(s, i, k)
    ensures Reaches(s, i, k) && Reaches(s, i, k + 1)
    decreases |s| - i
  {
    if k >= Next(s, i) { KeptIsReached(s, Next(s, i), k); }
  }

  /** In particular a literal read after a kept character, as attributes are; the blanks up to it are kept. */
  lemma ScannersAgree(s: string, p: nat)
    requires p < |s| && Kept(s, 0, p) && Literal(s, p + 1).Some?
    ensures var o, e := SkipSpace(s, p + 1), Literal(s, p + 1).value.1;
            && p < o < e <= |s| && TokenEnd(s, o) == Some(e)
            && (forall k :: p < k < o ==> Kept(s, 0, k))
            && (forall k :: o <= k < e ==> !Kept(s, 0, k))
            && (e < |s| ==> (Kept(s, 0, e) <==> TokenEnd(s, e).None?))
  {
    SpacesKept(s, p);
    KeptIsReached(s, 0, SkipSpace(s, p + 1) - 1);
    ReachedLiteralIsBlanked(s, p + 1);
  }
}
