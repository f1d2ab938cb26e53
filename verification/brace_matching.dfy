/** The brace stack of `module_ranges`, and what it means for two braces to match. */
module BraceMatching {
  function Weight(c: char): int { if c == '{' then 1 else if c == '}' then -1 else 0 }

  /** Opening minus closing braces in `s[a..b]`. */
  function Level(s: string, a: nat, b: nat): int
    requires b <= |s|
    decreases b
  {
    if b <= a then 0 else Level(s, a, b - 1) + Weight(s[b - 1])
  }

  /** The text `s[a..b]` closes every brace it opens, and no other. */
  predicate Balanced(s: string, a: nat, b: nat)
    requires b <= |s|
  {
    a <= b && Level(s, a, b) == 0 && forall k :: a <= k <= b ==> Level(s, a, k) >= 0
  }

  /** Declaratively: the brace at `c` closes the one at `o`. */
  predicate Matches(s: string, o: nat, c: nat) {
    o < c < |s| && s[o] == '{' && s[c] == '}' && Balanced(s, o + 1, c)
  }

  lemma {:induction false} LevelSplits(s: string, a: nat, b: nat, c: nat)
    requires a <= b <= c <= |s|
    ensures Level(s, a, c) == Level(s, a, b) + Level(s, b, c)
    decreases c
  {
    if b < c { LevelSplits(s, a, b, c - 1); }
  }

  lemma NeverNegative(s: string, a: nat, b: nat, k: nat)
    requires a <= k <= b <= |s| && Balanced(s, a, b)
    ensures Level(s, a, k) >= 0
  { }

  /** Two matching pairs never cross: they are disjoint or one contains the other. */
  lemma PairsLaminar(s: string, o1: nat, c1: nat, o2: nat, c2: nat)
    requires Matches(s, o1, c1) && Matches(s, o2, c2) && o1 < o2
    ensures c1 < o2 || c2 < c1
  {
    if o2 <= c1 <= c2 {
      NeverNegative(s, o1 + 1, c1, o2);
      NeverNegative(s, o2 + 1, c2, c1);
      LevelSplits(s, o1 + 1, o2, c1);
      LevelSplits(s, o2, o2 + 1, c1);
    }
  }

  /** A brace has at most one partner. */
  lemma PartnerUnique(s: string, o: nat, c1: nat, c2: nat)
    requires Matches(s, o, c1) && Matches(s, o, c2)
    ensures c1 == c2
  {
    if c1 < c2 { NeverNegative(s, o + 1, c2, c1 + 1); }
    else if c2 < c1 { NeverNegative(s, o + 1, c1, c2 + 1); }
  }

  /** The text between open braces on the stack is balanced, down to the reading position `i`. */
  ghost predicate StackOk(s: string, stack: seq<nat>, i: nat)
    requires i <= |s|
  {
    && (forall t :: 0 <= t < |stack| ==> stack[t] < i && s[stack[t]] == '{')
    && (forall t :: 0 <= t < |stack| - 1 ==> Balanced(s, stack[t] + 1, stack[t + 1]))
    && (stack != [] ==> Balanced(s, stack[|stack| - 1] + 1, i))
  }

  /** The dictionary holds exactly the pairs closed before `i`, and every other opening brace is on the stack. */
  ghost predicate PairsOk(s: string, pairs: map<nat, nat>, stack: seq<nat>, i: nat)
    requires i <= |s|
  {
    && (forall o :: o in pairs ==> pairs[o] < i && Matches(s, o, pairs[o]))
    && (forall o: nat :: o < i && s[o] == '{' ==> o in pairs || o in stack)
  }

  ghost predicate AllFound(s: string, pairs: map<nat, nat>, i: nat) {
    forall o: nat, c: nat :: Matches(s, o, c) && c < i ==> o in pairs && pairs[o] == c
  }

  lemma StaysBalanced(s: string, a: nat, i: nat)
    requires i < |s| && Balanced(s, a, i) && Weight(s[i]) == 0
    ensures Balanced(s, a, i + 1)
  { }

  /** Closing the top brace leaves balanced text above the one below. */
  lemma WrapBalanced(s: string, a: nat, o: nat, i: nat)
    requires o < i < |s| && Balanced(s, a, o) && s[o] == '{' && Balanced(s, o + 1, i) && s[i] == '}'
    ensures Balanced(s, a, i + 1)
  {
    forall k | a <= k <= i + 1 ensures Level(s, a, k) >= 0 {
      if k > o {
        LevelSplits(s, a, o, k);
        LevelSplits(s, o, o + 1, k);
        assert k <= i ==> Level(s, o + 1, k) >= 0;
      }
    }
    LevelSplits(s, a, o, i);
    LevelSplits(s, o, o + 1, i);
  }

  /** Only the top of the stack can be closed at `i`. */
  lemma OnlyTopCloses(s: string, stack: seq<nat>, pairs: map<nat, nat>, i: nat, o: nat)
    requires i < |s| && StackOk(s, stack, i) && PairsOk(s, pairs, stack, i) && Matches(s, o, i)
    ensures stack != [] && o == stack[|stack| - 1]
  {
    if o in pairs {
      PartnerUnique(s, o, i, pairs[o]);
    } else {
      var t :| 0 <= t < |stack| && stack[t] == o;
      var top := stack[|stack| - 1];
      if t < |stack| - 1 {
        StackAscends(s, stack, i, t);
        NeverNegative(s, o + 1, i, top);
        LevelSplits(s, o + 1, top, i);
        LevelSplits(s, top, top + 1, i);
      }
    }
  }

  lemma {:induction false} StackAscends(s: string, stack: seq<nat>, i: nat, t: nat)
    requires i <= |s| && StackOk(s, stack, i) && t < |stack| - 1
    ensures stack[t] < stack[|stack| - 1]
    decreases |stack| - t
  {
    if t + 1 < |stack| - 1 { StackAscends(s, stack, i, t + 1); }
  }

  lemma PushStack(s: string, stack: seq<nat>, i: nat)
    requires i < |s| && StackOk(s, stack, i) && s[i] == '{'
    ensures StackOk(s, stack + [i], i + 1)
  {
    var more := stack + [i];
    assert forall t :: 0 <= t < |stack| ==> more[t] == stack[t];
    assert Balanced(s, i + 1, i + 1);
  }

  lemma PushPairs(s: string, stack: seq<nat>, pairs: map<nat, nat>, i: nat)
    requires i < |s| && PairsOk(s, pairs, stack, i) && AllFound(s, pairs, i) && s[i] == '{'
    ensures PairsOk(s, pairs, stack + [i], i + 1) && AllFound(s, pairs, i + 1)
  {
    assert i in stack + [i];
    assert forall o :: o in stack ==> o in stack + [i];
  }

  lemma PopStack(s: string, stack: seq<nat>, i: nat)
    requires i < |s| && StackOk(s, stack, i) && stack != [] && s[i] == '}'
    ensures StackOk(s, stack[..|stack| - 1], i + 1) && Matches(s, stack[|stack| - 1], i)
  {
    var n := |stack| - 1;
    if n > 0 {
      assert Balanced(s, stack[n - 1] + 1, stack[n - 1 + 1]);
      WrapBalanced(s, stack[n - 1] + 1, stack[n], i);
    }
  }

  lemma PopPairs(s: string, stack: seq<nat>, pairs: map<nat, nat>, i: nat)
    requires i < |s| && PairsOk(s, pairs, stack, i) && stack != [] && s[i] == '}'
    requires Matches(s, stack[|stack| - 1], i)
    ensures PairsOk(s, pairs[stack[|stack| - 1] := i], stack[..|stack| - 1], i + 1)
  {
    var n := |stack| - 1;
    forall o | o in stack ensures o == stack[n] || o in stack[..n] { }
  }

  lemma PopFinds(s: string, stack: seq<nat>, pairs: map<nat, nat>, i: nat)
    requires i < |s| && StackOk(s, stack, i) && PairsOk(s, pairs, stack, i) && AllFound(s, pairs, i)
    requires stack != [] && s[i] == '}'
    ensures AllFound(s, pairs[stack[|stack| - 1] := i], i + 1)
  {
    var top := stack[|stack| - 1];
    assert Matches(s, top, i);
    forall o: nat, c: nat | Matches(s, o, c) && c < i + 1
      ensures o in pairs[top := i] && pairs[top := i][o] == c
    {
      if c == i { OnlyTopCloses(s, stack, pairs, i, o); }
      else if o == top { PartnerUnique(s, o, c, i); }
    }
  }

  lemma SkipOk(s: string, stack: seq<nat>, pairs: map<nat, nat>, i: nat)
    requires i < |s| && StackOk(s, stack, i) && PairsOk(s, pairs, stack, i) && AllFound(s, pairs, i)
    requires s[i] != '{' && (s[i] != '}' || stack == [])
    ensures StackOk(s, stack, i + 1) && PairsOk(s, pairs, stack, i + 1) && AllFound(s, pairs, i + 1)
  {
    if stack != [] { StaysBalanced(s, stack[|stack| - 1] + 1, i); }
    forall o: nat | Matches(s, o, i) ensures false { OnlyTopCloses(s, stack, pairs, i, o); }
  }

  /** The stack loop of `module_ranges`: it finds exactly the matching pairs. */
  method BracePairs(s: string) returns (pairs: map<nat, nat>)
    ensures forall o: nat, c: nat :: Matches(s, o, c) <==> o in pairs && pairs[o] == c
  {
    pairs := map[];
    var stack: seq<nat> := [];
    for index := 0 to |s|
      invariant StackOk(s, stack, index) && PairsOk(s, pairs, stack, index) && AllFound(s, pairs, index)
    {
      if s[index] == '{' {
        PushStack(s, stack, index);
        PushPairs(s, stack, pairs, index);
        stack := stack + [index];
      } else if s[index] == '}' && stack != [] {
        PopStack(s, stack, index);
        PopPairs(s, stack, pairs, index);
        PopFinds(s, stack, pairs, index);
        pairs := pairs[stack[|stack| - 1] := index];
        stack := stack[..|stack| - 1];
      } else {
        SkipOk(s, stack, pairs, index);
      }
    }
  }

  // ----- Modules -----

  /** A module header: the position of its opening brace, and its name. */
  datatype Header = Header(brace: nat, name: string)

  datatype Range = Range(open: nat, close: nat, name: string)

  ghost predicate Closed(s: string, open: nat) { exists c: nat :: Matches(s, open, c) }

  /** The headers whose brace is closed, in order. */
  ghost function ClosedHeaders(s: string, headers: seq<Header>): seq<Header>
    decreases |headers|
  {
    if headers == [] then []
    else
      var n := |headers| - 1;
      ClosedHeaders(s, headers[..n]) + if Closed(s, headers[n].brace) then [headers[n]] else []
  }

  predicate IsRangeOf(s: string, r: Range, h: Header) {
    r.open == h.brace && r.name == h.name && Matches(s, r.open, r.close)
  }

  /** One range for each closed header, in the order of the headers. */
  method ClosedRanges(s: string, headers: seq<Header>) returns (ranges: seq<Range>)
    ensures |ranges| == |ClosedHeaders(s, headers)|
    ensures forall k :: 0 <= k < |ranges| ==> IsRangeOf(s, ranges[k], ClosedHeaders(s, headers)[k])
  {
    var pairs := BracePairs(s);
    ranges := [];
    for k := 0 to |headers|
      invariant |ranges| == |ClosedHeaders(s, headers[..k])|
      invariant forall j :: 0 <= j < |ranges| ==> IsRangeOf(s, ranges[j], ClosedHeaders(s, headers[..k])[j])
    {
      assert headers[..k + 1][..k] == headers[..k];
      var h := headers[k];
      if h.brace in pairs {
        assert Matches(s, h.brace, pairs[h.brace]);
        ranges := ranges + [Range(h.brace, pairs[h.brace], h.name)];
      }
    }
    assert headers[..|headers|] == headers;
  }

  predicate Encloses(r: Range, offset: nat) { r.open < offset < r.close }

  /** The modules around any offset form a chain: of two of them, one lies inside the other. */
  lemma EnclosingModulesNest(s: string, a: Range, b: Range, offset: nat)
    requires Matches(s, a.open, a.close) && Matches(s, b.open, b.close)
    requires Encloses(a, offset) && Encloses(b, offset)
    ensures || (a.open == b.open && a.close == b.close)
            || (a.open < b.open && b.close < a.close)
            || (b.open < a.open && a.close < b.close)
  {
    if a.open < b.open { PairsLaminar(s, a.open, a.close, b.open, b.close); }
    else if b.open < a.open { PairsLaminar(s, b.open, b.close, a.open, a.close); }
    else { PartnerUnique(s, a.open, a.close, b.close); }
  }
}
