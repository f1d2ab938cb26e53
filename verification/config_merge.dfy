/** The layered `CODEX_CONFIG` merge: what the merged object holds at every path. */
module ConfigMerge {
  import opened Options
  import opened Json

  type Fields = map<string, Value>

  // ----- The recursive merge -----

  /** `overlay` merged into `base`: objects merge key by key, anything else is replaced. */
  function Merge(base: Fields, overlay: Fields): Fields
    decreases Obj(overlay)
  {
    map k | k in base.Keys + overlay.Keys ::
      if k !in overlay then base[k]
      else if k in base && base[k].Obj? && overlay[k].Obj? then Obj(Merge(base[k].fields, overlay[k].fields))
      else overlay[k]
  }

  /** The in-place merge: one pass over the overlay's keys, in any order. */
  method DeepMerge(base: Fields, overlay: Fields) returns (merged: Fields)
    ensures merged == Merge(base, overlay)
    decreases Obj(overlay)
  {
    merged := base;
    var todo := overlay.Keys;
    while todo != {}
      invariant todo <= overlay.Keys
      invariant merged.Keys == base.Keys + (overlay.Keys - todo)
      invariant forall k :: k in merged ==>
          merged[k] == if k in overlay.Keys - todo then Merge(base, overlay)[k] else base[k]
      decreases todo
    {
      var k :| k in todo;
      if k in merged && merged[k].Obj? && overlay[k].Obj? {
        var inner := DeepMerge(merged[k].fields, overlay[k].fields);
        merged := merged[k := Obj(inner)];
      } else {
        merged := merged[k := overlay[k]];
      }
      todo := todo - {k};
    }
  }

  // ----- Path by path -----

  /** The value at a path of keys, if every key on the way leads through an object. */
  function Lookup(v: Value, path: seq<string>): Option<Value>
    decreases |path|
  {
    if path == [] then Some(v)
    else if v.Obj? && path[0] in v.fields then Lookup(v.fields[path[0]], path[1..])
    else None
  }

  lemma LookupTwo(v: Value, k: string, x: string)
    ensures Lookup(v, [k, x]) == if v.Obj? && k in v.fields then Get(v.fields[k], x) else None
  {
    assert [k, x][1..] == [x];
    if v.Obj? && k in v.fields && v.fields[k].Obj? && x in v.fields[k].fields {
      assert Lookup(v.fields[k].fields[x], [x][1..]) == Some(v.fields[k].fields[x]);
    }
  }

  /** `v` has something other than an object at a proper prefix of the path. */
  predicate Blocks(v: Value, path: seq<string>)
    decreases |path|
  {
    path != [] && (!v.Obj? || (path[0] in v.fields && Blocks(v.fields[path[0]], path[1..])))
  }

  function Layered(below: Option<Value>, above: Value): Value {
    if below.Some? && below.value.Obj? && above.Obj? then Obj(Merge(below.value.fields, above.fields)) else above
  }

  /**
   * What a merge holds at any path. Where the overlay has a value, that value wins, merged with an
   * object below it; where a leaf of the overlay cuts the path off, nothing; elsewhere, the base.
   */
  lemma {:induction false} MergeAt(base: Fields, overlay: Fields, path: seq<string>)
    ensures var above, below := Lookup(Obj(overlay), path), Lookup(Obj(base), path);
            Lookup(Obj(Merge(base, overlay)), path) ==
              if above.Some? then Some(Layered(below, above.value))
              else if Blocks(Obj(overlay), path) then None
              else below
    decreases |path|
  {
    if path != [] {
      var k := path[0];
      if k in base && k in overlay && base[k].Obj? && overlay[k].Obj? {
        MergeAt(base[k].fields, overlay[k].fields, path[1..]);
      }
    }
  }

  /** Every overlay value that is not an object appears unchanged. */
  lemma OverlayLeafWins(base: Fields, overlay: Fields, path: seq<string>)
    requires Lookup(Obj(overlay), path).Some? && !Lookup(Obj(overlay), path).value.Obj?
    ensures Lookup(Obj(Merge(base, overlay)), path) == Lookup(Obj(overlay), path)
  {
    MergeAt(base, overlay, path);
  }

  /** A base leaf survives exactly when the overlay neither cuts its path off nor holds a different value there. */
  lemma BaseLeafSurvivesIff(base: Fields, overlay: Fields, path: seq<string>)
    requires Lookup(Obj(base), path).Some? && !Lookup(Obj(base), path).value.Obj?
    ensures Lookup(Obj(Merge(base, overlay)), path) == Lookup(Obj(base), path) <==>
            !Blocks(Obj(overlay), path)
                && (Lookup(Obj(overlay), path).None? || Lookup(Obj(overlay), path) == Lookup(Obj(base), path))
  {
    MergeAt(base, overlay, path);
    if Blocks(Obj(overlay), path) { BlockedHidden(Obj(overlay), path); }
  }

  lemma {:induction false} BlockedHidden(v: Value, path: seq<string>)
    requires Blocks(v, path)
    ensures Lookup(v, path).None?
    decreases |path|
  {
    if v.Obj? { BlockedHidden(v.fields[path[0]], path[1..]); }
  }

  /** Merging is not associative: a leaf in the middle layer hides the first layer from the left fold only. */
  lemma MergeNotAssociative(k: string, x: string, y: string, n: int)
    requires x != y
    ensures var a, b, c: Fields := map[k := Obj(map[x := Null])], map[k := Int(n)], map[k := Obj(map[y := Null])];
            Lookup(Obj(Merge(Merge(a, b), c)), [k, x]) == None
                && Lookup(Obj(Merge(a, Merge(b, c))), [k, x]) == Some(Null)
  {
    var a, b, c: Fields := map[k := Obj(map[x := Null])], map[k := Int(n)], map[k := Obj(map[y := Null])];
    assert Merge(a, b)[k] == Int(n) && Merge(b, c)[k] == c[k] && Merge(Merge(a, b), c)[k] == c[k];
    assert Merge(a, Merge(b, c))[k] == Obj(Merge(map[x := Null], map[y := Null]));
    LookupTwo(Obj(Merge(Merge(a, b), c)), k, x);
    LookupTwo(Obj(Merge(a, Merge(b, c))), k, x);
  }

  /** Merging `a` below `c` adds nothing: every key of `a` is in `c`, at every level where both have objects. */
  predicate Absorbs(c: Fields, a: Fields)
    decreases Obj(c)
  {
    forall k :: k in a ==> k in c && (a[k].Obj? && c[k].Obj? ==> Absorbs(c[k].fields, a[k].fields))
  }

  lemma {:induction false} AbsorbsIff(a: Fields, c: Fields)
    ensures Merge(a, c) == c <==> Absorbs(c, a)
    decreases Obj(c)
  {
    forall k | k in a && k in c && a[k].Obj? && c[k].Obj?
      ensures Merge(a[k].fields, c[k].fields) == c[k].fields <==> Absorbs(c[k].fields, a[k].fields)
    {
      AbsorbsIff(a[k].fields, c[k].fields);
    }
    if Merge(a, c) == c {
      forall k | k in a ensures k in c && (a[k].Obj? && c[k].Obj? ==> Absorbs(c[k].fields, a[k].fields)) {
        assert k in Merge(a, c);
      }
    }
  }

  /** A middle value that is no object may stand between two objects only if the upper one absorbs the lower. */
  predicate AssociatesAt(a: Value, b: Value, c: Value)
    decreases c, 1
  {
    a.Obj? && c.Obj? ==> if b.Obj? then Associates(a.fields, b.fields, c.fields) else Absorbs(c.fields, a.fields)
  }

  /** Three layers associate when they do so under every key that all of them have. */
  predicate Associates(a: Fields, b: Fields, c: Fields)
    decreases Obj(c), 0
  {
    forall k :: k in a && k in b && k in c ==> AssociatesAt(a[k], b[k], c[k])
  }

  lemma GroupedAt(a: Fields, b: Fields, c: Fields, k: string)
    requires k in a && k in b && k in c
    ensures Merge(Merge(a, b), c)[k] == Layered(Some(Layered(Some(a[k]), b[k])), c[k])
    ensures Merge(a, Merge(b, c))[k] == Layered(Some(a[k]), Layered(Some(b[k]), c[k]))
  {
    assert Merge(a, b)[k] == Layered(Some(a[k]), b[k]) && Merge(b, c)[k] == Layered(Some(b[k]), c[k]);
  }

  lemma UngroupedAt(a: Fields, b: Fields, c: Fields, k: string)
    requires k in a || k in b || k in c
    requires k !in a || k !in b || k !in c
    ensures Merge(Merge(a, b), c)[k] == Merge(a, Merge(b, c))[k]
  { }

  /** What has to hold under one key. */
  predicate AssociatesUnder(a: Fields, b: Fields, c: Fields, k: string) {
    k in a && k in b && k in c ==> AssociatesAt(a[k], b[k], c[k])
  }

  lemma {:induction false} AssociativeAtIff(a: Value, b: Value, c: Value)
    ensures Layered(Some(Layered(Some(a), b)), c) == Layered(Some(a), Layered(Some(b), c)) <==> AssociatesAt(a, b, c)
    decreases c, 1
  {
    if a.Obj? && c.Obj? {
      if b.Obj? { AssociativeIff(a.fields, b.fields, c.fields); } else { AbsorbsIff(a.fields, c.fields); }
    }
  }

  lemma {:induction false} AssociativeUnderIff(a: Fields, b: Fields, c: Fields, k: string)
    requires k in a || k in b || k in c
    ensures Merge(Merge(a, b), c)[k] == Merge(a, Merge(b, c))[k] <==> AssociatesUnder(a, b, c, k)
    decreases Obj(c), 0, 0
  {
    if k in a && k in b && k in c {
      GroupedAt(a, b, c, k);
      AssociativeAtIff(a[k], b[k], c[k]);
    } else {
      UngroupedAt(a, b, c, k);
    }
  }

  lemma GroupedKeys(a: Fields, b: Fields, c: Fields)
    ensures Merge(Merge(a, b), c).Keys == Merge(a, Merge(b, c)).Keys == a.Keys + b.Keys + c.Keys
  { }

  lemma AgreeIff(left: Fields, right: Fields, a: Fields, b: Fields, c: Fields)
    requires left.Keys == right.Keys == a.Keys + b.Keys + c.Keys
    requires forall k :: k in left ==> (left[k] == right[k] <==> AssociatesUnder(a, b, c, k))
    ensures left == right <==> Associates(a, b, c)
  {
    if left == right {
      forall k | k in a && k in b && k in c ensures AssociatesAt(a[k], b[k], c[k]) {
        assert k in left && AssociatesUnder(a, b, c, k);
      }
    }
  }

  /** The two groupings of three layers agree exactly when the layers associate. */
  lemma {:induction false} AssociativeIff(a: Fields, b: Fields, c: Fields)
    ensures Merge(Merge(a, b), c) == Merge(a, Merge(b, c)) <==> Associates(a, b, c)
    decreases Obj(c), 0, 1
  {
    GroupedKeys(a, b, c);
    forall k | k in a.Keys + b.Keys + c.Keys
      ensures Merge(Merge(a, b), c)[k] == Merge(a, Merge(b, c))[k] <==> AssociatesUnder(a, b, c, k)
    {
      AssociativeUnderIff(a, b, c, k);
    }
    AgreeIff(Merge(Merge(a, b), c), Merge(a, Merge(b, c)), a, b, c);
  }

  // ----- All layers -----

  /** Entries in order, each merged over the ones before. */
  function Stack(layers: seq<Fields>): Fields
    requires layers != []
    decreases |layers|
  {
    if |layers| == 1 then layers[0] else Merge(Stack(layers[..|layers| - 1]), layers[|layers| - 1])
  }

  /** A leaf is decided by the topmost layer that says anything about its path. */
  lemma {:induction false} TopmostLayerWins(layers: seq<Fields>, j: nat, path: seq<string>)
    requires j < |layers|
    requires Lookup(Obj(layers[j]), path).Some? && !Lookup(Obj(layers[j]), path).value.Obj?
    requires forall i :: j < i < |layers| ==> Lookup(Obj(layers[i]), path).None? && !Blocks(Obj(layers[i]), path)
    ensures Lookup(Obj(Stack(layers)), path) == Lookup(Obj(layers[j]), path)
    decreases |layers|
  {
    var n := |layers| - 1;
    if n > 0 {
      MergeAt(Stack(layers[..n]), layers[n], path);
      if j < n { TopmostLayerWins(layers[..n], j, path); }
    }
  }

  const SANDBOX := "sandbox_workspace_write"
  const NETWORK := "network_access"

  datatype Parsed = NotJson | Json(v: Value)
  datatype Entry = Entry(key: string, value: Parsed)
  datatype Source = Persona | Generated | Parent
  datatype Problem = BadJson(source: Source) | NotAnObject(source: Source) | SandboxNotAnObject
  datatype Outcome = Skipped | Config(fields: Fields) | Failed(problem: Problem)

  /** The `CODEX_CONFIG` values among the entries, in order. */
  function Values(entries: seq<Entry>): seq<Parsed>
    decreases |entries|
  {
    if entries == [] then []
    else
      var n := |entries| - 1;
      Values(entries[..n]) + (if entries[n].key == "CODEX_CONFIG" then [entries[n].value] else [])
  }

  predicate IsObject(p: Parsed) { p.Json? && p.v.Obj? }

  predicate AllObjects(values: seq<Parsed>) { forall i :: 0 <= i < |values| ==> IsObject(values[i]) }

  /** The layers of the configuration, once everything has parsed. */
  function LayersOf(values: seq<Parsed>): (layers: seq<Fields>)
    requires AllObjects(values)
    ensures |layers| == |values|
    decreases |values|
  {
    if values == [] then [] else LayersOf(values[..|values| - 1]) + [values[|values| - 1].v.fields]
  }

  /** Force `sandbox_workspace_write.network_access` on. */
  function Forced(f: Fields): Fields
    requires SANDBOX in f ==> f[SANDBOX].Obj?
  {
    f[SANDBOX := Obj((if SANDBOX in f then f[SANDBOX].fields else map[])[NETWORK := Bool(true)])]
  }

  function ProblemOf(p: Parsed, source: Source): Problem
  {
    if p.NotJson? then BadJson(source) else NotAnObject(source)
  }

  /** The entry that stops the merge: the first that is not an object. */
  predicate StopsAt(values: seq<Parsed>, i: nat) {
    i < |values| && !IsObject(values[i]) && forall j :: 0 <= j < i ==> IsObject(values[j])
  }

  method BuildCodexConfigEnv(entries: seq<Entry>, parent: Option<Parsed>, generated: bool) returns (outcome: Outcome)
    ensures outcome.Skipped? <==> !generated || Values(entries) == []
    ensures forall i: nat :: generated && StopsAt(Values(entries), i) ==>
              outcome == Failed(ProblemOf(Values(entries)[i], if i == 0 then Persona else Generated))
    ensures generated && Values(entries) != [] && AllObjects(Values(entries)) ==>
              if parent.Some? && !IsObject(parent.value) then outcome == Failed(ProblemOf(parent.value, Parent))
              else
                var f := Stack(LayersOf(Values(entries) + if parent.Some? then [parent.value] else []));
                if SANDBOX in f && !f[SANDBOX].Obj? then outcome == Failed(SandboxNotAnObject)
                else outcome == Config(Forced(f))
  {
    if !generated { return Skipped; }
    var values := CollectValues(entries);
    if values == [] { return Skipped; }
    var bad := FindBadEntry(values);
    if bad.Some? { return Failed(ProblemOf(values[bad.value], if bad.value == 0 then Persona else Generated)); }
    var base := MergeEntries(values);
    if parent.Some? {
      if !IsObject(parent.value) { return Failed(ProblemOf(parent.value, Parent)); }
      StackMore(values, parent.value);
      base := DeepMerge(base, parent.value.v.fields);
    } else {
      assert values + [] == values;
    }
    if SANDBOX in base && !base[SANDBOX].Obj? { return Failed(SandboxNotAnObject); }
    return Config(Forced(base));
  }

  method FindBadEntry(values: seq<Parsed>) returns (bad: Option<nat>)
    ensures if bad.Some? then StopsAt(values, bad.value) else AllObjects(values)
  {
    for i := 0 to |values|
      invariant forall j :: 0 <= j < i ==> IsObject(values[j])
    {
      if !IsObject(values[i]) { return Some(i); }
    }
    return None;
  }

  method MergeEntries(values: seq<Parsed>) returns (base: Fields)
    requires values != [] && AllObjects(values)
    ensures base == Stack(LayersOf(values))
  {
    base := values[0].v.fields;
    for i := 1 to |values|
      invariant base == Stack(LayersOf(values[..i]))
    {
      StackMore(values[..i], values[i]);
      assert values[..i + 1] == values[..i] + [values[i]];
      base := DeepMerge(base, values[i].v.fields);
    }
    assert values[..|values|] == values;
  }

  lemma StackMore(values: seq<Parsed>, p: Parsed)
    requires values != [] && AllObjects(values) && IsObject(p)
    ensures AllObjects(values + [p])
    ensures Stack(LayersOf(values + [p])) == Merge(Stack(LayersOf(values)), p.v.fields)
  {
    assert (values + [p])[..|values|] == values;
    assert LayersOf(values + [p]) == LayersOf(values) + [p.v.fields];
    assert (LayersOf(values) + [p.v.fields])[..|values|] == LayersOf(values);
  }

  method CollectValues(entries: seq<Entry>) returns (values: seq<Parsed>)
    ensures values == Values(entries)
  {
    values := [];
    for i := 0 to |entries|
      invariant values == Values(entries[..i])
    {
      assert entries[..i + 1][..i] == entries[..i];
      if entries[i].key == "CODEX_CONFIG" { values := values + [entries[i].value]; }
    }
    assert entries[..|entries|] == entries;
  }

  /** The forced setting is on, and every path that neither leads to it nor through it is as the layers left it. */
  lemma ForcedAt(f: Fields, path: seq<string>)
    requires SANDBOX in f ==> f[SANDBOX].Obj?
    ensures Lookup(Obj(Forced(f)), [SANDBOX, NETWORK]) == Some(Bool(true))
    ensures path != [] && path != [SANDBOX] && !([SANDBOX, NETWORK] <= path) ==>
              Lookup(Obj(Forced(f)), path) == Lookup(Obj(f), path)
  {
    LookupTwo(Obj(Forced(f)), SANDBOX, NETWORK);
    if |path| >= 2 && path[0] == SANDBOX {
      assert path[1..][0] == path[1];
      assert path[1] == NETWORK ==> [SANDBOX, NETWORK] <= path;
    }
  }
}
