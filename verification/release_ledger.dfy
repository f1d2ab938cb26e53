/** Desktop releases: which release a new one follows, and which commits its changelog lists. */
module ReleaseLedger {
  import opened Options

  type Sha = string

  // ----- Versions and tags -----

  datatype Version = Version(major: nat, minor: nat, patch: nat)

  predicate Less(a: Version, b: Version) {
    a.major < b.major || (a.major == b.major && (a.minor < b.minor || (a.minor == b.minor && a.patch < b.patch)))
  }

  /** A tag that git lists; `version` is set when its name is a stable release name. */
  datatype TagRef = TagRef(name: string, version: Option<Version>, sha: Sha)

  datatype StableTag = StableTag(version: Version, tag: string, sha: Sha)

  /** Two listed tags stand for one stable version, as `desktop-v1.2.3` and `desktop-v01.2.3` do. */
  predicate Ambiguous(tags: seq<TagRef>, i: nat, j: nat) {
    i < j < |tags| && tags[i].version.Some? && tags[i].version == tags[j].version
  }

  /** The tags that stand for one stable version, in listing order. */
  function RefsOf(tags: seq<TagRef>, v: Version): seq<StableTag> {
    if tags == [] then []
    else
      var n, t := |tags| - 1, tags[|tags| - 1];
      RefsOf(tags[..n], v) + if t.version == Some(v) then [StableTag(v, t.name, t.sha)] else []
  }

  predicate IsListed(tags: seq<TagRef>, t: StableTag) {
    TagRef(t.tag, Some(t.version), t.sha) in tags
  }

  ghost predicate HasClash(tags: seq<TagRef>) { exists i: nat, j: nat :: Ambiguous(tags, i, j) }

  /** The table holds exactly the listed stable tags, one per version. */
  ghost predicate IsTagTable(tags: seq<TagRef>, table: seq<StableTag>) {
    && (forall t :: t in table <==> IsListed(tags, t))
    && (forall a, b :: 0 <= a < b < |table| ==> table[a].version != table[b].version)
  }

  lemma {:induction false} RefsListed(tags: seq<TagRef>, v: Version)
    ensures forall t :: t in RefsOf(tags, v) <==> t.version == v && IsListed(tags, t)
  {
    if tags != [] {
      var n := |tags| - 1;
      RefsListed(tags[..n], v);
      assert tags == tags[..n] + [tags[n]];
    }
  }

  lemma {:induction false} ManyRefsClash(tags: seq<TagRef>, v: Version) returns (i: nat, j: nat)
    requires |RefsOf(tags, v)| > 1
    ensures Ambiguous(tags, i, j)
  {
    var n := |tags| - 1;
    RefsListed(tags[..n], v);
    if |RefsOf(tags[..n], v)| > 1 {
      i, j := ManyRefsClash(tags[..n], v);
    } else {
      var first := RefsOf(tags[..n], v)[0];
      assert IsListed(tags[..n], first);
      var k :| 0 <= k < n && tags[..n][k] == TagRef(first.tag, Some(v), first.sha);
      i, j := k, n;
    }
  }

  lemma {:induction false} ClashManyRefs(tags: seq<TagRef>, i: nat, j: nat)
    requires Ambiguous(tags, i, j)
    ensures |RefsOf(tags, tags[i].version.value)| > 1
  {
    var n := |tags| - 1;
    var v := tags[i].version.value;
    if j < n {
      ClashManyRefs(tags[..n], i, j);
    } else {
      RefsListed(tags[..n], v);
      assert tags[..n][i] == tags[i];
      assert IsListed(tags[..n], StableTag(v, tags[i].name, tags[i].sha));
    }
  }

  /** Group the stable tags by version, in a dictionary with its insertion order, and refuse a version with two tags. */
  method StableTags(tags: seq<TagRef>) returns (stable: Option<seq<StableTag>>)
    ensures stable.None? <==> HasClash(tags)
    ensures stable.Some? ==> IsTagTable(tags, stable.value)
  {
    var aliases, order := GroupByVersion(tags);
    stable := OneTagEach(tags, aliases, order);
    if stable.Some? { OneRefEach(tags, order, stable.value); }
  }

  ghost predicate HoldsRefs(tags: seq<TagRef>, aliases: map<Version, seq<StableTag>>, v: Version) {
    v in aliases && aliases[v] == RefsOf(tags, v) && aliases[v] != []
  }

  /** The only tag of each version in the dictionary, unless one of them has more. */
  method OneTagEach(tags: seq<TagRef>, aliases: map<Version, seq<StableTag>>, order: seq<Version>)
    returns (stable: Option<seq<StableTag>>)
    requires forall a :: 0 <= a < |order| ==> HoldsRefs(tags, aliases, order[a])
    ensures stable.None? ==> HasClash(tags)
    ensures stable.Some? ==>
              |stable.value| == |order| && forall a :: 0 <= a < |order| ==> RefsOf(tags, order[a]) == [stable.value[a]]
  {
    var found: seq<StableTag> := [];
    for k := 0 to |order|
      invariant |found| == k
      invariant forall a :: 0 <= a < k ==> RefsOf(tags, order[a]) == [found[a]]
    {
      assert HoldsRefs(tags, aliases, order[k]);
      var refs := aliases[order[k]];
      if |refs| != 1 {
        var i, j := ManyRefsClash(tags, order[k]);
        return None;
      }
      found := found + [refs[0]];
    }
    return Some(found);
  }

  method GroupByVersion(tags: seq<TagRef>) returns (aliases: map<Version, seq<StableTag>>, order: seq<Version>)
    ensures forall v :: v in order <==> v in aliases
    ensures forall a, b :: 0 <= a < b < |order| ==> order[a] != order[b]
    ensures forall v :: RefsOf(tags, v) == if v in aliases then aliases[v] else []
    ensures forall v :: v in aliases ==> aliases[v] != []
  {
    aliases, order := map[], [];
    for i := 0 to |tags|
      invariant forall v :: v in order <==> v in aliases
      invariant forall a, b :: 0 <= a < b < |order| ==> order[a] != order[b]
      invariant forall v :: RefsOf(tags[..i], v) == if v in aliases then aliases[v] else []
      invariant forall v :: v in aliases ==> aliases[v] != []
    {
      assert tags[..i + 1][..i] == tags[..i];
      if tags[i].version.Some? {
        var v := tags[i].version.value;
        if v !in aliases {
          aliases, order := aliases[v := []], order + [v];
        }
        aliases := aliases[v := aliases[v] + [StableTag(v, tags[i].name, tags[i].sha)]];
      }
    }
    assert tags[..|tags|] == tags;
  }

  lemma OneRefEach(tags: seq<TagRef>, order: seq<Version>, found: seq<StableTag>)
    requires |found| == |order| && forall a :: 0 <= a < |order| ==> RefsOf(tags, order[a]) == [found[a]]
    requires forall v :: RefsOf(tags, v) != [] ==> v in order
    requires forall a, b :: 0 <= a < b < |order| ==> order[a] != order[b]
    ensures IsTagTable(tags, found) && !HasClash(tags)
  {
    forall a | 0 <= a < |order| ensures found[a].version == order[a] && IsListed(tags, found[a]) {
      RefsListed(tags, order[a]);
      assert found[a] in RefsOf(tags, order[a]);
    }
    forall t | IsListed(tags, t) ensures t in found {
      RefsListed(tags, t.version);
      assert t in RefsOf(tags, t.version);
      var a :| 0 <= a < |order| && order[a] == t.version;
    }
    forall i: nat, j: nat ensures !Ambiguous(tags, i, j) {
      if Ambiguous(tags, i, j) {
        ClashManyRefs(tags, i, j);
      }
    }
  }

  // ----- The release a new one follows -----

  datatype Meta = Meta(version: Version, tag: string, base: Option<Sha>)
  datatype Pull = Pull(merged: bool, head: Sha, mergeSha: Option<Sha>)

  /** What the tool sees when it runs: stable tags, all tags by name, tagged metadata, merged pull requests. */
  datatype Repo = Repo(
    stable: seq<StableTag>, refs: map<string, Sha>, metadata: map<string, Meta>, pulls: map<Sha, seq<Pull>>)

  datatype Refusal = NotNewer | BadMetadata | NoMergedPull

  datatype Previous = First | After(tag: string, candidate: Sha, base: Sha, merge: Sha) | Refused(why: Refusal)

  function SameVersion(stable: seq<StableTag>, v: Version): seq<StableTag> {
    if stable == [] then []
    else (if stable[0].version == v then [stable[0]] else []) + SameVersion(stable[1..], v)
  }

  /** The greatest stable tag below the target. */
  function Latest(stable: seq<StableTag>, target: Version): Option<StableTag> {
    if stable == [] then None
    else
      var rest, t := Latest(stable[1..], target), stable[0];
      if Less(t.version, target) && (rest.None? || Less(rest.value.version, t.version)) then Some(t) else rest
  }

  predicate IsReleasePull(p: Pull, candidate: Sha) {
    p.merged && (p.head == candidate || p.mergeSha == Some(candidate))
  }

  function Matching(pulls: seq<Pull>, candidate: Sha): seq<Pull> {
    if pulls == [] then []
    else (if IsReleasePull(pulls[0], candidate) then [pulls[0]] else []) + Matching(pulls[1..], candidate)
  }

  predicate AllowedRetry(repo: Repo, target: Version, pre: bool, targetTag: string, allow: Option<Sha>) {
    var equal := SameVersion(repo.stable, target);
    !pre && |equal| == 1 && allow.Some? && equal[0].tag == targetTag && equal[0].sha == allow.value
  }

  predicate Blocked(repo: Repo, target: Version, pre: bool, targetTag: string, allow: Option<Sha>) {
    || (targetTag in repo.refs && (allow.None? || repo.refs[targetTag] != allow.value))
    || (exists k :: 0 <= k < |repo.stable| && Less(target, repo.stable[k].version))
    || (SameVersion(repo.stable, target) != [] && !AllowedRetry(repo, target, pre, targetTag, allow))
  }

  function PreviousRelease(repo: Repo, target: Version, pre: bool, targetTag: string, allow: Option<Sha>): Previous {
    if Blocked(repo, target, pre, targetTag, allow) then Refused(NotNewer) else
    var latest := Latest(repo.stable, target);
    if latest.None? then First else
    var t := latest.value;
    if t.tag !in repo.metadata then Refused(BadMetadata) else
    var meta := repo.metadata[t.tag];
    if meta.version != t.version || meta.tag != t.tag || meta.base.None? then Refused(BadMetadata) else
    var pulls := Matching(if t.sha in repo.pulls then repo.pulls[t.sha] else [], t.sha);
    if |pulls| != 1 || pulls[0].mergeSha.None? then Refused(NoMergedPull)
    else After(t.tag, t.sha, meta.base.value, pulls[0].mergeSha.value)
  }

  lemma {:induction false} LatestIsGreatest(stable: seq<StableTag>, target: Version)
    ensures match Latest(stable, target)
            case None => forall t :: t in stable ==> !Less(t.version, target)
            case Some(m) =>
              && m in stable && Less(m.version, target)
              && forall t :: t in stable && Less(t.version, target) ==> !Less(m.version, t.version)
  {
    if stable != [] { LatestIsGreatest(stable[1..], target); }
  }

  lemma {:induction false} SameVersionFinds(stable: seq<StableTag>, v: Version)
    ensures SameVersion(stable, v) == [] <==> forall t :: t in stable ==> t.version != v
  {
    if stable != [] {
      SameVersionFinds(stable[1..], v);
      assert forall t :: t in stable <==> t == stable[0] || t in stable[1..];
    }
  }

  lemma {:induction false} MatchingFinds(pulls: seq<Pull>, candidate: Sha)
    ensures forall p :: p in Matching(pulls, candidate) <==> p in pulls && IsReleasePull(p, candidate)
  {
    if pulls != [] { MatchingFinds(pulls[1..], candidate); }
  }

  /** The squash commit comes from the one merged pull request of that candidate. */
  ghost predicate IsSquashOf(pulls: seq<Pull>, candidate: Sha, merge: Sha) {
    exists p :: p in pulls && IsReleasePull(p, candidate) && p.mergeSha == Some(merge) &&
                forall q :: q in pulls && IsReleasePull(q, candidate) ==> q == p
  }

  /** An answer names the greatest older stable tag, its recorded base and its squash commit, and no tag is newer. */
  lemma PreviousReleaseSound(repo: Repo, target: Version, pre: bool, targetTag: string, allow: Option<Sha>)
    ensures var p := PreviousRelease(repo, target, pre, targetTag, allow);
            && (!p.Refused? ==> forall t :: t in repo.stable ==> !Less(target, t.version))
            && (p.First? ==> forall t :: t in repo.stable ==> !Less(t.version, target))
            && (p.After? ==>
                  exists t :: t in repo.stable && t.tag == p.tag && t.sha == p.candidate
                      && IsLatest(repo.stable, target, t))
            && (p.After? ==> p.tag in repo.metadata && repo.metadata[p.tag].base == Some(p.base))
            && (p.After? ==> p.candidate in repo.pulls && IsSquashOf(repo.pulls[p.candidate], p.candidate, p.merge))
  {
    var p := PreviousRelease(repo, target, pre, targetTag, allow);
    LatestIsGreatest(repo.stable, target);
    if p.After? {
      var t := Latest(repo.stable, target).value;
      assert IsLatest(repo.stable, target, t);
      var pulls := if t.sha in repo.pulls then repo.pulls[t.sha] else [];
      MatchingFinds(pulls, t.sha);
      assert Matching(pulls, t.sha)[0] in pulls;
    }
  }

  predicate IsLatest(stable: seq<StableTag>, target: Version, t: StableTag) {
    Less(t.version, target) && forall o :: o in stable && Less(o.version, target) ==> !Less(t.version, o.version)
  }

  // ----- The changelog -----

  /** The commit graph: the parents of every commit. */
  type Graph = map<Sha, seq<Sha>>

  /** A walk from one commit to an ancestor, parent by parent. */
  ghost predicate IsPath(g: Graph, path: seq<Sha>) {
    && path != [] && (forall i :: 0 <= i < |path| ==> path[i] in g)
    && forall i :: 0 <= i < |path| - 1 ==> path[i + 1] in g[path[i]]
  }

  ghost predicate Ancestor(g: Graph, a: Sha, b: Sha) {
    exists path :: IsPath(g, path) && path[0] == b && path[|path| - 1] == a
  }

  ghost function Reachable(g: Graph, b: Sha): set<Sha> { set c | c in g.Keys && Ancestor(g, c, b) }

  lemma AncestorTransitive(g: Graph, a: Sha, b: Sha, c: Sha)
    requires Ancestor(g, a, b) && Ancestor(g, b, c)
    ensures Ancestor(g, a, c)
  {
    var p :| IsPath(g, p) && p[0] == b && p[|p| - 1] == a;
    var q :| IsPath(g, q) && q[0] == c && q[|q| - 1] == b;
    var path := q + p[1..];
    forall i | 0 <= i < |path| - 1 ensures path[i + 1] in g[path[i]] {
      if i >= |q| - 1 { assert path[i + 1] == p[i - |q| + 2] && path[i] == p[i - |q| + 1]; }
    }
    assert IsPath(g, path) && path[|path| - 1] == a;
  }

  predicate NonMerge(g: Graph, c: Sha) { c in g && |g[c]| <= 1 }

  /** The commits of `git log --no-merges previous..base`, or of all history up to the base. */
  ghost function LogSet(g: Graph, base: Sha, previous: Option<Sha>): set<Sha> {
    set c | c in Reachable(g, base) && NonMerge(g, c) && (previous.None? || c !in Reachable(g, previous.value))
  }

  /** A listing of a set of commits, each exactly once. */
  ghost predicate Lists(log: seq<Sha>, commits: set<Sha>) { multiset(log) == multiset(commits) }

  function Without(log: seq<Sha>, merge: Option<Sha>): seq<Sha> {
    if log == [] then [] else (if Some(log[0]) == merge then [] else [log[0]]) + Without(log[1..], merge)
  }

  function Only(log: seq<Sha>, keep: set<Sha>): seq<Sha> {
    if log == [] then [] else (if log[0] in keep then [log[0]] else []) + Only(log[1..], keep)
  }

  function Except(log: seq<Sha>, drop: set<Sha>): seq<Sha> {
    if log == [] then [] else (if log[0] in drop then [] else [log[0]]) + Except(log[1..], drop)
  }

  /** The two lists of a changelog, from git's answers for the whole range and for the desktop paths. */
  function Expected(log: seq<Sha>, touching: set<Sha>, merge: Option<Sha>): (seq<Sha>, seq<Sha>) {
    var all := Without(log, merge);
    var relevant := if merge.Some? then touching - {merge.value} else touching;
    (Only(all, relevant), Except(all, relevant))
  }

  lemma {:induction false} OnlyElements(log: seq<Sha>, keep: set<Sha>)
    ensures forall c :: c in Only(log, keep) <==> c in log && c in keep
  {
    if log != [] { OnlyElements(log[1..], keep); }
  }

  lemma {:induction false} SplitCounts(all: seq<Sha>, keep: set<Sha>)
    ensures multiset(Only(all, keep)) + multiset(Except(all, keep)) == multiset(all)
  {
    if all != [] {
      SplitCounts(all[1..], keep);
      assert all == [all[0]] + all[1..];
    }
  }

  lemma CountHead<T>(x: T, rest: seq<T>, c: T)
    ensures multiset([x] + rest)[c] == multiset(rest)[c] + if x == c then 1 else 0
  {
    assert multiset([x] + rest) == multiset{x} + multiset(rest);
  }

  /** How often a commit is listed once the squash commit is dropped. */
  lemma {:induction false} WithoutCount(log: seq<Sha>, merge: Option<Sha>, c: Sha)
    ensures multiset(Without(log, merge))[c] == if Some(c) == merge then 0 else multiset(log)[c]
  {
    if log != [] {
      var x, rest := log[0], log[1..];
      WithoutCount(rest, merge, c);
      CountHead(x, rest, c);
      CountHead(x, Without(rest, merge), c);
      assert log == [x] + rest;
      if Some(x) == merge {
        assert Without(log, merge) == Without(rest, merge);
      } else {
        assert Without(log, merge) == [x] + Without(rest, merge);
      }
    }
  }

  function AsSet(merge: Option<Sha>): set<Sha> { if merge.Some? then {merge.value} else {} }

  /** The two lists account for every commit of the range but the squash commit, each exactly once. */
  lemma ExpectedAccountsOnce(log: seq<Sha>, commits: set<Sha>, touching: set<Sha>, merge: Option<Sha>)
    requires Lists(log, commits)
    ensures var (relevant, other) := Expected(log, touching, merge);
            && multiset(relevant) + multiset(other) == multiset(commits - AsSet(merge))
            && forall c :: c in relevant <==> c in commits - AsSet(merge) && c in touching
  {
    var all := Without(log, merge);
    var keep := if merge.Some? then touching - {merge.value} else touching;
    var kept := commits - AsSet(merge);
    SquashLeftOut(log, commits, merge);
    SplitCounts(all, keep);
    OnlyElements(all, keep);
    ListedMembers(all, kept);
  }

  lemma ListedMembers(log: seq<Sha>, commits: set<Sha>)
    requires Lists(log, commits)
    ensures forall c :: c in log <==> c in commits
  {
    assert forall c :: c in log <==> c in multiset(log);
  }

  lemma SquashLeftOut(log: seq<Sha>, commits: set<Sha>, merge: Option<Sha>)
    requires Lists(log, commits)
    ensures Lists(Without(log, merge), commits - AsSet(merge))
  {
    forall c ensures multiset(Without(log, merge))[c] == multiset(commits - AsSet(merge))[c] {
      WithoutCount(log, merge, c);
    }
  }

  // ----- Retrying a release whose tag is already there -----

  lemma {:induction false} LatestSkips(before: seq<StableTag>, t: StableTag, after: seq<StableTag>)
    ensures Latest(before + [t] + after, t.version) == Latest(before + after, t.version)
  {
    if before == [] {
      assert before + after == after && (before + [t] + after)[1..] == after;
    } else {
      LatestSkips(before[1..], t, after);
      assert (before + [t] + after)[1..] == before[1..] + [t] + after;
      assert (before + after)[1..] == before[1..] + after;
    }
  }

  lemma {:induction false} SameVersionSkips(before: seq<StableTag>, t: StableTag, after: seq<StableTag>)
    requires SameVersion(before + after, t.version) == []
    ensures SameVersion(before + [t] + after, t.version) == [t]
  {
    if before == [] {
      assert before + after == after && (before + [t] + after)[1..] == after;
    } else {
      assert (before + after)[1..] == before[1..] + after;
      SameVersionSkips(before[1..], t, after);
      assert (before + [t] + after)[1..] == before[1..] + [t] + after;
    }
  }

  /** Once the release has its tag, validating it again at the same commit finds the same previous release. */
  lemma RetryAgrees(repo: Repo, tagged: Repo, before: seq<StableTag>, t: StableTag, after: seq<StableTag>)
    requires repo.stable == before + after && tagged.stable == before + [t] + after
    requires tagged.refs == repo.refs[t.tag := t.sha] && tagged.metadata == repo.metadata && tagged.pulls == repo.pulls
    requires PreviousRelease(repo, t.version, false, t.tag, None) != Refused(NotNewer)
    ensures PreviousRelease(tagged, t.version, false, t.tag, Some(t.sha)) ==
        PreviousRelease(repo, t.version, false, t.tag, None)
    ensures forall other :: other != t.sha ==>
        PreviousRelease(tagged, t.version, false, t.tag, Some(other)) == Refused(NotNewer)
  {
    LatestSkips(before, t, after);
    RetryUnblocked(repo, tagged, before, t, after);
  }

  lemma RetryUnblocked(repo: Repo, tagged: Repo, before: seq<StableTag>, t: StableTag, after: seq<StableTag>)
    requires repo.stable == before + after && tagged.stable == before + [t] + after
    requires tagged.refs == repo.refs[t.tag := t.sha]
    requires !Blocked(repo, t.version, false, t.tag, None)
    ensures !Blocked(tagged, t.version, false, t.tag, Some(t.sha))
  {
    SameVersionSkips(before, t, after);
    forall k | 0 <= k < |tagged.stable| ensures !Less(t.version, tagged.stable[k].version) {
      if k < |before| {
        assert tagged.stable[k] == repo.stable[k];
      } else if k > |before| {
        assert tagged.stable[k] == repo.stable[k - 1];
      }
    }
  }

  // ----- A whole history of releases -----

  datatype Release = Release(version: Version, tag: string, candidate: Sha, base: Sha)

  function TagOf(r: Release): StableTag { StableTag(r.version, r.tag, r.candidate) }

  /** The repository shows exactly the past releases as stable tags, and their recorded bases. */
  ghost predicate Describes(repo: Repo, past: seq<Release>) {
    && (forall t :: t in repo.stable <==> exists k :: 0 <= k < |past| && t == TagOf(past[k]))
    && (forall k :: 0 <= k < |past| ==>
        past[k].tag in repo.metadata && repo.metadata[past[k].tag].base == Some(past[k].base))
  }

  function Choice(repo: Repo, r: Release): Previous { PreviousRelease(repo, r.version, false, r.tag, None) }

  /** Every release was generated against the repository of its time, and was not refused. */
  ghost predicate Accepted(rs: seq<Release>, repos: seq<Repo>) {
    |rs| == |repos| && forall i: nat :: i < |rs| ==> IsAccepted(rs, repos, i)
  }

  ghost predicate IsAccepted(rs: seq<Release>, repos: seq<Repo>, i: nat)
    requires i < |rs| == |repos|
  {
    Describes(repos[i], rs[..i]) && !Choice(repos[i], rs[i]).Refused?
  }

  lemma AcceptedIncreases(rs: seq<Release>, repos: seq<Repo>, i: nat, j: nat)
    requires Accepted(rs, repos) && i < j < |rs|
    ensures Less(rs[i].version, rs[j].version)
  {
    var repo, t := repos[j], TagOf(rs[i]);
    assert IsAccepted(rs, repos, j);
    assert t == TagOf(rs[..j][i]) && t in repo.stable;
    SameVersionFinds(repo.stable, rs[j].version);
    assert !Blocked(repo, rs[j].version, false, rs[j].tag, None);
    var k :| 0 <= k < |repo.stable| && repo.stable[k] == t;
    assert !Less(rs[j].version, repo.stable[k].version);
  }

  lemma LatestAmong(stable: seq<StableTag>, past: seq<Release>, last: Release, v: Version)
    requires forall t :: t in stable ==> exists k :: 0 <= k < |past| && t == TagOf(past[k])
    requires TagOf(last) in stable && Less(last.version, v)
    requires forall k :: 0 <= k < |past| ==> past[k] == last || Less(past[k].version, last.version)
    ensures Latest(stable, v) == Some(TagOf(last))
  {
    LatestIsGreatest(stable, v);
    var latest := Latest(stable, v).value;
    assert !Less(latest.version, last.version);
    var k :| 0 <= k < |past| && latest == TagOf(past[k]);
  }

  lemma LatestIsLast(rs: seq<Release>, repos: seq<Repo>, i: nat)
    requires Accepted(rs, repos) && 0 < i < |rs|
    ensures Latest(repos[i].stable, rs[i].version) == Some(TagOf(rs[i - 1]))
  {
    assert IsAccepted(rs, repos, i);
    AcceptedIncreases(rs, repos, i - 1, i);
    assert TagOf(rs[..i][i - 1]) in repos[i].stable;
    forall k | 0 <= k < i - 1 ensures Less(rs[k].version, rs[i - 1].version) { AcceptedIncreases(rs, repos, k, i - 1); }
    LatestAmong(repos[i].stable, rs[..i], rs[i - 1], rs[i].version);
  }

  /** A release follows the release accepted just before it, and takes over its recorded base. */
  lemma FollowsImmediatePredecessor(rs: seq<Release>, repos: seq<Repo>, i: nat)
    requires Accepted(rs, repos) && i < |rs|
    ensures i == 0 ==> Choice(repos[i], rs[i]) == First
    ensures i > 0 ==>
              var p := Choice(repos[i], rs[i]);
              p.After? && p.tag == rs[i - 1].tag && p.candidate == rs[i - 1].candidate && p.base == rs[i - 1].base
  {
    assert IsAccepted(rs, repos, i);
    if i == 0 {
      LatestIsGreatest(repos[i].stable, rs[i].version);
    } else {
      LatestIsLast(rs, repos, i);
      assert rs[..i][i - 1] == rs[i - 1];
    }
  }

  /** Each base descends from the base before it. */
  ghost predicate Linear(g: Graph, rs: seq<Release>) {
    forall i: nat :: 0 < i < |rs| ==> Descends(g, rs, i)
  }

  ghost predicate Descends(g: Graph, rs: seq<Release>, i: nat)
    requires 0 < i < |rs|
  {
    Ancestor(g, rs[i - 1].base, rs[i].base)
  }

  lemma {:induction false} BasesDescend(g: Graph, rs: seq<Release>, i: nat, j: nat)
    requires Linear(g, rs) && i < j < |rs|
    ensures Ancestor(g, rs[i].base, rs[j].base)
    decreases j
  {
    assert Descends(g, rs, j);
    if i < j - 1 {
      BasesDescend(g, rs, i, j - 1);
      AncestorTransitive(g, rs[i].base, rs[j - 1].base, rs[j].base);
    }
  }

  lemma ReachableGrows(g: Graph, a: Sha, b: Sha)
    requires Ancestor(g, a, b)
    ensures Reachable(g, a) <= Reachable(g, b)
  {
    forall c | c in Reachable(g, a) ensures c in Reachable(g, b) { AncestorTransitive(g, c, a, b); }
  }

  /** The commits between two bases, the squash commit left out of them, and what the changelog lists. */
  ghost function RangeOf(g: Graph, rs: seq<Release>, repos: seq<Repo>, i: nat): set<Sha>
    requires i < |rs| == |repos|
  {
    var p := Choice(repos[i], rs[i]);
    LogSet(g, rs[i].base, if p.After? then Some(p.base) else None)
  }

  ghost function SquashOf(g: Graph, rs: seq<Release>, repos: seq<Repo>, i: nat): set<Sha>
    requires i < |rs| == |repos|
  {
    var p := Choice(repos[i], rs[i]);
    RangeOf(g, rs, repos, i) * (if p.After? then {p.merge} else {})
  }

  ghost function ChangelogOf(g: Graph, rs: seq<Release>, repos: seq<Repo>, i: nat): set<Sha>
    requires i < |rs| == |repos|
  {
    RangeOf(g, rs, repos, i) - SquashOf(g, rs, repos, i)
  }

  /** The commits between a base and the base before it. */
  ghost function Between(g: Graph, rs: seq<Release>, i: nat): set<Sha>
    requires i < |rs|
  {
    LogSet(g, rs[i].base, if i == 0 then None else Some(rs[i - 1].base))
  }

  lemma RangeIsBetween(g: Graph, rs: seq<Release>, repos: seq<Repo>, i: nat)
    requires Accepted(rs, repos) && i < |rs|
    ensures RangeOf(g, rs, repos, i) == Between(g, rs, i)
  {
    FollowsImmediatePredecessor(rs, repos, i);
  }

  lemma RangesDisjoint(g: Graph, rs: seq<Release>, repos: seq<Repo>, i: nat, j: nat)
    requires Accepted(rs, repos) && Linear(g, rs) && i < j < |rs|
    ensures RangeOf(g, rs, repos, i) !! RangeOf(g, rs, repos, j)
  {
    RangeIsBetween(g, rs, repos, i);
    RangeIsBetween(g, rs, repos, j);
    BetweenDisjoint(g, rs, i, j);
  }

  lemma BetweenDisjoint(g: Graph, rs: seq<Release>, i: nat, j: nat)
    requires Linear(g, rs) && i < j < |rs|
    ensures Between(g, rs, i) !! Between(g, rs, j)
  {
    if i < j - 1 {
      BasesDescend(g, rs, i, j - 1);
      ReachableGrows(g, rs[i].base, rs[j - 1].base);
    }
    LogSetsDisjoint(g, rs[i].base, if i == 0 then None else Some(rs[i - 1].base), rs[j].base, rs[j - 1].base);
  }

  lemma LogSetsDisjoint(g: Graph, earlier: Sha, previous: Option<Sha>, later: Sha, boundary: Sha)
    requires Reachable(g, earlier) <= Reachable(g, boundary)
    ensures LogSet(g, earlier, previous) !! LogSet(g, later, Some(boundary))
  {
    forall c | c in LogSet(g, earlier, previous) ensures c !in LogSet(g, later, Some(boundary)) {
      assert c in Reachable(g, earlier);
    }
  }

  ghost predicate InSomeRange(g: Graph, rs: seq<Release>, repos: seq<Repo>, n: nat, c: Sha)
    requires n <= |rs| == |repos|
  {
    exists i: nat :: i < n && c in RangeOf(g, rs, repos, i)
  }

  ghost predicate IsBetween(g: Graph, rs: seq<Release>, n: nat, c: Sha)
    requires n <= |rs|
  {
    exists i: nat :: i < n && c in Between(g, rs, i)
  }

  /** What lies behind the last base is what lies behind the one before it and what lies between them. */
  lemma LogSetSplits(g: Graph, base: Sha, boundary: Sha, c: Sha)
    requires Ancestor(g, boundary, base)
    ensures c in LogSet(g, base, None) <==> c in LogSet(g, boundary, None) || c in LogSet(g, base, Some(boundary))
  {
    ReachableGrows(g, boundary, base);
  }

  lemma {:induction false} BetweenCover(g: Graph, rs: seq<Release>, n: nat, c: Sha)
    requires Linear(g, rs) && 0 < n <= |rs|
    ensures IsBetween(g, rs, n, c) <==> c in LogSet(g, rs[n - 1].base, None)
    decreases n
  {
    if n > 1 {
      BetweenCover(g, rs, n - 1, c);
      assert Descends(g, rs, n - 1);
      LogSetSplits(g, rs[n - 1].base, rs[n - 2].base, c);
    }
    if c in Between(g, rs, n - 1) { assert IsBetween(g, rs, n, c); }
    if n > 1 && IsBetween(g, rs, n - 1, c) {
      var i: nat :| i < n - 1 && c in Between(g, rs, i);
      assert IsBetween(g, rs, n, c);
    }
  }

  lemma RangesCover(g: Graph, rs: seq<Release>, repos: seq<Repo>, c: Sha)
    requires Accepted(rs, repos) && Linear(g, rs) && rs != []
    ensures InSomeRange(g, rs, repos, |rs|, c) <==> c in LogSet(g, rs[|rs| - 1].base, None)
  {
    BetweenCover(g, rs, |rs|, c);
    if i: nat :| i < |rs| && c in RangeOf(g, rs, repos, i) { RangeIsBetween(g, rs, repos, i); }
    if i: nat :| i < |rs| && c in Between(g, rs, i) { RangeIsBetween(g, rs, repos, i); }
  }

  ghost predicate IsAccounted(g: Graph, rs: seq<Release>, repos: seq<Repo>, c: Sha)
    requires |rs| == |repos|
  {
    exists i: nat :: i < |rs| && (c in ChangelogOf(g, rs, repos, i) || c in SquashOf(g, rs, repos, i))
  }

  /**
   * Over any accepted history with descending bases: no commit is listed by two changelogs, no listed commit is
   * one of the squash commits left out, and the changelogs with those squash commits are exactly the non-merge
   * commits reachable from the last base.
   */
  lemma LedgerPartitionsHistory(g: Graph, rs: seq<Release>, repos: seq<Repo>)
    requires Accepted(rs, repos) && Linear(g, rs) && rs != []
    ensures forall i: nat, j: nat :: i < j < |rs| ==> ChangelogOf(g, rs, repos, i) !! ChangelogOf(g, rs, repos, j)
    ensures forall i: nat, j: nat :: i < |rs| && j < |rs| ==> ChangelogOf(g, rs, repos, i) !! SquashOf(g, rs, repos, j)
    ensures forall c :: IsAccounted(g, rs, repos, c) <==> c in LogSet(g, rs[|rs| - 1].base, None)
  {
    forall i: nat, j: nat | i < j < |rs| ensures RangeOf(g, rs, repos, i) !! RangeOf(g, rs, repos, j) {
      RangesDisjoint(g, rs, repos, i, j);
    }
    forall i: nat, j: nat | i < |rs| && j < |rs| ensures ChangelogOf(g, rs, repos, i) !! SquashOf(g, rs, repos, j) {
      if i != j { assert RangeOf(g, rs, repos, i) !! RangeOf(g, rs, repos, j); }
    }
    forall c ensures IsAccounted(g, rs, repos, c) <==> c in LogSet(g, rs[|rs| - 1].base, None) {
      RangesCover(g, rs, repos, c);
      if i: nat :| i < |rs| && c in RangeOf(g, rs, repos, i) {
        assert c in ChangelogOf(g, rs, repos, i) || c in SquashOf(g, rs, repos, i);
      }
      if i: nat :| i < |rs| && (c in ChangelogOf(g, rs, repos, i) || c in SquashOf(g, rs, repos, i)) {
        assert c in RangeOf(g, rs, repos, i);
      }
    }
  }

  /** The lists written into release `i`'s changelog are exactly its share of that partition, each commit once. */
  lemma ChangelogIsWritten(g: Graph, rs: seq<Release>, repos: seq<Repo>, i: nat, log: seq<Sha>, touching: set<Sha>)
    requires i < |rs| == |repos| && Lists(log, RangeOf(g, rs, repos, i))
    ensures var p := Choice(repos[i], rs[i]);
            var (relevant, other) := Expected(log, touching, if p.After? then Some(p.merge) else None);
            multiset(relevant) + multiset(other) == multiset(ChangelogOf(g, rs, repos, i))
  {
    var p := Choice(repos[i], rs[i]);
    var merge := if p.After? then Some(p.merge) else None;
    ExpectedAccountsOnce(log, RangeOf(g, rs, repos, i), touching, merge);
    assert RangeOf(g, rs, repos, i) - AsSet(merge) == ChangelogOf(g, rs, repos, i);
  }
}
