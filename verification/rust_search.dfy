/** What a left to right search finds, given what it finds at each offset. */
module RustSearch {
  import opened Options

  function Listed<T>(found: Option<T>): seq<T> { if found.Some? then [found.value] else [] }

  /** Everything found before `i`, in order. */
  function Before<T>(at: nat -> Option<T>, i: nat): seq<T> {
    if i == 0 then [] else Before(at, i - 1) + Listed(at(i - 1))
  }

  predicate NothingIn<T>(at: nat -> Option<T>, i: nat, j: nat) {
    forall k: nat :: i <= k < j ==> at(k).None?
  }

  lemma {:induction false} NothingAdds<T>(at: nat -> Option<T>, i: nat, j: nat)
    requires i <= j && NothingIn(at, i, j)
    ensures Before(at, i) == Before(at, j)
    decreases j - i
  {
    if i < j { NothingAdds(at, i, j - 1); }
  }

  /** A search may go from `i` straight to `j` when nothing is found in between. */
  lemma MaySkip<T>(at: nat -> Option<T>, i: nat, j: nat)
    requires i < j && NothingIn(at, i + 1, j)
    ensures Before(at, j) == Before(at, i) + Listed(at(i))
  {
    NothingAdds(at, i + 1, j);
  }
}
