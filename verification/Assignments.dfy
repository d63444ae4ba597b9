/** Assignments to numbered fields, of which the last one to each field wins; and names of fields. */
module Assignments {
  import opened MachineTypes

  // ---------- Last wins ----------

  /** The state after a list of assignments. */
  function ApplyAll<S, A>(apply: (S, A) -> S, s: S, list: seq<A>): S
    decreases |list|
  {
    if list == [] then s else ApplyAll(apply, apply(s, list[0]), list[1..])
  }

  /** The last assignment to field k. */
  function LastOf<A>(key: A -> nat, list: seq<A>, k: nat): Option<A> {
    if list == [] then None
    else if key(list[|list| - 1]) == k then Some(list[|list| - 1])
    else LastOf(key, list[..|list| - 1], k)
  }

  /** An assignment sets its own field and no other. */
  ghost predicate SetsOne<S(!new), A(!new)>(apply: (S, A) -> S, key: A -> nat, current: (S, nat) -> A, fields: nat) {
    forall s: S, a: A, k: nat :: k < fields ==> current(apply(s, a), k) == if key(a) == k then a else current(s, k)
  }

  ghost predicate Agree<S, A(!new)>(current: (S, nat) -> A, fields: nat, s: S, t: S) {
    forall k: nat :: k < fields ==> current(s, k) == current(t, k)
  }

  /** States that agree on all fields are equal. */
  ghost predicate Determines<S(!new), A(!new)>(current: (S, nat) -> A, fields: nat) {
    forall s: S, t: S :: Agree(current, fields, s, t) ==> s == t
  }

  lemma {:induction false} ApplyAllAppends<S, A>(apply: (S, A) -> S, s: S, list: seq<A>, a: A)
    ensures ApplyAll(apply, s, list + [a]) == apply(ApplyAll(apply, s, list), a)
    decreases |list|
  {
    if list == [] {
      assert ([] + [a])[1..] == [];
    } else {
      ApplyAllAppends(apply, apply(s, list[0]), list[1..], a);
      assert (list + [a])[1..] == list[1..] + [a];
    }
  }

  lemma {:induction false} LastWins<S(!new), A(!new)>(
    apply: (S, A) -> S, key: A -> nat, current: (S, nat) -> A, fields: nat, s: S, list: seq<A>, k: nat)
    requires SetsOne(apply, key, current, fields) && k < fields
    ensures current(ApplyAll(apply, s, list), k) ==
      match LastOf(key, list, k) case Some(a) => a case None => current(s, k)
    decreases |list|
  {
    if list != [] {
      var n := |list| - 1;
      LastWins(apply, key, current, fields, s, list[..n], k);
      assert list[..n] + [list[n]] == list;
      ApplyAllAppends(apply, s, list[..n], list[n]);
    }
  }

  lemma OnlyLastMatter<S(!new), A(!new)>(
    apply: (S, A) -> S, key: A -> nat, current: (S, nat) -> A, fields: nat, s: S, list: seq<A>, other: seq<A>)
    requires SetsOne(apply, key, current, fields) && Determines(current, fields)
    requires forall k: nat :: k < fields ==> LastOf(key, list, k) == LastOf(key, other, k)
    ensures ApplyAll(apply, s, list) == ApplyAll(apply, s, other)
  {
    var t, u := ApplyAll(apply, s, list), ApplyAll(apply, s, other);
    forall k: nat | k < fields ensures current(t, k) == current(u, k) {
      LastWins(apply, key, current, fields, s, list, k);
      LastWins(apply, key, current, fields, s, other, k);
    }
    assert Agree(current, fields, t, u);
  }

  lemma {:induction false} LastOfAppend<A>(key: A -> nat, list: seq<A>, more: seq<A>, k: nat)
    ensures LastOf(key, list + more, k) ==
      if LastOf(key, more, k).Some? then LastOf(key, more, k) else LastOf(key, list, k)
    decreases |more|
  {
    if more == [] {
      assert list + more == list;
    } else {
      var n := |more| - 1;
      LastOfAppend(key, list, more[..n], k);
      assert (list + more)[..|list + more| - 1] == list + more[..n];
    }
  }

  lemma LastOfPair<A>(key: A -> nat, a: A, b: A, k: nat)
    ensures LastOf(key, [a, b], k) == if key(b) == k then Some(b) else if key(a) == k then Some(a) else None
  {
    assert [a, b][..1] == [a] && [a][..0] == [];
    assert LastOf(key, [a], k) == if key(a) == k then Some(a) else None;
  }

  lemma LastOfAround<A>(key: A -> nat, before: seq<A>, a: A, b: A, after: seq<A>, k: nat)
    ensures LastOf(key, before + [a, b] + after, k) ==
      var last := LastOf(key, after, k);
      if last.Some? then last
      else if key(b) == k then Some(b)
      else if key(a) == k then Some(a)
      else LastOf(key, before, k)
  {
    LastOfAppend(key, before + [a, b], after, k);
    LastOfAppend(key, before, [a, b], k);
    LastOfPair(key, a, b, k);
  }

  /** Neighbours with different keys may change places. */
  lemma SwapKeepsLast<A>(key: A -> nat, before: seq<A>, a: A, b: A, after: seq<A>, k: nat)
    requires key(a) != key(b)
    ensures LastOf(key, before + [a, b] + after, k) == LastOf(key, before + [b, a] + after, k)
  {
    LastOfAround(key, before, a, b, after, k);
    LastOfAround(key, before, b, a, after, k);
  }

  // ---------- Names ----------

  /** The first of the names with this text. */
  function FirstNamed<N>(text: N -> string, names: seq<N>, key: string): Option<N> {
    if names == [] then None
    else if key == text(names[0]) then Some(names[0])
    else FirstNamed(text, names[1..], key)
  }

  lemma {:induction false} FindsName<N(!new)>(text: N -> string, names: seq<N>, k: nat)
    requires k < |names| && forall i :: 0 <= i < k ==> names[i] != names[k]
    requires forall a: N, b: N :: text(a) == text(b) ==> a == b
    ensures FirstNamed(text, names, text(names[k])) == Some(names[k])
    decreases k
  {
    if k > 0 {
      assert names[1..][k - 1] == names[k];
      forall i | 0 <= i < k - 1 ensures names[1..][i] != names[k] {
        assert names[1..][i] == names[i + 1];
      }
      FindsName(text, names[1..], k - 1);
    }
  }

  lemma {:induction false} NoneNamed<N(!new)>(text: N -> string, names: seq<N>, key: string)
    requires forall name: N :: text(name) != key
    ensures FirstNamed(text, names, key) == None
    decreases |names|
  {
    if names != [] {
      NoneNamed(text, names[1..], key);
    }
  }
}
