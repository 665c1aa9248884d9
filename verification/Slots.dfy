/** What the slot tables of the servers have in common. */
module Slots {
  /** The first free slot of a descriptor table, where -1 marks a free one. */
  function FirstFree(fds: seq<int>): (k: nat)
    ensures k <= |fds|
    ensures k < |fds| ==> fds[k] == -1
    ensures forall j :: 0 <= j < k ==> fds[j] != -1
  {
    if fds == [] || fds[0] == -1 then 0 else 1 + FirstFree(fds[1..])
  }

  lemma PrefixBehind(j: nat, a: seq<nat>, b: seq<nat>)
    requires a <= b
    ensures [j] + a <= [j] + b
  {
  }

  /** A list of slots in order, each once. */
  predicate Increasing(slots: seq<nat>) {
    forall j, k :: 0 <= j < k < |slots| ==> slots[j] < slots[k]
  }

  /** One slot more in front, or not. */
  lemma InFront(j: nat, taken: bool, rest: seq<nat>)
    ensures forall k: nat :: k in (if taken then [j] else []) + rest <==> (taken && k == j) || k in rest
  {
  }

  lemma IncreasingFrom(j: nat, rest: seq<nat>)
    requires Increasing(rest) && forall k :: k in rest ==> j < k
    ensures Increasing([j] + rest)
  {
    var slots := [j] + rest;
    forall a, b | 0 <= a < b < |slots| ensures slots[a] < slots[b] {
      assert slots[b] == rest[b - 1] && rest[b - 1] in rest;
    }
  }
}
