/**
 * Regrouping facts about sequences, proved once for every element type so
 * that the proofs about traces and breadcrumb trails can cite them instead
 * of rediscovering them among many other facts.
 */
module SeqFacts {

  lemma Assoc<T>(a: seq<T>, b: seq<T>, c: seq<T>)
    ensures a + (b + c) == a + b + c
  {
  }

  lemma DropHead<T>(a: seq<T>, b: seq<T>)
    requires a != []
    ensures (a + b)[1..] == a[1..] + b
  {
  }

  lemma AppendEmpty<T>(a: seq<T>)
    ensures a + [] == a && [] + a == a
  {
  }
}
