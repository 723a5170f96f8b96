/** Singly linked lists in the memory block: what each relinking of core_list_join.c
    does to the sequence of nodes. */
module ListHeap {
  import opened ListSort
  import opened CoreList

  /** A list_head pointer: NULL or a node of the block. */
  datatype Ref = Null | At(node: nat)

  function Head(nodes: seq<nat>): Ref { if nodes == [] then Null else At(nodes[0]) }

  predicate InHeap(next: seq<Ref>, nodes: seq<nat>) {
    forall i | 0 <= i < |nodes| :: nodes[i] < |next|
  }

  /** Each node of the sequence points to the one after it. */
  ghost predicate Linked(next: seq<Ref>, nodes: seq<nat>) {
    InHeap(next, nodes) && forall i | 0 <= i < |nodes| - 1 :: next[nodes[i]] == At(nodes[i + 1])
  }

  ghost predicate Ends(next: seq<Ref>, nodes: seq<nat>)
    requires InHeap(next, nodes)
  {
    nodes != [] ==> next[nodes[|nodes| - 1]] == Null
  }

  /** The list that starts at head consists of these nodes. */
  ghost predicate IsList(next: seq<Ref>, head: Ref, nodes: seq<nat>) {
    Distinct(nodes) && Linked(next, nodes) && Ends(next, nodes) && head == Head(nodes)
  }

  ghost predicate Disjoint(a: seq<nat>, b: seq<nat>) {
    forall i, j | 0 <= i < |a| && 0 <= j < |b| :: a[i] != b[j]
  }

  lemma ListTail(next: seq<Ref>, head: Ref, nodes: seq<nat>)
    requires IsList(next, head, nodes) && nodes != []
    ensures head == At(nodes[0]) && nodes[0] < |next| && IsList(next, next[nodes[0]], nodes[1..])
  {
  }

  lemma NoList(next: seq<Ref>)
    ensures IsList(next, Null, [])
    ensures forall nodes :: Disjoint([], nodes)
  {
  }

  lemma HeadOfList(next: seq<Ref>, head: Ref, nodes: seq<nat>)
    requires IsList(next, head, nodes)
    ensures head == Head(nodes)
  {
  }

  lemma ListDrop(next: seq<Ref>, nodes: seq<nat>, k: nat)
    requires IsList(next, Head(nodes), nodes) && k <= |nodes|
    ensures IsList(next, Head(nodes[k..]), nodes[k..])
  {
  }

  lemma Unaffected(next: seq<Ref>, head: Ref, nodes: seq<nat>, x: nat, r: Ref)
    requires IsList(next, head, nodes) && x < |next| && Disjoint([x], nodes)
    ensures IsList(next[x := r], head, nodes)
  {
    assert forall i | 0 <= i < |nodes| :: [x][0] != nodes[i];
  }

  lemma ConsList(next: seq<Ref>, x: nat, nodes: seq<nat>)
    requires IsList(next, Head(nodes), nodes) && x < |next| && Disjoint([x], nodes) && next[x] == Head(nodes)
    ensures IsList(next, At(x), [x] + nodes)
  {
    var all := [x] + nodes;
    assert forall i | 0 <= i < |nodes| :: [x][0] != nodes[i];
    assert forall i | 1 <= i < |all| :: all[i] == nodes[i - 1] && x != nodes[i - 1];
    assert Distinct(all);
    assert InHeap(next, all);
    forall i | 0 <= i < |all| - 1 ensures next[all[i]] == At(all[i + 1]) {
      if i > 0 {
        assert next[nodes[i - 1]] == At(nodes[i]);
      }
    }
  }

  lemma DisjointSplit(done: seq<nat>, rest: seq<nat>)
    requires Disjoint(done, rest) && Distinct(rest) && rest != []
    ensures Disjoint([rest[0]], done) && Disjoint([rest[0]], rest[1..]) && Disjoint([rest[0]] + done, rest[1..])
  {
  }

  /** One turn of core_list_reverse. */
  lemma ReverseStep(next: seq<Ref>, done: seq<nat>, rest: seq<nat>, next': seq<Ref>)
    requires IsList(next, Head(done), done) && IsList(next, Head(rest), rest) && Disjoint(done, rest)
    requires rest != [] && rest[0] < |next| && next' == next[rest[0] := Head(done)]
    ensures IsList(next', At(rest[0]), [rest[0]] + done) && IsList(next', next[rest[0]], rest[1..])
    ensures Disjoint([rest[0]] + done, rest[1..])
    ensures Reverse(rest) + done == Reverse(rest[1..]) + ([rest[0]] + done)
  {
    DisjointSplit(done, rest);
    ListTail(next, Head(rest), rest);
    hide IsList, Disjoint;
    Unaffected(next, Head(done), done, rest[0], Head(done));
    Unaffected(next, next[rest[0]], rest[1..], rest[0], Head(done));
    ConsList(next', rest[0], done);
  }

  lemma ReverseEnds(nodes: seq<nat>, done: seq<nat>)
    ensures Reverse(nodes) + [] == Reverse(nodes)
    ensures Reverse([]) + done == done
  {
  }

  /** Where the i-th node of the promoted list was. */
  function PromoteIndex(k: nat, i: nat): nat {
    if i == 0 then 0 else if i == 1 then k + 1 else if i <= k + 1 then i - 1 else i
  }

  lemma PromoteAt(nodes: seq<nat>, k: nat, i: nat)
    requires k + 1 < |nodes| && i < |nodes|
    ensures PromoteIndex(k, i) < |nodes| && Promote(nodes, k)[i] == nodes[PromoteIndex(k, i)]
  {
  }

  lemma PromoteDistinct(nodes: seq<nat>, k: nat)
    requires Distinct(nodes) && k + 1 < |nodes|
    ensures Distinct(Promote(nodes, k))
  {
    var out := Promote(nodes, k);
    forall i, j | 0 <= i < j < |out| ensures out[i] != out[j] {
      PromoteAt(nodes, k, i);
      PromoteAt(nodes, k, j);
    }
  }

  /** The heap after the three assignments that move the node behind position k. */
  ghost predicate Promoted(next: seq<Ref>, nodes: seq<nat>, k: nat, next': seq<Ref>)
    requires InHeap(next, nodes) && k + 1 < |nodes|
  {
    && |next'| == |next|
    && (forall x | 0 <= x < |next| && x != nodes[k] && x != nodes[k + 1] && x != nodes[0] :: next'[x] == next[x])
    && next'[nodes[0]] == At(nodes[k + 1])
    && next'[nodes[k + 1]] == (if k == 0 then next[nodes[k + 1]] else next[nodes[0]])
    && (k != 0 ==> next'[nodes[k]] == next[nodes[k + 1]])
  }

  lemma ThreeAssignments(next: seq<Ref>, nodes: seq<nat>, k: nat, next1: seq<Ref>, next2: seq<Ref>, next3: seq<Ref>)
    requires InHeap(next, nodes) && Distinct(nodes) && k + 1 < |nodes|
    requires next1 == next[nodes[k] := next[nodes[k + 1]]]
    requires next2 == next1[nodes[k + 1] := next1[nodes[0]]]
    requires next3 == next2[nodes[0] := At(nodes[k + 1])]
    ensures Promoted(next, nodes, k, next3)
  {
    assert nodes[k] != nodes[k + 1] && nodes[0] != nodes[k + 1] && (k != 0 ==> nodes[0] != nodes[k]);
  }

  lemma PromotedNext(next: seq<Ref>, nodes: seq<nat>, k: nat, next': seq<Ref>, j: nat)
    requires Distinct(nodes) && Linked(next, nodes) && Ends(next, nodes)
    requires k + 1 < |nodes| && j < |nodes| && Promoted(next, nodes, k, next')
    ensures next'[nodes[j]] == if j == 0 then At(nodes[k + 1])
                               else if j == k + 1 then (if k == 0 then (if k + 2 < |nodes| then At(nodes[k + 2]) else Null) else At(nodes[1]))
                               else if j == k then (if k + 2 < |nodes| then At(nodes[k + 2]) else Null)
                               else if j + 1 < |nodes| then At(nodes[j + 1]) else Null
  {
    if j != 0 && j != k && j != k + 1 {
      assert nodes[j] != nodes[0] && nodes[j] != nodes[k] && nodes[j] != nodes[k + 1];
    }
  }

  /** Moving the node behind position k to the place behind the head. */
  lemma PromoteLinks(next: seq<Ref>, nodes: seq<nat>, k: nat, next': seq<Ref>)
    requires IsList(next, Head(nodes), nodes) && k + 1 < |nodes| && Promoted(next, nodes, k, next')
    ensures IsList(next', Head(nodes), Promote(nodes, k))
  {
    hide Promoted, Promote;
    var out := Promote(nodes, k);
    PromoteDistinct(nodes, k);
    forall i | 0 <= i < |out| ensures out[i] == nodes[PromoteIndex(k, i)] {
      PromoteAt(nodes, k, i);
    }
    assert |next'| == |next| by {
      PromotedSize(next, nodes, k, next');
    }
    assert InHeap(next', out);
    forall i | 0 <= i < |out| - 1 ensures next'[out[i]] == At(out[i + 1]) {
      PromotedNext(next, nodes, k, next', PromoteIndex(k, i));
    }
    PromotedNext(next, nodes, k, next', PromoteIndex(k, |out| - 1));
  }

  lemma PromotedSize(next: seq<Ref>, nodes: seq<nat>, k: nat, next': seq<Ref>)
    requires InHeap(next, nodes) && k + 1 < |nodes| && Promoted(next, nodes, k, next')
    ensures |next'| == |next|
  {
  }

  /** core_list_remove(nodes[1]). */
  lemma RemoveLinks(next: seq<Ref>, nodes: seq<nat>, next1: seq<Ref>, next2: seq<Ref>)
    requires IsList(next, Head(nodes), nodes) && |nodes| >= 3
    requires next1 == next[nodes[1] := next[nodes[2]]] && next2 == next1[nodes[2] := Null]
    ensures IsList(next2, Head(nodes), RemoveNodes(nodes))
  {
    var out := RemoveNodes(nodes);
    assert forall i | 0 <= i < |out| :: out[i] == if i < 2 then nodes[i] else nodes[i + 1];
  }

  /** core_list_undo_remove(removed, nodes[1]). */
  lemma UndoLinks(next: seq<Ref>, nodes: seq<nat>, removed: nat, next1: seq<Ref>, next2: seq<Ref>)
    requires IsList(next, Head(nodes), nodes) && |nodes| >= 2
    requires removed < |next| && forall i | 0 <= i < |nodes| :: nodes[i] != removed
    requires next1 == next[removed := next[nodes[1]]] && next2 == next1[nodes[1] := At(removed)]
    ensures IsList(next2, Head(nodes), UndoNodes(nodes, removed))
  {
    var out := UndoNodes(nodes, removed);
    assert forall i | 0 <= i < |out| :: out[i] == if i < 2 then nodes[i] else if i == 2 then removed else nodes[i - 1];
  }

  // ------------------------------------------------------------------
  // The merge
  // ------------------------------------------------------------------

  /** Inside a pass: the nodes already merged, what is left of the first run, and the
      chain that starts at q. */
  ghost predicate Merging(next: seq<Ref>, list: Ref, tail: Ref, done: seq<nat>, p: seq<nat>, chain: seq<nat>) {
    && Distinct(done) && Distinct(p) && Disjoint(done, p) && Disjoint(done, chain) && Disjoint(p, chain)
    && Linked(next, done) && Linked(next, p)
    && IsList(next, Head(chain), chain)
    && list == Head(done) && tail == if done == [] then Null else At(done[|done| - 1])
  }

  /** The heap after appending e to the merged nodes. */
  function Append(next: seq<Ref>, tail: Ref, e: nat): seq<Ref>
    requires tail.At? ==> tail.node < |next|
  {
    if tail.At? then next[tail.node := At(e)] else next
  }

  lemma TakeFromP(next: seq<Ref>, list: Ref, tail: Ref, done: seq<nat>, p: seq<nat>, chain: seq<nat>)
    requires Merging(next, list, tail, done, p, chain) && p != []
    ensures p[0] < |next| && (tail.At? ==> tail.node < |next|)
    ensures |p| > 1 ==> next[p[0]] == At(p[1])
    ensures Merging(Append(next, tail, p[0]), if tail.At? then list else At(p[0]), At(p[0]), done + [p[0]], p[1..], chain)
  {
    var next', done' := Append(next, tail, p[0]), done + [p[0]];
    assert forall i | 0 <= i < |p| - 1 :: p[1..][i] == p[i + 1];
    assert Linked(next', p[1..]);
    assert IsList(next', Head(chain), chain);
    assert Linked(next', done');
  }

  lemma TakeFromChain(next: seq<Ref>, list: Ref, tail: Ref, done: seq<nat>, p: seq<nat>, chain: seq<nat>)
    requires Merging(next, list, tail, done, p, chain) && chain != []
    ensures tail.At? ==> tail.node < |next|
    ensures chain[0] < |next| && next[chain[0]] == Head(chain[1..])
    ensures Merging(Append(next, tail, chain[0]), if tail.At? then list else At(chain[0]), At(chain[0]),
                    done + [chain[0]], p, chain[1..])
  {
    ListTail(next, Head(chain), chain);
    var next', done', rest := Append(next, tail, chain[0]), done + [chain[0]], chain[1..];
    assert IsList(next', Head(rest), rest);
    assert Linked(next', p);
    assert Linked(next', done');
  }

  /** A run of psize nodes is split off a chain. */
  lemma StartMerge(next: seq<Ref>, list: Ref, tail: Ref, done: seq<nat>, chain: seq<nat>, n: nat)
    requires Merging(next, list, tail, done, [], chain) && n <= |chain|
    ensures Merging(next, list, tail, done, chain[..n], chain[n..])
  {
    ListDrop(next, chain, n);
  }

  lemma EndPass(next: seq<Ref>, list: Ref, tail: Ref, done: seq<nat>)
    requires Merging(next, list, tail, done, [], []) && done != []
    ensures tail.At? && tail.node < |next| && IsList(next[tail.node := Null], list, done)
  {
  }

  lemma StartPass(next: seq<Ref>, head: Ref, nodes: seq<nat>)
    requires IsList(next, head, nodes)
    ensures Merging(next, Null, Null, [], [], nodes)
  {
  }
}
