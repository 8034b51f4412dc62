/**
 Retain and Release (chat/utils/object.c) on dictionary entries, with the recursive deallocation of
 DictionaryEntryDealloc.
 */
module Counting {
  import opened Shapes

  /** The entries' child pointers are those of the shape. */
  ghost predicate Linked<V>(t: Shape<V>)
    reads Entries(t)`leftEntry, Entries(t)`rightEntry
  {
    forall e :: e in Entries(t) ==> e.leftEntry == LeftOf(t, e) && e.rightEntry == RightOf(t, e)
  }

  /** Live objects with at least one reference. */
  ghost predicate Live<V>(t: Shape<V>)
    reads Entries(t)
  {
    forall e :: e in Entries(t) ==> e.retainCount >= 1 && !e.isZombie && e.freed == 0
  }

  /** The entries that releasing the root deallocates, when those in kept have further references. */
  ghost function Freed<V>(t: Shape<V>, kept: set<Entry<V>>): set<Entry<V>> {
    if t.Nil? || t.entry in kept then {} else Freed(t.left, kept) + {t.entry} + Freed(t.right, kept)
  }

  /** The entries that lose a reference. */
  ghost function Touched<V>(t: Shape<V>, kept: set<Entry<V>>): set<Entry<V>> {
    if t.Nil? then {}
    else if t.entry in kept then {t.entry}
    else Touched(t.left, kept) + {t.entry} + Touched(t.right, kept)
  }

  lemma {:induction false} FreedInside<V>(t: Shape<V>, kept: set<Entry<V>>)
    ensures Freed(t, kept) <= Touched(t, kept) <= Entries(t)
    ensures Freed(t, kept) !! kept
  {
    if t.Node? {
      FreedInside(t.left, kept);
      FreedInside(t.right, kept);
    }
  }

  /** When the children have further references, releasing the parent frees only the parent. */
  lemma FreedOne<V>(t: Shape<V>, kept: set<Entry<V>>)
    requires t.Node? && t.entry !in kept
    requires (t.left.Node? ==> t.left.entry in kept) && (t.right.Node? ==> t.right.entry in kept)
    ensures Freed(t, kept) == {t.entry}
    ensures forall x :: x in Touched(t, kept) <==> x == t.entry || x == Root(t.left) || x == Root(t.right)
  {}

  /** With no other references, releasing the root deallocates everything. */
  lemma {:induction false} FreedAll<V>(t: Shape<V>, kept: set<Entry<V>>)
    requires kept !! Entries(t)
    ensures Freed(t, kept) == Touched(t, kept) == Entries(t)
  {
    if t.Node? {
      FreedAll(t.left, kept);
      FreedAll(t.right, kept);
    }
  }

  /** _Retain; its assertion is the one of the source. */
  method Retain<V>(e: Entry?<V>) returns (r: Entry?<V>)
    requires e != null ==> e.retainCount >= 1
    modifies if e == null then {} else {e}`retainCount
    ensures r == e
    ensures e != null ==> e.retainCount == old(e.retainCount) + 1
  {
    if e != null {
      e.retainCount := e.retainCount + 1;
      assert e.retainCount > 1;
    }
    r := e;
  }

  lemma LinkedParts<V>(t: Shape<V>)
    requires t.Node? && Apart(t) && Linked(t)
    ensures Linked(t.left) && Linked(t.right)
    ensures t.entry.leftEntry == Root(t.left) && t.entry.rightEntry == Root(t.right)
  {}

  /** _Release of the root of t, with DictionaryEntryDealloc as its Dealloc; the assertions are those of
      the source. An entry that this deallocates is freed once, and one that is kept by another reference
      only loses this one. */
  method Release<V>(e: Entry?<V>, ghost t: Shape<V>, ghost nodes: set<Entry<V>>, ghost kept: set<Entry<V>>)
    requires e == Root(t) && Apart(t) && Live(t) && nodes == Entries(t)
    requires e != null && e !in kept ==> Linked(t)
    requires forall x :: x in Entries(t) ==> (x in kept <==> x.retainCount > 1)
    modifies nodes`retainCount, nodes`isZombie, nodes`freed
    ensures forall x :: x in nodes ==>
      && x.retainCount == old(x.retainCount) - (if x in Touched(t, kept) then 1 else 0)
      && (x.isZombie <==> x in Freed(t, kept))
      && x.freed == if x in Freed(t, kept) then 1 else 0
    decreases t
  {
    if e == null { return; }
    assert !e.isZombie;
    e.retainCount := e.retainCount - 1;
    assert e.retainCount >= 0;
    FreedInside(t.left, kept);
    FreedInside(t.right, kept);
    if e.retainCount == 0 {
      e.isZombie := true;
      LinkedParts(t);
      Release(e.leftEntry, t.left, Entries(t.left), kept);
      Release(e.rightEntry, t.right, Entries(t.right), kept);
      e.freed := e.freed + 1;
    }
  }

  /** Releasing a reference that is not the last one. */
  method ReleaseShared<V>(e: Entry<V>)
    requires e.retainCount > 1 && !e.isZombie && e.freed == 0
    modifies e`retainCount, e`isZombie, e`freed
    ensures e.retainCount == old(e.retainCount) - 1 && !e.isZombie && e.freed == 0
  {
    Release(e, Node(Nil, e, Nil), {e}, {e});
  }

  /** DictionaryEntrySetLeftEntry: release the old child, whose part of the tree is t, and retain the
      new one. */
  method SetLeftEntry<V>(entry: Entry<V>, left: Entry?<V>, ghost t: Shape<V>, ghost nodes: set<Entry<V>>,
                         ghost kept: set<Entry<V>>)
    requires entry !in Entries(t) && left != entry
    requires entry.leftEntry == Root(t) && Apart(t) && Linked(t) && Live(t) && nodes == Entries(t)
    requires forall x :: x in Entries(t) ==> (x in kept <==> x.retainCount > 1)
    requires left != null ==> left.retainCount >= 1 && (left in Entries(t) ==> left in kept)
    modifies entry`leftEntry, nodes`retainCount, nodes`isZombie, nodes`freed
    modifies if left == null then {} else {left}`retainCount
    ensures entry.leftEntry == left
    ensures forall x :: x in nodes ==>
      && x.retainCount ==
           old(x.retainCount) - (if x in Touched(t, kept) then 1 else 0) + (if x == left then 1 else 0)
      && (x.isZombie <==> x in Freed(t, kept))
      && x.freed == if x in Freed(t, kept) then 1 else 0
    ensures left != null && left !in nodes ==> left.retainCount == old(left.retainCount) + 1
  {
    FreedInside(t, kept);
    Release(entry.leftEntry, t, nodes, kept);
    entry.leftEntry := Retain(left);
  }

  /** DictionaryEntrySetRightEntry */
  method SetRightEntry<V>(entry: Entry<V>, right: Entry?<V>, ghost t: Shape<V>, ghost nodes: set<Entry<V>>,
                          ghost kept: set<Entry<V>>)
    requires entry !in Entries(t) && right != entry
    requires entry.rightEntry == Root(t) && Apart(t) && Linked(t) && Live(t) && nodes == Entries(t)
    requires forall x :: x in Entries(t) ==> (x in kept <==> x.retainCount > 1)
    requires right != null ==> right.retainCount >= 1 && (right in Entries(t) ==> right in kept)
    modifies entry`rightEntry, nodes`retainCount, nodes`isZombie, nodes`freed
    modifies if right == null then {} else {right}`retainCount
    ensures entry.rightEntry == right
    ensures forall x :: x in nodes ==>
      && x.retainCount ==
           old(x.retainCount) - (if x in Touched(t, kept) then 1 else 0) + (if x == right then 1 else 0)
      && (x.isZombie <==> x in Freed(t, kept))
      && x.freed == if x in Freed(t, kept) then 1 else 0
    ensures right != null && right !in nodes ==> right.retainCount == old(right.retainCount) + 1
  {
    FreedInside(t, kept);
    Release(entry.rightEntry, t, nodes, kept);
    entry.rightEntry := Retain(right);
  }
}
