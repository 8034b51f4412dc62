/** What DictionarySet and DictionaryRemove make of the tree shape, and why it stays a search tree. */
module Removal {
  import opened Shapes

  /** The left-most entry below x, along leftEntry. */
  ghost function Leftmost<V>(t: Shape<V>): Entry<V>
    requires t.Node?
  {
    if t.left.Nil? then t.entry else Leftmost(t.left)
  }

  /** left hung below the left-most entry of right. */
  ghost function Hang<V>(right: Shape<V>, left: Shape<V>): Shape<V>
    requires right.Node?
  {
    if right.left.Nil? then Node(left, right.entry, right.right)
    else Node(Hang(right.left, left), right.entry, right.right)
  }

  /** What takes the place of a removed entry with these children. */
  ghost function Join<V>(left: Shape<V>, right: Shape<V>): Shape<V> {
    if right.Nil? then left else if left.Nil? then right else Hang(right, left)
  }

  lemma {:induction false} LeftmostInside<V>(t: Shape<V>)
    requires t.Node?
    ensures Leftmost(t) in Entries(t)
    ensures Apart(t) ==> Sub(t, Leftmost(t)).Node? && Sub(t, Leftmost(t)).left.Nil?
  {
    if t.left.Node? { LeftmostInside(t.left); }
  }

  /** Hanging is a replacement at the left-most entry. */
  lemma {:induction false} HangReplaces<V>(right: Shape<V>, left: Shape<V>)
    requires right.Node? && Apart(right)
    ensures
      var m := Leftmost(right);
      && m in Entries(right) && Sub(right, m).Node?
      && Hang(right, left) == Replace(right, m, Node(left, m, Sub(right, m).right))
  {
    LeftmostInside(right);
    if right.left.Node? {
      LeftmostInside(right.left);
      HangReplaces(right.left, left);
    }
  }

  /** Hanging loses and reorders nothing: left has the greater keys, and goes where they belong. */
  lemma {:induction false} HangGood<V>(right: Shape<V>, left: Shape<V>)
    requires right.Node? && Apart(right) && Apart(left) && Entries(left) !! Entries(right)
    ensures Entries(Hang(right, left)) == Entries(right) + Entries(left) && Apart(Hang(right, left))
    ensures Root(Hang(right, left)) == right.entry
    ensures Ordered(left) && Ordered(right)
      && (forall d, e :: d in Entries(left) && e in Entries(right) ==> Compare(e.key, d.key) < 0)
      ==> Ordered(Hang(right, left))
  {
    if right.left.Node? { HangGood(right.left, left); }
  }

  /** The parts of the joined tree keep their links, except at the left-most entry. */
  lemma HangLinks<V>(right: Shape<V>, left: Shape<V>, e: Entry<V>)
    requires right.Node? && Apart(right) && Apart(left) && Entries(left) !! Entries(right)
    requires e in Entries(Hang(right, left))
    ensures LeftOf(Hang(right, left), e) ==
      if e in Entries(left) then LeftOf(left, e) else if e == Leftmost(right) then Root(left) else LeftOf(right, e)
    ensures RightOf(Hang(right, left), e) == if e in Entries(left) then RightOf(left, e) else RightOf(right, e)
  {
    HangReplaces(right, left);
    LeftmostInside(right);
    var m := Leftmost(right);
    var u := Node(left, m, Sub(right, m).right);
    SubPart(right, m);
    ReplaceLinks(right, m, u, e);
    if e in Entries(u) && e !in Entries(left) && e != m {
      SubOfSub(right, m, e);
    }
  }

  /** Removing the entry at the root of the part at x from the part itself. */
  lemma JoinGood<V>(t: Shape<V>)
    requires t.Node? && Apart(t) && Ordered(t)
    ensures Apart(Join(t.left, t.right)) && Ordered(Join(t.left, t.right))
    ensures Entries(Join(t.left, t.right)) == Entries(t) - {t.entry}
  {
    if t.left.Node? && t.right.Node? {
      forall d, e | d in Entries(t.left) && e in Entries(t.right) ensures Compare(e.key, d.key) < 0 {
        CompareIsOrder(t.entry.key, e.key);
        CompareTransitive(e.key, t.entry.key, d.key);
      }
      HangGood(t.right, t.left);
    }
  }

  /** x with a new leaf e on the side where e belongs. */
  ghost function Grown<V>(sub: Shape<V>, e: Entry<V>): Shape<V>
    requires sub.Node?
  {
    if Compare(sub.entry.key, e.key) < 0 then Node(Node(Nil, e, Nil), sub.entry, sub.right)
    else Node(sub.left, sub.entry, Node(Nil, e, Nil))
  }

  lemma LeafLinks<V>(e: Entry<V>)
    ensures Entries(Node(Nil, e, Nil)) == {e} && Apart(Node(Nil, e, Nil))
    ensures LeftOf(Node(Nil, e, Nil), e) == null && RightOf(Node(Nil, e, Nil), e) == null
  {}

  lemma GrownLinks<V>(sub: Shape<V>, e: Entry<V>, y: Entry<V>)
    requires sub.Node? && Apart(sub) && e !in Entries(sub) && Compare(sub.entry.key, e.key) != 0
    requires if Compare(sub.entry.key, e.key) < 0 then sub.left.Nil? else sub.right.Nil?
    requires y in Entries(Grown(sub, e))
    ensures LeftOf(Grown(sub, e), y) ==
      (if y == sub.entry && Compare(sub.entry.key, e.key) < 0 then e else if y == e then null else LeftOf(sub, y))
    ensures RightOf(Grown(sub, e), y) ==
      (if y == sub.entry && Compare(sub.entry.key, e.key) > 0 then e else if y == e then null else RightOf(sub, y))
  {
    hide Compare;
    LeafLinks(e);
    if Compare(sub.entry.key, e.key) < 0 {
      if y != sub.entry && y != e { assert y in Entries(sub.right); }
    } else {
      if y != sub.entry && y != e { assert y in Entries(sub.left); }
    }
  }

  ghost function Grew<V>(t: Shape<V>, x: Entry<V>, e: Entry<V>): Shape<V>
    requires x in Entries(t)
  {
    SubPart(t, x);
    Replace(t, x, Grown(Sub(t, x), e))
  }

  ghost predicate CanGrow<V>(t: Shape<V>, x: Entry<V>, e: Entry<V>) {
    && Apart(t) && Ordered(t) && x in Entries(t) && e !in Entries(t)
    && Fits(t, x, e.key) && Compare(x.key, e.key) != 0 && Sub(t, x).Node?
    && if Compare(x.key, e.key) < 0 then Sub(t, x).left.Nil? else Sub(t, x).right.Nil?
  }

  lemma GrownGood<V>(sub: Shape<V>, e: Entry<V>)
    requires sub.Node? && Apart(sub) && Ordered(sub) && e !in Entries(sub) && Compare(sub.entry.key, e.key) != 0
    requires if Compare(sub.entry.key, e.key) < 0 then sub.left.Nil? else sub.right.Nil?
    ensures Entries(Grown(sub, e)) == Entries(sub) + {e} && Apart(Grown(sub, e)) && Ordered(Grown(sub, e))
    ensures Root(Grown(sub, e)) == sub.entry
  {
    hide Compare;
  }

  /** A new leaf where the search for its key ended keeps the tree a search tree. */
  lemma GrowGood<V>(t: Shape<V>, x: Entry<V>, e: Entry<V>)
    requires CanGrow(t, x, e)
    ensures Entries(Grew(t, x, e)) == Entries(t) + {e}
    ensures Apart(Grew(t, x, e)) && Ordered(Grew(t, x, e)) && Root(Grew(t, x, e)) == Root(t)
    ensures Replaceable(t, x, Grown(Sub(t, x), e))
  {
    hide Compare, Apart, Ordered, Fits, Grown;
    SubPart(t, x);
    var sub, u := Sub(t, x), Grown(Sub(t, x), e);
    GrownGood(sub, e);
    hide Sub, Entries;
    ReplaceEntries(t, x, u);
    forall d | d in Entries(u) ensures Fits(t, x, d.key) {
      if d != e { SubFits(t, x, d); }
    }
    ReplaceOrdered(t, x, u);
    RootReplaced(t, x, u);
  }

  lemma RootReplaced<V>(t: Shape<V>, x: Entry<V>, u: Shape<V>)
    requires x in Entries(t) && Root(u) == x
    ensures Root(Replace(t, x, u)) == Root(t)
  {}

  lemma GrowLinks<V>(t: Shape<V>, x: Entry<V>, e: Entry<V>, y: Entry<V>)
    requires CanGrow(t, x, e) && y in Entries(Grew(t, x, e))
    ensures LeftOf(Grew(t, x, e), y) ==
      (if y == x && Compare(x.key, e.key) < 0 then e else if y == e then null else LeftOf(t, y))
    ensures RightOf(Grew(t, x, e), y) ==
      (if y == x && Compare(x.key, e.key) > 0 then e else if y == e then null else RightOf(t, y))
  {
    hide Compare;
    GrowGood(t, x, e);
    SubPart(t, x);
    var u := Grown(Sub(t, x), e);
    ReplaceLinks(t, x, u, y);
    if y in Entries(u) {
      GrownLinks(Sub(t, x), e, y);
      if y != e { SubOfSub(t, x, y); }
    }
  }

  // ----- Removal -----

  /** What the part of t at its parent p becomes when the child x goes. */
  ghost function Pruned<V>(part: Shape<V>, x: Entry<V>): Shape<V>
    requires part.Node? && (Root(part.left) == x || Root(part.right) == x)
  {
    if Root(part.left) == x then Node(Join(part.left.left, part.left.right), part.entry, part.right)
    else Node(part.left, part.entry, Join(part.right.left, part.right.right))
  }

  ghost predicate CanPrune<V>(t: Shape<V>, p: Entry<V>, x: Entry<V>) {
    && Apart(t) && Ordered(t) && p in Entries(t) && Sub(t, p).Node?
    && (Root(Sub(t, p).left) == x || Root(Sub(t, p).right) == x)
  }

  ghost function Without<V>(t: Shape<V>, p: Entry<V>, x: Entry<V>): Shape<V>
    requires CanPrune(t, p, x)
  {
    Replace(t, p, Pruned(Sub(t, p), x))
  }

  lemma PrunedGood<V>(part: Shape<V>, x: Entry<V>)
    requires part.Node? && Apart(part) && Ordered(part) && (Root(part.left) == x || Root(part.right) == x)
    ensures Apart(Pruned(part, x)) && Ordered(Pruned(part, x)) && Root(Pruned(part, x)) == part.entry
    ensures Entries(Pruned(part, x)) == Entries(part) - {x}
  {
    hide Compare;
    if Root(part.left) == x { JoinGood(part.left); } else { JoinGood(part.right); }
  }

  /** All four child cases at once: only x leaves, and the rest is a search tree. */
  lemma PruneGood<V>(t: Shape<V>, p: Entry<V>, x: Entry<V>)
    requires CanPrune(t, p, x)
    ensures Replaceable(t, p, Pruned(Sub(t, p), x))
    ensures Entries(Without(t, p, x)) == Entries(t) - {x} && x in Entries(t) && x != p
    ensures Apart(Without(t, p, x)) && Ordered(Without(t, p, x)) && Root(Without(t, p, x)) == Root(t)
  {
    hide Compare;
    SubPart(t, p);
    var u := Pruned(Sub(t, p), x);
    PrunedGood(Sub(t, p), x);
    ReplaceEntries(t, p, u);
    forall d | d in Entries(u) ensures Fits(t, p, d.key) { SubFits(t, p, d); }
    ReplaceOrdered(t, p, u);
  }

  ghost predicate BothChildren<V>(t: Shape<V>) { t.Node? && t.left.Node? && t.right.Node? }

  /** Where the links of the joined children differ from the original ones. */
  lemma JoinLinks<V>(xs: Shape<V>, y: Entry<V>)
    requires xs.Node? && Apart(xs) && y in Entries(Join(xs.left, xs.right))
    ensures LeftOf(Join(xs.left, xs.right), y) ==
      if BothChildren(xs) && y == Leftmost(xs.right) then Root(xs.left) else LeftOf(xs, y)
    ensures RightOf(Join(xs.left, xs.right), y) == RightOf(xs, y)
  {
    if BothChildren(xs) {
      HangLinks(xs.right, xs.left, y);
      HangGood(xs.right, xs.left);
      LeftmostInside(xs.right);
    }
  }

  lemma PrunedLeft<V>(part: Shape<V>, x: Entry<V>, y: Entry<V>)
    requires part.Node? && Apart(part) && Ordered(part) && (Root(part.left) == x || Root(part.right) == x)
    requires y in Entries(Pruned(part, x))
    ensures
      var xs := if Root(part.left) == x then part.left else part.right;
      LeftOf(Pruned(part, x), y) ==
        if y == part.entry && Root(part.left) == x then Root(Join(xs.left, xs.right))
        else if BothChildren(xs) && y == Leftmost(xs.right) then Root(xs.left)
        else LeftOf(part, y)
  {
    hide Compare, RightOf, Leftmost;
    var xs := if Root(part.left) == x then part.left else part.right;
    JoinGood(xs);
    hide Ordered, Join;
    if BothChildren(xs) { LeftmostInside(xs.right); }
    if y in Entries(Join(xs.left, xs.right)) { JoinLinks(xs, y); }
  }

  lemma PrunedRight<V>(part: Shape<V>, x: Entry<V>, y: Entry<V>)
    requires part.Node? && Apart(part) && Ordered(part) && (Root(part.left) == x || Root(part.right) == x)
    requires y in Entries(Pruned(part, x))
    ensures
      var xs := if Root(part.left) == x then part.left else part.right;
      RightOf(Pruned(part, x), y) ==
        if y == part.entry && Root(part.left) != x then Root(Join(xs.left, xs.right)) else RightOf(part, y)
  {
    hide Compare, LeftOf;
    var xs := if Root(part.left) == x then part.left else part.right;
    JoinGood(xs);
    if y in Entries(Join(xs.left, xs.right)) { JoinLinks(xs, y); }
  }

  /** Which links removal changes: the parent's to the removed child, and the left link of the left-most
      entry of the promoted right subtree, which gets the left subtree. */
  lemma PruneLinks<V>(t: Shape<V>, p: Entry<V>, x: Entry<V>, y: Entry<V>)
    requires CanPrune(t, p, x) && y in Entries(Without(t, p, x))
    ensures
      var xs := Sub(t, x);
      && xs.Node?
      && LeftOf(Without(t, p, x), y) ==
           (if y == p && LeftOf(t, p) == x then Root(Join(xs.left, xs.right))
            else if BothChildren(xs) && y == Leftmost(xs.right) then Root(xs.left)
            else LeftOf(t, y))
      && RightOf(Without(t, p, x), y) ==
           (if y == p && LeftOf(t, p) != x then Root(Join(xs.left, xs.right)) else RightOf(t, y))
  {
    hide Compare;
    PruneGood(t, p, x);
    SubPart(t, p);
    var part := Sub(t, p);
    SubOfSub(t, p, x);
    var u := Pruned(part, x);
    ReplaceLinks(t, p, u, y);
    if y in Entries(u) {
      PrunedLeft(part, x, y);
      PrunedRight(part, x, y);
      SubOfSub(t, p, y);
    }
    var xs := Sub(t, x);
    if BothChildren(xs) {
      LeftmostInside(xs.right);
      JoinGood(xs);
    }
  }

  /** The removed child's part of the tree, without its parent. */
  lemma PruneePart<V>(t: Shape<V>, p: Entry<V>, x: Entry<V>)
    requires CanPrune(t, p, x)
    ensures Sub(t, x).Node? && Sub(t, x).entry == x && Apart(Sub(t, x)) && Ordered(Sub(t, x))
    ensures Entries(Sub(t, x)) <= Entries(t) && p !in Entries(Sub(t, x)) && x in Entries(t)
    ensures LeftOf(t, p) == x || RightOf(t, p) == x
    ensures forall y :: y in Entries(Sub(t, x)) ==> Sub(Sub(t, x), y) == Sub(t, y)
    ensures BothChildren(Sub(t, x)) ==> Leftmost(Sub(t, x).right) in Entries(Sub(t, x))
  {
    hide Compare;
    SubPart(t, p);
    SubOfSub(t, p, x);
    SubPart(t, x);
    if BothChildren(Sub(t, x)) { LeftmostInside(Sub(t, x).right); }
    forall y | y in Entries(Sub(t, x)) ensures Sub(Sub(t, x), y) == Sub(t, y) { SubOfSub(t, x, y); }
  }
}
