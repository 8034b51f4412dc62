/**
 The dictionary of chat/utils/dictionary.c: a tree of reference-counted entries linked by pointers, with
 a sentinel entry of key "" at its head. Every operation runs under the dictionary's lock, so it is
 modelled as one step.
 */
module Dictionaries {
  import opened Wrappers
  import opened Shapes
  import opened Counting
  import opened Removal
  import opened KeyTrees

  /** Between operations an entry is referenced once, by its parent or by the dictionary. */
  ghost predicate Settled<V>(nodes: set<Entry<V>>)
    reads nodes
  {
    forall e :: e in nodes ==> e.retainCount == 1 && !e.isZombie && e.freed == 0
  }

  ghost function Keys<V>(nodes: set<Entry<V>>): set<string> { set e | e in nodes :: e.key }

  /** The entries hold exactly these bindings. */
  ghost predicate Binds<V>(nodes: set<Entry<V>>, contents: map<string, Option<V>>)
    reads nodes`value
  {
    && (forall e :: e in nodes ==> e.key in contents && contents[e.key] == e.value)
    && contents.Keys == Keys(nodes)
  }

  /** One step of a search down to the side where key belongs. */
  lemma StepDown<V>(t: Shape<V>, x: Entry<V>, key: string, down: Shape<V>)
    requires Apart(t) && Ordered(t) && x in Entries(t) && Fits(t, x, key) && x.key != key
    requires Sub(t, x).Node?
    requires down == if Compare(x.key, key) < 0 then Sub(t, x).left else Sub(t, x).right
    ensures down.Node? ==>
      && down.entry in Entries(t) && Fits(t, down.entry, key) && Sub(t, down.entry) == down
      && down < Sub(t, x)
    ensures down.Nil? ==> forall e :: e in Entries(t) ==> e.key != key
  {
    SubPart(t, x);
    CompareIsOrder(x.key, key);
    if down.Node? {
      SubOfSub(t, x, down.entry);
    } else {
      forall e | e in Entries(t) && e.key == key ensures false {
        SearchFinds(t, x, e);
      }
    }
  }

  /** What the entry x tells a search for key: x holds it, or the child on the other side of the
      comparison is where to look, or nothing holds it. */
  lemma Look<V>(t: Shape<V>, nodes: set<Entry<V>>, contents: map<string, Option<V>>, x: Entry<V>, key: string)
    requires Apart(t) && Ordered(t) && Linked(t) && nodes == Entries(t) && Binds(nodes, contents)
    requires x in Entries(t) && Fits(t, x, key)
    ensures Sub(t, x).Node? && (Compare(x.key, key) == 0 <==> x.key == key)
    ensures x.leftEntry == Root(Sub(t, x).left) && x.rightEntry == Root(Sub(t, x).right)
    ensures x.key == key ==> key in contents && contents[key] == x.value
    ensures
      var down := if Compare(x.key, key) < 0 then Sub(t, x).left else Sub(t, x).right;
      && (x.key != key && down.Node? ==>
            && down.entry in Entries(t) && Fits(t, down.entry, key) && Sub(t, down.entry) == down
            && down < Sub(t, x))
      && (x.key != key && down.Nil? ==> key !in contents)
  {
    SubPart(t, x);
    CompareIsOrder(x.key, key);
    if x.key != key {
      StepDown(t, x, key, if Compare(x.key, key) < 0 then Sub(t, x).left else Sub(t, x).right);
    }
  }

  lemma KeysGrow<V>(nodes: set<Entry<V>>, e: Entry<V>)
    ensures Keys(nodes + {e}) == Keys(nodes) + {e.key}
  {}

  /** The new leaf's links. */
  lemma LinkedGrew<V>(t: Shape<V>, x: Entry<V>, e: Entry<V>)
    requires CanGrow(t, x, e)
    requires forall y :: y in Entries(t) ==>
      && y.leftEntry == (if y == x && Compare(x.key, e.key) < 0 then e else LeftOf(t, y))
      && y.rightEntry == (if y == x && Compare(x.key, e.key) > 0 then e else RightOf(t, y))
    requires e.leftEntry == null && e.rightEntry == null
    ensures Linked(Grew(t, x, e))
  {
    hide Compare;
    GrowGood(t, x, e);
    forall y | y in Entries(Grew(t, x, e))
      ensures y.leftEntry == LeftOf(Grew(t, x, e), y) && y.rightEntry == RightOf(Grew(t, x, e), y)
    {
      GrowLinks(t, x, e, y);
    }
  }

  lemma BindsGrew<V>(nodes: set<Entry<V>>, contents: map<string, Option<V>>, e: Entry<V>)
    requires Binds(nodes, contents) && e.key !in contents
    ensures Binds(nodes + {e}, contents[e.key := e.value])
  {
    KeysGrow(nodes, e);
  }

  /** A part of a linked tree is linked. */
  lemma LinkedPart<V>(t: Shape<V>, p: Entry<V>, x: Entry<V>)
    requires CanPrune(t, p, x) && Linked(t)
    ensures Linked(Sub(t, x))
    ensures p.leftEntry == x || p.rightEntry == x
  {
    hide Compare;
    PruneePart(t, p, x);
  }

  /** The links after unlinking x from p are those of the tree without x. */
  lemma LinkedWithout<V>(t: Shape<V>, p: Entry<V>, x: Entry<V>)
    requires CanPrune(t, p, x)
    requires
      var xs := Sub(t, x);
      xs.Node? && forall y :: y in Entries(t) && y != x ==>
        && y.leftEntry ==
             (if y == p && LeftOf(t, p) == x then Root(Join(xs.left, xs.right))
              else if BothChildren(xs) && y == Leftmost(xs.right) then Root(xs.left)
              else LeftOf(t, y))
        && y.rightEntry ==
             (if y == p && LeftOf(t, p) != x then Root(Join(xs.left, xs.right)) else RightOf(t, y))
    ensures Linked(Without(t, p, x))
  {
    hide Compare, Sub, Apart, Ordered, Join;
    PruneGood(t, p, x);
    forall y | y in Entries(Without(t, p, x))
      ensures y.leftEntry == LeftOf(Without(t, p, x), y) && y.rightEntry == RightOf(Without(t, p, x), y)
    {
      PruneLinks(t, p, x, y);
    }
  }

  lemma BindsShrink<V>(t: Shape<V>, contents: map<string, Option<V>>, x: Entry<V>)
    requires Ordered(t) && Binds(Entries(t), contents) && x in Entries(t)
    ensures Binds(Entries(t) - {x}, contents - {x.key})
  {
    forall e | e in Entries(t) && e.key == x.key ensures e == x { KeysDiffer(t, e, x); }
    KeysShrink(Entries(t), x);
  }

  lemma KeysShrink<V>(nodes: set<Entry<V>>, x: Entry<V>)
    requires x in nodes && forall e :: e in nodes && e.key == x.key ==> e == x
    ensures Keys(nodes - {x}) == Keys(nodes) - {x.key}
  {
    forall key | key in Keys(nodes) && key != x.key ensures key in Keys(nodes - {x}) {
      var e :| e in nodes && e.key == key;
      assert e in nodes - {x};
    }
  }

  lemma Absent<V>(t: Shape<V>, nodes: set<Entry<V>>, contents: map<string, Option<V>>, key: string)
    requires nodes == Entries(t) && Binds(nodes, contents) && key !in contents
    ensures contents - {key} == contents && Uprooted(TreeOf(t), key) == TreeOf(t)
  {
    AbsentIsUprooted(t, key);
  }

  class Dictionary<V> {
    var headEntry: Entry<V>
    ghost var shape: Shape<V>
    ghost var nodes: set<Entry<V>>
    /** The bindings, the sentinel's included. */
    ghost var contents: map<string, Option<V>>

    ghost predicate Valid()
      reads this, nodes
    {
      && nodes == Entries(shape)
      && headEntry == Root(shape) && headEntry.key == ""
      && Apart(shape) && Ordered(shape) && Linked(shape) && Settled(nodes) && Binds(nodes, contents)
    }

    /** DictionaryCreate */
    constructor ()
      ensures Valid() && fresh(nodes)
      ensures contents == map["" := None] && TreeOf(shape) == SENTINEL
    {
      var head := new Entry("", None);
      headEntry := head;
      shape, nodes := Node(Nil, head, Nil), {head};
      contents := map["" := None];
    }

    /** DictionaryGet; None is NULL. */
    method Get(key: string) returns (value: Option<V>)
      requires Valid()
      ensures value == if key in contents then contents[key] else None
    {
      var entry: Entry?<V> := headEntry;
      value := None;
      ghost var sub := shape;
      while entry != null
        invariant Valid() && entry == Root(sub)
        invariant entry != null ==> entry in Entries(shape) && Fits(shape, entry, key) && sub == Sub(shape, entry)
        invariant entry == null ==> key !in contents
        invariant value == None
        decreases sub
      {
        Look(shape, nodes, contents, entry, key);
        var cmp := Compare(entry.key, key);
        if cmp == 0 {
          value := entry.value;
          break;
        } else if cmp < 0 {
          entry := entry.leftEntry;
          sub := sub.left;
        } else {
          entry := entry.rightEntry;
          sub := sub.right;
        }
      }
    }

    /** DictionarySet */
    method Set(key: string, value: Option<V>)
      requires Valid()
      modifies this, nodes
      ensures Valid() && fresh(nodes - old(nodes)) && headEntry == old(headEntry)
      ensures contents == old(contents)[key := value] && TreeOf(shape) == Planted(old(TreeOf(shape)), key)
    {
      hide Compare, Entries, Apart, Ordered, Fits, TreeOf, Planted;
      var entry: Entry<V> := headEntry;
      SearchStarts(shape, key);
      ghost var sub := shape;
      while true
        invariant Valid() && entry == Root(sub)
        invariant contents == old(contents) && nodes == old(nodes) && headEntry == old(headEntry)
        invariant shape == old(shape)
        invariant entry in Entries(shape) && Fits(shape, entry, key) && sub == Sub(shape, entry)
        decreases sub
      {
        Look(shape, nodes, contents, entry, key);
        var cmp := Compare(entry.key, key);
        if cmp == 0 {
          PresentIsPlanted(shape, entry);
          Assign(entry, key, value);
          break;
        } else if cmp < 0 {
          if entry.leftEntry != null {
            entry := entry.leftEntry;
            sub := sub.left;
          } else {
            AddLeaf(entry, key, value);
            break;
          }
        } else {
          if entry.rightEntry != null {
            entry := entry.rightEntry;
            sub := sub.right;
          } else {
            AddLeaf(entry, key, value);
            break;
          }
        }
      }
    }

    /** DictionaryRemove. The empty key is the sentinel's, which has no parent to unlink it from. */
    method Remove(key: string)
      requires Valid() && key != ""
      modifies this, nodes
      ensures Valid() && headEntry == old(headEntry)
      ensures contents == old(contents) - {key} && TreeOf(shape) == Uprooted(old(TreeOf(shape)), key)
      ensures nodes <= old(nodes)
      ensures forall e :: e in old(nodes) ==> e.freed == (if e in nodes then 0 else 1)
    {
      var parent: Entry?<V> := null;
      var entry: Entry<V> := headEntry;
      SearchStarts(shape, key);
      ghost var sub := shape;
      while true
        invariant Valid() && entry == Root(sub)
        invariant contents == old(contents) && nodes == old(nodes) && headEntry == old(headEntry)
        invariant shape == old(shape)
        invariant entry in nodes && Fits(shape, entry, key) && sub == Sub(shape, entry)
        invariant parent == null ==> entry == headEntry
        invariant parent != null ==> CanPrune(shape, parent, entry)
        decreases sub
      {
        Look(shape, nodes, contents, entry, key);
        var cmp := Compare(entry.key, key);
        if cmp == 0 {
          Detach(parent, entry);
          break;
        } else if cmp < 0 {
          if entry.leftEntry != null {
            parent := entry;
            entry := entry.leftEntry;
            sub := sub.left;
          } else {
            Absent(shape, nodes, contents, key);
            break;
          }
        } else {
          if entry.rightEntry != null {
            parent := entry;
            entry := entry.rightEntry;
            sub := sub.right;
          } else {
            Absent(shape, nodes, contents, key);
            break;
          }
        }
      }
    }

    /** The key is present: its entry is unlinked from its parent and deallocated. */
    method Detach(parent: Entry<V>, entry: Entry<V>)
      requires Valid() && CanPrune(shape, parent, entry)
      modifies this`shape, this`nodes, this`contents, nodes
      ensures Valid() && contents == old(contents) - {entry.key}
      ensures TreeOf(shape) == Uprooted(old(TreeOf(shape)), entry.key)
      ensures nodes == old(nodes) - {entry}
      ensures forall e :: e in old(nodes) ==> e.freed == (if e in nodes then 0 else 1)
    {
      hide Compare, Sub, LeftOf, RightOf, Keys, Entries, Apart, Ordered, Fits, Replace, Join, Replaceable;
      hide TreeOf, Uprooted, Binds, Without;
      ghost var t, xs, below := shape, Sub(shape, entry), Entries(Sub(shape, entry));
      PruneGood(t, parent, entry);
      PruneePart(t, parent, entry);
      LinkedPart(t, parent, entry);
      BindsShrink(t, contents, entry);
      WithoutIsUprooted(t, parent, entry);
      Unlink(parent, entry, xs, below);
      LinkedWithout(t, parent, entry);
      assert Settled(nodes - {entry});
      assert forall e :: e in nodes ==> e.freed == if e == entry then 1 else 0;
      hide Settled, Linked;
      shape, nodes, contents := Without(t, parent, entry), nodes - {entry}, contents - {entry.key};
    }

    /** DictionaryDealloc: releasing the head deallocates every entry, each once. */
    method Dealloc()
      requires Valid()
      modifies nodes
      ensures forall e :: e in nodes ==> e.isZombie && e.freed == 1
    {
      FreedAll(shape, {});
      Release(headEntry, shape, nodes, {});
    }

    /** The key is present: only its entry's value changes. */
    method Assign(entry: Entry<V>, key: string, value: Option<V>)
      requires Valid() && entry in Entries(shape) && entry.key == key
      modifies this`contents, entry`value
      ensures Valid() && contents == old(contents)[key := value]
    {
      hide Compare, Sub, Entries, Apart, Ordered;
      entry.value := value;
      contents := contents[key := value];
      forall e | e in Entries(shape) && e.key == key ensures e == entry { KeysDiffer(shape, e, entry); }
    }

    /** The key is absent: a new entry is linked. */
    method AddLeaf(entry: Entry<V>, key: string, value: Option<V>)
      requires Valid() && entry in Entries(shape) && Fits(shape, entry, key) && key !in contents
      requires Sub(shape, entry).Node? && Compare(entry.key, key) != 0
      requires if Compare(entry.key, key) < 0 then Sub(shape, entry).left.Nil? else Sub(shape, entry).right.Nil?
      requires if Compare(entry.key, key) < 0 then entry.leftEntry == null else entry.rightEntry == null
      modifies this`contents, this`shape, this`nodes, entry`leftEntry, entry`rightEntry
      ensures Valid() && contents == old(contents)[key := value]
      ensures TreeOf(shape) == Planted(old(TreeOf(shape)), key)
      ensures fresh(nodes - old(nodes)) && old(nodes) <= nodes
    {
      hide Compare, Sub, LeftOf, RightOf, Keys, Entries, Apart, Ordered, Fits, Replace, TreeOf, Planted;
      ghost var t := shape;
      var e := Attach(entry, key, value);
      GrowGood(t, entry, e);
      GrewIsPlanted(t, entry, e);
      LinkedGrew(t, entry, e);
      BindsGrew(nodes, contents, e);
      shape, nodes, contents := Grew(t, entry, e), nodes + {e}, contents[key := value];
    }
  }

  /** The children of a part that a caller has retained. */
  ghost function Retained<V>(xs: Shape<V>): set<Entry<V>>
    requires xs.Node?
  {
    (if xs.left.Node? then {xs.left.entry} else {}) + (if xs.right.Node? then {xs.right.entry} else {})
  }

  /** Setting the parent's link to the removed entry, the root of xs, to e. The children of the removed
      entry have been retained, so this frees the removed entry and nothing else. */
  method Promote<V>(parent: Entry<V>, entry: Entry<V>, e: Entry?<V>, ghost xs: Shape<V>, ghost nodes: set<Entry<V>>)
    requires xs.Node? && entry == xs.entry && Apart(xs) && Linked(xs) && nodes == Entries(xs)
    requires parent !in nodes && (parent.leftEntry == entry || parent.rightEntry == entry)
    requires forall y :: y in nodes ==>
      y.retainCount == (if y in Retained(xs) then 2 else 1) && !y.isZombie && y.freed == 0
    requires e != null ==> e in Retained(xs)
    modifies parent`leftEntry, parent`rightEntry, nodes`retainCount, nodes`isZombie, nodes`freed
    ensures parent.leftEntry == (if old(parent.leftEntry) == entry then e else old(parent.leftEntry))
    ensures parent.rightEntry == (if old(parent.leftEntry) == entry then old(parent.rightEntry) else e)
    ensures forall y :: y in nodes ==>
      if y == entry then y.isZombie && y.freed == 1
      else y.retainCount == (if y == e then 2 else 1) && !y.isZombie && y.freed == 0
  {
    FreedOne(xs, Retained(xs));
    if parent.leftEntry == entry {
      SetLeftEntry(parent, e, xs, nodes, Retained(xs));
    } else {
      SetRightEntry(parent, e, xs, nodes, Retained(xs));
    }
  }

  /** What unlinking the root of xs leaves of the other entries of xs. */
  ghost predicate Rewired<V>(xs: Shape<V>, y: Entry<V>, left: Entry?<V>)
    reads y
  {
    && y.leftEntry == (if BothChildren(xs) && y == Leftmost(xs.right) then Root(xs.left) else left)
    && y.retainCount == 1 && !y.isZombie && y.freed == 0
  }

  /** Walking to the left-most entry. */
  method FindLeftmost<V>(e: Entry<V>, ghost t: Shape<V>) returns (m: Entry<V>)
    requires t.Node? && t.entry == e && Apart(t) && Linked(t)
    ensures m == Leftmost(t) && m in Entries(t) && m.leftEntry == null
  {
    m := e;
    ghost var sub := t;
    LeftmostInside(t);
    while m.leftEntry != null
      invariant sub.Node? && m == sub.entry && Apart(sub) && Linked(sub) && Leftmost(sub) == Leftmost(t)
      decreases sub
    {
      LinkedParts(sub);
      m := m.leftEntry;
      sub := sub.left;
    }
    LinkedParts(sub);
  }

  /** The retained left child goes below m, and both retained children are released. */
  method HangBelow<V>(m: Entry<V>, left: Entry<V>, right: Entry<V>)
    requires left != right && m != left && m.leftEntry == null
    requires left.retainCount == 1 && !left.isZombie && left.freed == 0
    requires right.retainCount == 2 && !right.isZombie && right.freed == 0
    modifies m`leftEntry
    modifies left`retainCount, left`isZombie, left`freed, right`retainCount, right`isZombie, right`freed
    ensures m.leftEntry == left
    ensures left.retainCount == 1 && !left.isZombie && left.freed == 0
    ensures right.retainCount == 1 && !right.isZombie && right.freed == 0
  {
    SetLeftEntry(m, left, Nil, {}, {});
    ReleaseShared(left);
    ReleaseShared(right);
  }

  /** Both children are retained, and the right one takes the entry's place at the parent. */
  method MoveUp<V>(parent: Entry<V>, entry: Entry<V>, ghost xs: Shape<V>, ghost nodes: set<Entry<V>>)
    returns (left: Entry<V>, right: Entry<V>)
    requires xs.Node? && entry == xs.entry && Apart(xs) && Linked(xs) && nodes == Entries(xs) && Settled(nodes)
    requires parent !in nodes && (parent.leftEntry == entry || parent.rightEntry == entry)
    requires BothChildren(xs)
    modifies parent`leftEntry, parent`rightEntry, nodes`retainCount, nodes`isZombie, nodes`freed
    ensures left == xs.left.entry && right == xs.right.entry
    ensures parent.leftEntry == (if old(parent.leftEntry) == entry then right else old(parent.leftEntry))
    ensures parent.rightEntry == (if old(parent.leftEntry) == entry then old(parent.rightEntry) else right)
    ensures forall y :: y in nodes ==>
      if y == entry then y.isZombie && y.freed == 1
      else y.retainCount == (if y == right then 2 else 1) && !y.isZombie && y.freed == 0
  {
    hide Compare, Sub, Ordered;
    LinkedParts(xs);
    left := Retain(entry.leftEntry);
    right := Retain(entry.rightEntry);
    Promote(parent, entry, right, xs, nodes);
  }

  /** Two children: the right one moves up and the left one goes below its left-most entry. */
  method MoveRightUp<V>(parent: Entry<V>, entry: Entry<V>, ghost xs: Shape<V>, ghost nodes: set<Entry<V>>)
    requires xs.Node? && entry == xs.entry && Apart(xs) && Linked(xs) && nodes == Entries(xs) && Settled(nodes)
    requires parent !in nodes && (parent.leftEntry == entry || parent.rightEntry == entry)
    requires BothChildren(xs)
    modifies parent`leftEntry, parent`rightEntry
    modifies nodes`leftEntry, nodes`retainCount, nodes`isZombie, nodes`freed
    ensures
      var j := Root(Join(xs.left, xs.right));
      && parent.leftEntry == (if old(parent.leftEntry) == entry then j else old(parent.leftEntry))
      && parent.rightEntry == (if old(parent.leftEntry) == entry then old(parent.rightEntry) else j)
    ensures forall y :: y in nodes && y != entry ==> Rewired(xs, y, old(y.leftEntry))
    ensures entry.isZombie && entry.freed == 1
  {
    hide Compare, Sub, Ordered, Settled;
    RightSide(xs);
    hide Join, Leftmost, Apart, Linked, Entries;
    var left, right := MoveUp(parent, entry, xs, nodes);
    var m := FindLeftmost(right, xs.right);
    HangBelow(m, left, right);
  }

  /** Where the entries are that change when the right child moves up. */
  lemma RightSide<V>(xs: Shape<V>)
    requires BothChildren(xs) && Apart(xs) && Linked(xs)
    ensures Root(Join(xs.left, xs.right)) == xs.right.entry
    ensures Apart(xs.right) && Linked(xs.right)
    ensures
      var m, l, r := Leftmost(xs.right), xs.left.entry, xs.right.entry;
      && m in Entries(xs) && l in Entries(xs) && r in Entries(xs)
      && m != xs.entry && l != xs.entry && r != xs.entry && m != l && l != r
  {
    LinkedParts(xs);
    LeftmostInside(xs.right);
  }

  /** The body of DictionaryRemove once the entry is found: the four child cases. */
  method Unlink<V>(parent: Entry<V>, entry: Entry<V>, ghost xs: Shape<V>, ghost nodes: set<Entry<V>>)
    requires xs.Node? && entry == xs.entry && Apart(xs) && Linked(xs) && nodes == Entries(xs) && Settled(nodes)
    requires parent !in nodes && (parent.leftEntry == entry || parent.rightEntry == entry)
    modifies parent`leftEntry, parent`rightEntry
    modifies nodes`leftEntry, nodes`retainCount, nodes`isZombie, nodes`freed
    ensures
      var j := Root(Join(xs.left, xs.right));
      && parent.leftEntry == (if old(parent.leftEntry) == entry then j else old(parent.leftEntry))
      && parent.rightEntry == (if old(parent.leftEntry) == entry then old(parent.rightEntry) else j)
    ensures forall y :: y in nodes && y != entry ==> Rewired(xs, y, old(y.leftEntry))
    ensures entry.isZombie && entry.freed == 1
  {
    hide Compare, Sub, Ordered;
    LinkedParts(xs);
    if entry.leftEntry != null && entry.rightEntry != null {
      MoveRightUp(parent, entry, xs, nodes);
    } else if entry.leftEntry != null {
      var e := Retain(entry.leftEntry);
      Promote(parent, entry, e, xs, nodes);
      ReleaseShared(e);
    } else if entry.rightEntry != null {
      var e := Retain(entry.rightEntry);
      Promote(parent, entry, e, xs, nodes);
      ReleaseShared(e);
    } else {
      Promote(parent, entry, null, xs, nodes);
    }
  }

  /** DictionaryEntryCreate, one of the setters, and the release of the creator's reference. */
  method Attach<V>(entry: Entry<V>, key: string, value: Option<V>) returns (e: Entry<V>)
    requires if Compare(entry.key, key) < 0 then entry.leftEntry == null else entry.rightEntry == null
    modifies entry`leftEntry, entry`rightEntry
    ensures fresh(e) && e.key == key && e.value == value && e.leftEntry == null && e.rightEntry == null
    ensures e.retainCount == 1 && !e.isZombie && e.freed == 0
    ensures entry.leftEntry == if Compare(entry.key, key) < 0 then e else old(entry.leftEntry)
    ensures entry.rightEntry == if Compare(entry.key, key) < 0 then old(entry.rightEntry) else e
  {
    e := new Entry(key, value);
    LeafLinks(e);
    if Compare(entry.key, key) < 0 {
      SetLeftEntry(entry, e, Nil, {}, {});
    } else {
      SetRightEntry(entry, e, Nil, {}, {});
    }
    Release(e, Node(Nil, e, Nil), {e}, {e});
  }
}
