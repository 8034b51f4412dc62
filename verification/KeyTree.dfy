/** The keys of a dictionary's tree without the entry objects: what insertion and removal make of them,
    the order in which they are visited, and how many entries wait at once during a visit. */
module KeyTrees {
  import opened Shapes
  import opened Removal

  datatype Tree = Leaf | Branch(left: Tree, key: string, right: Tree)

  /** The tree of an empty dictionary: the sentinel alone. */
  const SENTINEL := Branch(Leaf, "", Leaf)

  ghost function TreeOf<V>(t: Shape<V>): Tree {
    if t.Nil? then Leaf else Branch(TreeOf(t.left), t.entry.key, TreeOf(t.right))
  }

  /** DictionarySet: a new key becomes a leaf where the search for it ends. */
  function Planted(t: Tree, key: string): Tree {
    if t.Leaf? then Branch(Leaf, key, Leaf)
    else if Compare(t.key, key) == 0 then t
    else if Compare(t.key, key) < 0 then t.(left := Planted(t.left, key))
    else t.(right := Planted(t.right, key))
  }

  /** left hung below the left-most key of right. */
  function Hung(right: Tree, left: Tree): Tree {
    if right.Leaf? then left else right.(left := Hung(right.left, left))
  }

  /** DictionaryRemove: the right subtree moves up, and the left one hangs below its left-most key. */
  function Uprooted(t: Tree, key: string): Tree {
    if t.Leaf? then t
    else if Compare(t.key, key) == 0 then Hung(t.right, t.left)
    else if Compare(t.key, key) < 0 then t.(left := Uprooted(t.left, key))
    else t.(right := Uprooted(t.right, key))
  }

  /** The order of the iterator: a key, then what is right of it, then what is left of it. */
  function Order(t: Tree): seq<string> {
    if t.Leaf? then [] else [t.key] + Order(t.right) + Order(t.left)
  }

  /** The most entries that wait on the iterator's stack at once while it visits t. */
  function Peak(t: Tree): nat {
    if t.Leaf? then 0 else Max(1, Max(Peak(t.left), Waiting(t.left) + Peak(t.right)))
  }

  function Max(a: nat, b: nat): nat { if a < b then b else a }

  /** A left subtree waits below while the right one is visited. */
  function Waiting(t: Tree): nat { if t.Leaf? then 0 else 1 }

  // ----- The entries' tree follows -----

  lemma {:induction false} GrewIsPlanted<V>(t: Shape<V>, x: Entry<V>, e: Entry<V>)
    requires CanGrow(t, x, e)
    ensures TreeOf(Grew(t, x, e)) == Planted(TreeOf(t), e.key)
  {
    SubPart(t, x);
    if t.entry != x {
      if x in Entries(t.left) {
        GrewIsPlanted(t.left, x, e);
      } else {
        GrewIsPlanted(t.right, x, e);
      }
    }
  }

  lemma {:induction false} PresentIsPlanted<V>(t: Shape<V>, x: Entry<V>)
    requires x in Entries(t) && Fits(t, x, x.key)
    ensures Planted(TreeOf(t), x.key) == TreeOf(t)
  {
    CompareIsOrder(t.entry.key, x.key);
    if t.entry != x {
      if x in Entries(t.left) { PresentIsPlanted(t.left, x); } else { PresentIsPlanted(t.right, x); }
    }
  }

  lemma {:induction false} HangIsHung<V>(right: Shape<V>, left: Shape<V>)
    requires right.Node?
    ensures TreeOf(Hang(right, left)) == Hung(TreeOf(right), TreeOf(left))
  {
    if right.left.Node? { HangIsHung(right.left, left); }
  }

  lemma JoinIsHung<V>(left: Shape<V>, right: Shape<V>)
    ensures TreeOf(Join(left, right)) == Hung(TreeOf(right), TreeOf(left))
  {
    if right.Node? {
      if left.Nil? { HungNothing(TreeOf(right)); } else { HangIsHung(right, left); }
    }
  }

  lemma {:induction false} HungNothing(right: Tree)
    ensures Hung(right, Leaf) == right
  {
    if right.Branch? { HungNothing(right.left); }
  }

  lemma {:induction false} WithoutIsUprooted<V>(t: Shape<V>, p: Entry<V>, x: Entry<V>)
    requires CanPrune(t, p, x)
    ensures TreeOf(Without(t, p, x)) == Uprooted(TreeOf(t), x.key)
  {
    SubPart(t, p);
    CompareIsOrder(x.key, x.key);
    if t.entry == p {
      if Root(t.left) == x { JoinIsHung(t.left.left, t.left.right); } else { JoinIsHung(t.right.left, t.right.right); }
    } else if p in Entries(t.left) {
      SubPart(t.left, p);
      WithoutIsUprooted(t.left, p, x);
    } else {
      SubPart(t.right, p);
      WithoutIsUprooted(t.right, p, x);
    }
  }

  lemma {:induction false} AbsentIsUprooted<V>(t: Shape<V>, key: string)
    requires forall e :: e in Entries(t) ==> e.key != key
    ensures Uprooted(TreeOf(t), key) == TreeOf(t)
  {
    if t.Node? {
      CompareIsOrder(t.entry.key, key);
      AbsentIsUprooted(t.left, key);
      AbsentIsUprooted(t.right, key);
    }
  }

  // ----- Inserting and removing -----

  /** A search for key ends at a leaf. */
  predicate Missing(t: Tree, key: string) {
    t.Leaf? ||
    (Compare(t.key, key) != 0 && if Compare(t.key, key) < 0 then Missing(t.left, key) else Missing(t.right, key))
  }

  /** Taking a new key out again leaves the tree as it was. */
  lemma {:induction false} PlantedAndUprooted(t: Tree, key: string)
    requires Missing(t, key)
    ensures Uprooted(Planted(t, key), key) == t
  {
    CompareIsOrder(key, key);
    if t.Branch? {
      if Compare(t.key, key) < 0 { PlantedAndUprooted(t.left, key); } else { PlantedAndUprooted(t.right, key); }
    }
  }

  // ----- Search order -----

  /** Greater keys to the left. */
  predicate Searchable(t: Tree) {
    t.Branch? ==>
      && (forall k :: k in Order(t.left) ==> Compare(t.key, k) < 0)
      && (forall k :: k in Order(t.right) ==> Compare(t.key, k) > 0)
      && Searchable(t.left) && Searchable(t.right)
  }

  lemma {:induction false} PlantedKeys(t: Tree, key: string)
    ensures forall k :: k in Order(Planted(t, key)) <==> k in Order(t) || k == key
  {
    if t.Branch? {
      CompareIsOrder(t.key, key);
      PlantedKeys(t.left, key);
      PlantedKeys(t.right, key);
    }
  }

  lemma {:induction false} PlantedSearchable(t: Tree, key: string)
    requires Searchable(t)
    ensures Searchable(Planted(t, key))
  {
    if t.Branch? {
      PlantedSearchable(t.left, key);
      PlantedSearchable(t.right, key);
      PlantedKeys(t.left, key);
      PlantedKeys(t.right, key);
    }
  }

  /** No key is visited twice. */
  lemma {:induction false} OrderOnce(t: Tree)
    requires Searchable(t)
    ensures forall i, j :: 0 <= i < j < |Order(t)| ==> Order(t)[i] != Order(t)[j]
  {
    if t.Branch? {
      var l, r := Order(t.left), Order(t.right);
      CompareIsOrder(t.key, t.key);
      OrderOnce(t.left);
      OrderOnce(t.right);
      assert forall i :: 0 <= i < |r| ==> r[i] in r && r[i] != t.key && r[i] !in l;
      assert forall i :: 0 <= i < |l| ==> l[i] in l && l[i] != t.key;
    }
  }
}
