/**
 The shapes the entries of a dictionary form: binary search trees of entry objects, as values. Nothing
 here reads an entry's fields except its key, which never changes.
 */
module Shapes {
  import opened Wrappers

  /** The sign of strcmp. */
  function Compare(a: string, b: string): int {
    if a == [] then (if b == [] then 0 else -1)
    else if b == [] then 1
    else if a[0] < b[0] then -1
    else if b[0] < a[0] then 1
    else Compare(a[1..], b[1..])
  }

  lemma {:induction false} CompareIsOrder(a: string, b: string)
    ensures Compare(a, b) == 0 <==> a == b
    ensures Compare(a, b) == -Compare(b, a)
  {
    if a != [] && b != [] && a[0] == b[0] {
      CompareIsOrder(a[1..], b[1..]);
      assert a == [a[0]] + a[1..] && b == [b[0]] + b[1..];
    }
  }

  lemma {:induction false} CompareTransitive(a: string, b: string, c: string)
    requires Compare(a, b) < 0 && Compare(b, c) < 0
    ensures Compare(a, c) < 0
  {
    if a != [] && b != [] && c != [] && a[0] == b[0] == c[0] {
      CompareTransitive(a[1..], b[1..], c[1..]);
    }
  }

  /** The first difference decides, or the end of the shorter string. */
  lemma {:induction false} CompareAt(a: string, b: string, i: nat)
    requires i <= |a| && i <= |b| && a[..i] == b[..i]
    ensures i == |a| == |b| ==> Compare(a, b) == 0
    ensures i == |a| < |b| || (i < |a| && i < |b| && a[i] < b[i]) ==> Compare(a, b) < 0
    ensures i == |b| < |a| || (i < |a| && i < |b| && b[i] < a[i]) ==> Compare(a, b) > 0
  {
    if i > 0 {
      assert a[0] == a[..i][0] == b[..i][0] == b[0];
      assert a[1..][..i - 1] == a[..i][1..] == b[..i][1..] == b[1..][..i - 1];
      CompareAt(a[1..], b[1..], i - 1);
    }
  }

  /** One node of the tree, with the header object.c gives every object. freed counts how often the
      node was handed to free. */
  class Entry<V> {
    const key: string
    var value: Option<V>
    var leftEntry: Entry?<V>
    var rightEntry: Entry?<V>
    var retainCount: int
    var isZombie: bool
    ghost var freed: nat

    /** DictionaryEntryCreate and ObjectInit. */
    constructor (key: string, value: Option<V>)
      ensures this.key == key && this.value == value && leftEntry == null && rightEntry == null
      ensures retainCount == 1 && !isZombie && freed == 0
    {
      this.key, this.value := key, value;
      leftEntry, rightEntry := null, null;
      retainCount, isZombie, freed := 1, false, 0;
    }
  }

  datatype Shape<V> = Nil | Node(left: Shape<V>, entry: Entry<V>, right: Shape<V>)

  ghost function Root<V>(t: Shape<V>): Entry?<V> { if t.Nil? then null else t.entry }

  ghost function Entries<V>(t: Shape<V>): set<Entry<V>> {
    if t.Nil? then {} else Entries(t.left) + {t.entry} + Entries(t.right)
  }

  /** No entry occurs twice. */
  ghost predicate Apart<V>(t: Shape<V>) {
    t.Node? ==>
      && t.entry !in Entries(t.left) && t.entry !in Entries(t.right)
      && Entries(t.left) !! Entries(t.right)
      && Apart(t.left) && Apart(t.right)
  }

  /** The inverted search order: greater keys to the left. */
  ghost predicate Ordered<V>(t: Shape<V>) {
    t.Node? ==>
      && (forall e :: e in Entries(t.left) ==> Compare(t.entry.key, e.key) < 0)
      && (forall e :: e in Entries(t.right) ==> Compare(t.entry.key, e.key) > 0)
      && Ordered(t.left) && Ordered(t.right)
  }

  /** The part of t whose root is x. */
  ghost function Sub<V>(t: Shape<V>, x: Entry<V>): Shape<V> {
    if t.Nil? || t.entry == x then t
    else if x in Entries(t.left) then Sub(t.left, x)
    else Sub(t.right, x)
  }

  /** t with u put where x is. */
  ghost function Replace<V>(t: Shape<V>, x: Entry<V>, u: Shape<V>): Shape<V> {
    if t.Nil? then t
    else if t.entry == x then u
    else if x in Entries(t.left) then Node(Replace(t.left, x, u), t.entry, t.right)
    else Node(t.left, t.entry, Replace(t.right, x, u))
  }

  /** A search for key passes x. */
  ghost predicate Fits<V>(t: Shape<V>, x: Entry<V>, key: string) {
    t.Node? &&
    if t.entry == x then true
    else if x in Entries(t.left) then Compare(t.entry.key, key) < 0 && Fits(t.left, x, key)
    else x in Entries(t.right) && Compare(t.entry.key, key) > 0 && Fits(t.right, x, key)
  }

  lemma {:induction false} SubPart<V>(t: Shape<V>, x: Entry<V>)
    requires x in Entries(t)
    ensures Sub(t, x).Node? && Sub(t, x).entry == x
    ensures Entries(Sub(t, x)) <= Entries(t)
    ensures Apart(t) ==> Apart(Sub(t, x))
    ensures Ordered(t) ==> Ordered(Sub(t, x))
  {
    if t.entry != x {
      if x in Entries(t.left) { SubPart(t.left, x); } else { SubPart(t.right, x); }
    }
  }

  lemma SearchStarts<V>(t: Shape<V>, key: string)
    requires t.Node?
    ensures t.entry in Entries(t) && Fits(t, t.entry, key) && Sub(t, t.entry) == t
  {}

  lemma {:induction false} SubOfSub<V>(t: Shape<V>, x: Entry<V>, y: Entry<V>)
    requires Apart(t) && x in Entries(t) && y in Entries(Sub(t, x))
    ensures Sub(Sub(t, x), y) == Sub(t, y)
    ensures forall key :: Fits(t, x, key) && Fits(Sub(t, x), y, key) ==> Fits(t, y, key)
  {
    SubPart(t, x);
    if t.entry != x {
      if x in Entries(t.left) {
        SubPart(t.left, x);
        SubOfSub(t.left, x, y);
      } else {
        SubPart(t.right, x);
        SubOfSub(t.right, x, y);
      }
    }
  }

  /** An entry with the key sought lies on the path the search takes. */
  lemma {:induction false} SearchFinds<V>(t: Shape<V>, x: Entry<V>, e: Entry<V>)
    requires Apart(t) && Ordered(t) && x in Entries(t) && e in Entries(t) && Fits(t, x, e.key)
    ensures e in Entries(Sub(t, x))
  {
    if t.entry != x {
      CompareIsOrder(t.entry.key, e.key);
      if x in Entries(t.left) { SearchFinds(t.left, x, e); } else { SearchFinds(t.right, x, e); }
    }
  }

  lemma {:induction false} KeysDiffer<V>(t: Shape<V>, d: Entry<V>, e: Entry<V>)
    requires Ordered(t) && d in Entries(t) && e in Entries(t) && d.key == e.key
    ensures d == e
  {
    CompareIsOrder(t.entry.key, d.key);
    if d != t.entry && e != t.entry {
      if d in Entries(t.left) && e in Entries(t.left) {
        KeysDiffer(t.left, d, e);
      } else if d in Entries(t.right) && e in Entries(t.right) {
        KeysDiffer(t.right, d, e);
      }
    }
  }

  /** u may replace the part of t at x: it brings no entry that t has elsewhere. */
  ghost predicate Replaceable<V>(t: Shape<V>, x: Entry<V>, u: Shape<V>) {
    Apart(t) && x in Entries(t) && Apart(u) && Entries(u) !! (Entries(t) - Entries(Sub(t, x)))
  }

  lemma {:induction false} ReplaceEntries<V>(t: Shape<V>, x: Entry<V>, u: Shape<V>)
    requires Replaceable(t, x, u)
    ensures Entries(Replace(t, x, u)) == Entries(t) - Entries(Sub(t, x)) + Entries(u)
    ensures Apart(Replace(t, x, u))
  {
    hide Ordered;
    SubPart(t, x);
    if t.entry != x {
      if x in Entries(t.left) {
        SubPart(t.left, x);
        ReplaceEntries(t.left, x, u);
      } else {
        SubPart(t.right, x);
        ReplaceEntries(t.right, x, u);
      }
    }
  }

  /** Every entry of u fits where x is, so the order survives. */
  lemma {:induction false} ReplaceOrdered<V>(t: Shape<V>, x: Entry<V>, u: Shape<V>)
    requires Replaceable(t, x, u) && Ordered(t) && Ordered(u)
    requires forall e :: e in Entries(u) ==> Fits(t, x, e.key)
    ensures Ordered(Replace(t, x, u))
  {
    if t.entry != x {
      if x in Entries(t.left) {
        ReplaceOrdered(t.left, x, u);
        ReplaceEntries(t.left, x, u);
      } else {
        ReplaceOrdered(t.right, x, u);
        ReplaceEntries(t.right, x, u);
      }
    }
  }

  /** The entries below x fit at x. */
  lemma {:induction false} SubFits<V>(t: Shape<V>, x: Entry<V>, e: Entry<V>)
    requires Apart(t) && Ordered(t) && x in Entries(t) && e in Entries(Sub(t, x))
    ensures Fits(t, x, e.key)
  {
    if t.entry != x {
      if x in Entries(t.left) {
        SubPart(t.left, x);
        SubFits(t.left, x, e);
      } else {
        SubPart(t.right, x);
        SubFits(t.right, x, e);
      }
    }
  }

  ghost function LeftOf<V>(t: Shape<V>, e: Entry<V>): Entry?<V> {
    if Sub(t, e).Nil? then null else Root(Sub(t, e).left)
  }

  ghost function RightOf<V>(t: Shape<V>, e: Entry<V>): Entry?<V> {
    if Sub(t, e).Nil? then null else Root(Sub(t, e).right)
  }

  /** A replacement with the same root changes no link outside itself. */
  lemma {:induction false} ReplaceLinks<V>(t: Shape<V>, x: Entry<V>, u: Shape<V>, e: Entry<V>)
    requires Replaceable(t, x, u) && Root(u) == x && e in Entries(Replace(t, x, u))
    ensures LeftOf(Replace(t, x, u), e) == if e in Entries(u) then LeftOf(u, e) else LeftOf(t, e)
    ensures RightOf(Replace(t, x, u), e) == if e in Entries(u) then RightOf(u, e) else RightOf(t, e)
  {
    if t.entry != x {
      ReplaceEntries(t, x, u);
      SubPart(t, x);
      if x in Entries(t.left) {
        SubPart(t.left, x);
        ReplaceEntries(t.left, x, u);
        if e in Entries(Replace(t.left, x, u)) { ReplaceLinks(t.left, x, u, e); }
      } else {
        SubPart(t.right, x);
        ReplaceEntries(t.right, x, u);
        if e in Entries(Replace(t.right, x, u)) { ReplaceLinks(t.right, x, u, e); }
      }
    }
  }
}
