/** The stack-driven iterator over a dictionary (chat/utils/dictionary.c). */
module Iterators {
  import opened Wrappers
  import opened Shapes
  import opened Counting
  import opened Dictionaries
  import opened Stacks
  import opened KeyTrees

  /** The entries of t in the order the iterator visits them: right before left. */
  ghost function Preorder<V>(t: Shape<V>): seq<Entry<V>> {
    if t.Nil? then [] else [t.entry] + Preorder(t.right) + Preorder(t.left)
  }

  /** What remains to be visited when these parts wait on the stack, the last one on top. */
  ghost function Visits<V>(pending: seq<Shape<V>>): seq<Entry<V>> {
    if pending == [] then []
    else Preorder(pending[|pending| - 1]) + Visits(pending[..|pending| - 1])
  }

  lemma VisitsPop<V>(pending: seq<Shape<V>>, below: seq<Shape<V>>, top: Shape<V>)
    requires pending == below + [top] && top.Node?
    ensures Visits(pending) == [top.entry] + (Preorder(top.right) + (Preorder(top.left) + Visits(below)))
  {
    assert pending[..|pending| - 1] == below;
  }

  lemma VisitsNone<V>()
    ensures Visits<V>([]) == []
  {}

  lemma VisitsPush<V>(pending: seq<Shape<V>>, t: Shape<V>)
    ensures Visits(pending + [t]) == Preorder(t) + Visits(pending)
  {
    assert (pending + [t])[..|pending|] == pending;
  }

  /** Every entry is visited, and only entries of t are. */
  lemma {:induction false} PreorderComplete<V>(t: Shape<V>, e: Entry<V>)
    ensures e in Preorder(t) <==> e in Entries(t)
  {
    if t.Node? {
      PreorderComplete(t.left, e);
      PreorderComplete(t.right, e);
    }
  }

  /** No entry is visited twice. */
  lemma {:induction false} PreorderOnce<V>(t: Shape<V>)
    requires Apart(t)
    ensures forall i, j :: 0 <= i < j < |Preorder(t)| ==> Preorder(t)[i] != Preorder(t)[j]
  {
    if t.Node? {
      PreorderOnce(t.left);
      PreorderOnce(t.right);
      var r, l := Preorder(t.right), Preorder(t.left);
      forall i, j | 0 <= i < |r| && 0 <= j < |l| ensures r[i] != l[j] && t.entry != r[i] && t.entry != l[j] {
        PreorderComplete(t.left, l[j]);
        PreorderComplete(t.right, r[i]);
      }
      forall i | 0 <= i < |r| ensures t.entry != r[i] { PreorderComplete(t.right, r[i]); }
      forall j | 0 <= j < |l| ensures t.entry != l[j] { PreorderComplete(t.left, l[j]); }
    }
  }

  /** Visiting the waiting parts never needs a third place on the stack: each waits above those pushed
      before it. */
  ghost predicate Low<V>(pending: seq<Shape<V>>) {
    forall i :: 0 <= i < |pending| ==> i + Peak(TreeOf(pending[i])) <= 2
  }

  lemma LowPush<V>(pending: seq<Shape<V>>, t: Shape<V>)
    ensures Low(pending + [t]) <==> Low(pending) && |pending| + Peak(TreeOf(t)) <= 2
  {
    var all := pending + [t];
    assert all[|pending|] == t && forall i :: 0 <= i < |pending| ==> all[i] == pending[i];
  }

  /** A part that is not there takes no place. */
  lemma PartPlaces<V>(pending: seq<Shape<V>>, part: Shape<V>)
    requires forall i :: 0 <= i < |pending| ==> pending[i].Node?
    ensures Waiting(TreeOf(part)) == if part.Nil? then 0 else 1
    ensures part.Nil? ==> Preorder(part) == [] && Peak(TreeOf(part)) == 0 && (Low(pending) ==> |pending| <= 2)
  {
    if pending != [] { assert pending[|pending| - 1].Node?; }
  }

  /** A part above below others stays low exactly when its children do, pushed in its place. */
  lemma LowNode<V>(below: nat, t: Shape<V>)
    requires t.Node?
    ensures
      var l, r := TreeOf(t.left), TreeOf(t.right);
      var one := below + Waiting(l);
      && (below + Peak(TreeOf(t)) <= 2 <==> below + 1 <= 2 && below + Peak(l) <= 2 && one + Peak(r) <= 2)
      && Waiting(l) <= 1 && Waiting(r) <= Peak(r)
  {}

  /** Visited keys come in the order of the key tree. */
  lemma {:induction false} PreorderKeys<V>(t: Shape<V>)
    ensures |Preorder(t)| == |Order(TreeOf(t))|
    ensures forall i :: 0 <= i < |Preorder(t)| ==> Preorder(t)[i].key == Order(TreeOf(t))[i]
  {
    if t.Node? {
      PreorderKeys(t.left);
      PreorderKeys(t.right);
    }
  }

  /** The children of a part of the tree are parts of the tree. */
  lemma PartChildren<V>(t: Shape<V>, e: Entry<V>)
    requires Apart(t) && Linked(t) && e in Entries(t)
    ensures Sub(t, e).Node? && Sub(t, e).entry == e
    ensures e.leftEntry == Root(Sub(t, e).left) && e.rightEntry == Root(Sub(t, e).right)
    ensures Sub(t, e).left.Node? ==>
      Sub(t, e).left.entry in Entries(t) && Sub(t, Sub(t, e).left.entry) == Sub(t, e).left
    ensures Sub(t, e).right.Node? ==>
      Sub(t, e).right.entry in Entries(t) && Sub(t, Sub(t, e).right.entry) == Sub(t, e).right
  {
    SubPart(t, e);
    if Sub(t, e).left.Node? { SubOfSub(t, e, Sub(t, e).left.entry); }
    if Sub(t, e).right.Node? { SubOfSub(t, e, Sub(t, e).right.entry); }
  }

  class DictionaryIterator<V> {
    const dictionary: Dictionary<V>
    var currentEntry: Entry?<V>
    const stack: Stack<Entry?<V>>
    ghost var pending: seq<Shape<V>>

    ghost predicate Valid()
      reads this, dictionary, dictionary.nodes, stack, stack.stack
    {
      && dictionary.Valid() && stack.Valid()
      && |stack.Contents()| == |pending|
      && forall i :: 0 <= i < |pending| ==>
           && pending[i].Node? && stack.Contents()[i] == pending[i].entry
           && pending[i].entry in dictionary.nodes && pending[i] == Sub(dictionary.shape, pending[i].entry)
    }

    /** The entries the loop over this iterator still sees, the current one first. */
    ghost function Rest(): seq<Entry<V>>
      reads this`currentEntry, this`pending
    {
      if currentEntry == null then [] else [currentEntry] + Visits(pending)
    }

    /** With the written growth test of the stack, no push so far and none to come misses the array. */
    ghost predicate Calm()
      reads this`pending, stack`inside
    {
      stack.inside && Low(pending)
    }

    /** DictionaryGetIterator: past the sentinel, to the first real entry. */
    constructor (dictionary: Dictionary<V>)
      requires dictionary.Valid()
      ensures Valid() && fresh(stack) && fresh(stack.stack) && this.dictionary == dictionary
      ensures Rest() == Preorder(dictionary.shape)[1..]
      ensures (Calm() <==> Peak(TreeOf(dictionary.shape)) <= 2) && (currentEntry == null ==> pending == [])
    {
      this.dictionary := dictionary;
      stack := new Stack();
      currentEntry := null;
      pending := [];
      new;
      hide Sub, Entries, Apart, Ordered, Compare, Peak, TreeOf;
      SearchStarts(dictionary.shape, "");
      VisitsNone<V>();
      assert Preorder(dictionary.shape) != [];
      hide Visits, Preorder;
      First();
    }

    /** The sentinel is pushed, and two steps lead past it. */
    method First()
      requires Valid() && pending == [] && stack.inside && Visits(pending) == [] && Preorder(dictionary.shape) != []
      requires dictionary.headEntry in dictionary.nodes
      requires Sub(dictionary.shape, dictionary.headEntry) == dictionary.shape
      modifies this, stack, stack.stack
      ensures Valid() && (stack.stack == old(stack.stack) || fresh(stack.stack))
      ensures Rest() == Preorder(dictionary.shape)[1..]
      ensures (Calm() <==> Peak(TreeOf(dictionary.shape)) <= 2) && (currentEntry == null ==> pending == [])
    {
      hide Sub, Entries, Apart, Ordered, Compare, Peak, TreeOf, Visits, Preorder;
      assert dictionary.headEntry == Root(dictionary.shape);
      hide Dictionary.Valid;
      PushPart(dictionary.headEntry, dictionary.shape);
      assert Visits(pending) == Preorder(dictionary.shape);
      var more := Next();
      assert Rest()[1..] == Visits(pending);
      more := Next();
    }

    /** StackPush of an entry that is not NULL. */
    method PushPart(e: Entry?<V>, ghost part: Shape<V>)
      requires Valid() && e == Root(part)
      requires e != null ==> e in dictionary.nodes && part == Sub(dictionary.shape, e)
      modifies this`pending, stack, stack.stack
      ensures Valid() && (stack.stack == old(stack.stack) || fresh(stack.stack))
      ensures Visits(pending) == Preorder(part) + old(Visits(pending))
      ensures |pending| == |old(pending)| + Waiting(TreeOf(part))
      ensures stack.inside <==> old(stack.inside) && |pending| <= 2
      ensures Low(pending) <==> old(Low(pending)) && |old(pending)| + Peak(TreeOf(part)) <= 2
    {
      hide Sub, Entries, Apart, Ordered, Compare, Preorder, Visits;
      PartPlaces(pending, part);
      hide Low, Peak, TreeOf;
      if e != null {
        stack.Push(e);
        VisitsPush(pending, part);
        LowPush(pending, part);
        pending := pending + [part];
      }
    }

    /** The children of the entry just popped are pushed, the left one first. */
    method PushChildren(e: Entry<V>, ghost top: Shape<V>)
      requires Valid() && e in dictionary.nodes && top == Sub(dictionary.shape, e) && top.Node?
      modifies this`pending, stack, stack.stack
      ensures Valid() && (stack.stack == old(stack.stack) || fresh(stack.stack))
      ensures Visits(pending) == Preorder(top.right) + (Preorder(top.left) + old(Visits(pending)))
      ensures
        var one := |old(pending)| + Waiting(TreeOf(top.left));
        && (stack.inside <==> old(stack.inside) && one <= 2 && one + Waiting(TreeOf(top.right)) <= 2)
        && (Low(pending) <==>
              old(Low(pending)) && |old(pending)| + Peak(TreeOf(top.left)) <= 2 && one + Peak(TreeOf(top.right)) <= 2)
    {
      hide Sub, Entries, Apart, Ordered, Compare, Visits, Preorder, Low, Peak, Max, Waiting, TreeOf;
      PartChildren(dictionary.shape, e);
      hide Dictionary.Valid;
      PushPart(e.leftEntry, top.left);
      PushPart(e.rightEntry, top.right);
    }

    /** DictionaryIteratorNext */
    method Next() returns (more: bool)
      requires Valid()
      modifies this, stack, stack.stack
      ensures Valid() && (stack.stack == old(stack.stack) || fresh(stack.stack))
      ensures Rest() == old(Visits(pending))
      ensures more <==> Rest() != []
      ensures (Calm() <==> old(Calm())) && (currentEntry == null ==> pending == [])
    {
      hide Sub, Visits, Preorder, Low, Peak, Max, Waiting, TreeOf, Dictionary.Valid;
      var popped := stack.Pop();
      if popped == None {
        currentEntry := null;
        more := false;
        VisitsNone<V>();
        return;
      }
      ghost var top, below := pending[|pending| - 1], pending[..|pending| - 1];
      VisitsPop(pending, below, top);
      LowPush(below, top);
      LowNode(|below|, top);
      currentEntry := popped.value;
      pending := below;
      PushChildren(currentEntry, top);
      assert Rest() == [top.entry] + (Preorder(top.right) + (Preorder(top.left) + Visits(below)));
      more := true;
    }
  }

  /** A step from an entry leaves the rest of the entries. */
  method Skip<V>(iter: DictionaryIterator<V>)
    requires iter.Valid() && iter.currentEntry != null
    modifies iter, iter.stack, iter.stack.stack
    ensures iter.Valid() && (iter.stack.stack == old(iter.stack.stack) || fresh(iter.stack.stack))
    ensures iter.Rest() == old(iter.Rest())[1..]
    ensures (iter.Calm() <==> old(iter.Calm())) && (iter.currentEntry == null ==> iter.pending == [])
  {
    hide Dictionary.Valid, DictionaryIterator.Valid, DictionaryIterator.Calm, Visits;
    assert iter.Rest()[1..] == Visits(iter.pending);
    var more := iter.Next();
  }

  lemma DropOne<T>(s: seq<T>, k: nat)
    requires k < |s|
    ensures s[k..][1..] == s[k + 1..]
  {}

  lemma CalmAtEnd<V>(iter: DictionaryIterator<V>)
    requires iter.pending == []
    ensures iter.Calm() <==> iter.stack.inside
  {}

  /** The loop over an iterator, as in ServerSendChannelMessage and ClientHandleListCommand. */
  method VisitRest<V>(iter: DictionaryIterator<V>) returns (visited: seq<string>)
    requires iter.Valid() && (iter.currentEntry == null ==> iter.pending == [])
    modifies iter, iter.stack, iter.stack.stack
    ensures |visited| == |old(iter.Rest())|
    ensures forall i :: 0 <= i < |visited| ==> visited[i] == old(iter.Rest())[i].key
    ensures iter.stack.inside <==> old(iter.Calm())
  {
    hide Dictionary.Valid, DictionaryIterator.Valid, DictionaryIterator.Calm, Visits;
    ghost var es := iter.Rest();
    visited := [];
    while iter.currentEntry != null
      invariant iter.Valid() && (iter.stack.stack == old(iter.stack.stack) || fresh(iter.stack.stack))
      invariant |visited| <= |es| && iter.Rest() == es[|visited|..]
      invariant forall i :: 0 <= i < |visited| ==> visited[i] == es[i].key
      invariant (iter.Calm() <==> old(iter.Calm())) && (iter.currentEntry == null ==> iter.pending == [])
      decreases |es| - |visited|
    {
      assert iter.currentEntry == iter.Rest()[0] == es[|visited|];
      DropOne(es, |visited|);
      visited := visited + [iter.currentEntry.key];
      Skip(iter);
    }
    CalmAtEnd(iter);
  }

  /** All keys but the sentinel's are visited, in the order of the key tree. With the stack's growth test as
      written every push lands inside its array if and only if the tree never makes more than two entries
      wait. */
  method VisitAll<V>(dictionary: Dictionary<V>) returns (visited: seq<string>, ghost inside: bool)
    requires dictionary.Valid()
    ensures visited == Order(TreeOf(dictionary.shape))[1..]
    ensures inside <==> Peak(TreeOf(dictionary.shape)) <= 2
  {
    PreorderKeys(dictionary.shape);
    assert Preorder(dictionary.shape) != [];
    hide Dictionary.Valid, DictionaryIterator.Valid, DictionaryIterator.Calm, Peak, Visits, Preorder, Order, TreeOf;
    var iter := new DictionaryIterator(dictionary);
    visited := VisitRest(iter);
    inside := iter.stack.inside;
  }
}
