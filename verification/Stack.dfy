/** The growing stack of chat/utils/stack.c. */
module Stacks {
  import opened Wrappers

  /** The growth test as written, uppermostObject == slots: the array after it. */
  function WrittenSlots(uppermostObject: int, slots: nat): nat {
    if uppermostObject == slots then slots * 2 else slots
  }

  class Stack<T(0)> {
    var stack: array<T>
    var uppermostObject: int
    var slots: nat
    /** The most objects held at once. */
    ghost var high: nat
    /** What the written test would have made of the array, and whether every push so far would have
        written inside it. */
    ghost var writtenSlots: nat
    ghost var inside: bool

    /** With the written test the pushes stay inside the array exactly as long as it never holds more than
        two objects. */
    ghost predicate Valid()
      reads this
    {
      && slots == stack.Length && slots >= 2 && -1 <= uppermostObject < slots
      && uppermostObject < high
      && (inside <==> high <= 2) && (inside ==> writtenSlots == 2)
    }

    ghost function Contents(): seq<T>
      reads this, stack
      requires Valid()
    {
      stack[..uppermostObject + 1]
    }

    /** StackCreate */
    constructor ()
      ensures Valid() && fresh(stack) && Contents() == [] && high == 0
    {
      stack, uppermostObject, slots := new T[2], -1, 2;
      high, writtenSlots, inside := 0, 2, true;
    }

    /** StackPush, growing when the next slot is the first one past the end. What the written test would
        have done is followed beside it. */
    method Push(item: T)
      requires Valid()
      modifies this, stack
      ensures Valid() && (stack == old(stack) || fresh(stack))
      ensures Contents() == old(Contents()) + [item]
      ensures high == if old(high) > |old(Contents())| then old(high) else |old(Contents())| + 1
      ensures writtenSlots == WrittenSlots(old(uppermostObject), old(writtenSlots))
      ensures inside <==> old(inside) && uppermostObject < writtenSlots
    {
      if uppermostObject + 1 == slots {
        slots := slots * 2;
        var grown := new T[slots];
        forall i | 0 <= i < stack.Length { grown[i] := stack[i]; }
        stack := grown;
      }
      writtenSlots := WrittenSlots(uppermostObject, writtenSlots);
      uppermostObject := uppermostObject + 1;
      stack[uppermostObject] := item;
      inside := inside && uppermostObject < writtenSlots;
      high := if high > uppermostObject then high else uppermostObject + 1;
    }

    /** StackPop; None is the NULL of an empty stack. */
    method Pop() returns (item: Option<T>)
      requires Valid()
      modifies this`uppermostObject
      ensures Valid() && stack == old(stack)
      ensures old(Contents()) == [] ==> item == None && Contents() == []
      ensures old(Contents()) != [] ==>
        item.Some? && old(Contents()) == Contents() + [item.value]
    {
      if uppermostObject < 0 {
        item := None;
      } else {
        item := Some(stack[uppermostObject]);
        uppermostObject := uppermostObject - 1;
      }
    }
  }
}
