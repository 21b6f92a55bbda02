/**
 * The FILO container of filo.c: a singly linked stack of opaque values.
 *
 * A C caller owns one `Filo *` variable (the head pointer) and passes its
 * address, a `Filo **`, to every operation. Here that variable is a `Stack`
 * object whose field `head` is the pointer, and the address is a `Stack?`
 * reference, so that the NULL-handle checks of every operation can be modelled.
 * The abstract value of the stack is the ghost sequence `Contents`, head first.
 */
module Filo {
  import opened Wrappers

  /** One list cell (`struct Filo`). filo.c fills in both fields right after
      allocating the cell and never writes them again, so they are constants. */
  class Node<T> {
    const value: T
    const next: Node?<T>

    constructor (value: T, next: Node?<T>)
      ensures this.value == value && this.next == next
    {
      this.value := value;
      this.next := next;
    }
  }

  /** Following `next` from n visits exactly the cells of `spine` and then
      reaches NULL. */
  ghost predicate Linked<T>(n: Node?<T>, spine: seq<Node<T>>)
    decreases |spine|
  {
    if spine == [] then n == null else n == spine[0] && Linked(spine[0].next, spine[1..])
  }

  /** The values held by a sequence of cells, in the same order. */
  ghost function ValuesOf<T>(spine: seq<Node<T>>): (r: seq<T>)
    ensures |r| == |spine|
  {
    if spine == [] then [] else [spine[0].value] + ValuesOf(spine[1..])
  }

  /** The caller's head-pointer variable. */
  class Stack<T> {
    var head: Node?<T>
    ghost var Contents: seq<T>
    /** The cells of the list, head first. */
    ghost var Spine: seq<Node<T>>

    ghost predicate Valid()
      reads this
    {
      Linked(head, Spine) && Contents == ValuesOf(Spine)
    }

    /** Declaring the variable; filo_init is what gives it its defined value. */
    constructor ()
      ensures Valid() && Contents == []
    {
      head := null;
      Contents := [];
      Spine := [];
    }
  }

  /** filo_init: resets the head pointer, whatever it held. */
  method Init<T>(f: Stack?<T>)
    modifies f
    ensures f != null ==> f.Valid() && f.Contents == []
  {
    if f == null { return; }
    f.head := null;
    f.Contents, f.Spine := [], [];
  }

  /** filo_push: prepends a value. */
  method Push<T>(f: Stack?<T>, value: T)
    requires f != null ==> f.Valid()
    modifies f
    ensures f != null ==> f.Valid() && f.Contents == [value] + old(f.Contents)
  {
    if f == null { return; }
    var node := new Node(value, f.head);
    f.head := node;
    ghost var spine := f.Spine;
    f.Contents, f.Spine := [value] + f.Contents, [node] + f.Spine;
    assert f.Spine[1..] == spine;
  }

  /** filo_pop: unlinks the head cell and returns its value; NULL (None) for a
      NULL handle or an empty stack, which are left unchanged. */
  method Pop<T>(f: Stack?<T>) returns (r: Option<T>)
    requires f != null ==> f.Valid()
    modifies f
    ensures f == null ==> r == None
    ensures f != null ==> f.Valid()
    ensures f != null && old(f.Contents) == [] ==> r == None && f.Contents == []
    ensures f != null && old(f.Contents) != [] ==>
      r == Some(old(f.Contents)[0]) && f.Contents == old(f.Contents)[1..]
  {
    if f == null { return None; }
    if f.head == null { return None; }
    var head := f.head;
    r := Some(head.value);
    f.head := head.next;
    f.Contents, f.Spine := f.Contents[1..], f.Spine[1..];
  }

  /** filo_peek: the head value without removing it. */
  method Peek<T>(f: Stack?<T>) returns (r: Option<T>)
    requires f != null ==> f.Valid()
    ensures f == null || f.Contents == [] ==> r == None
    ensures f != null && f.Contents != [] ==> r == Some(f.Contents[0])
  {
    if f == null { return None; }
    if f.head == null { return None; }
    return Some(f.head.value);
  }

  /** filo_hasNext: whether the head cell has a successor. */
  method HasNext<T>(f: Stack?<T>) returns (r: bool)
    requires f != null ==> f.Valid()
    ensures r <==> f != null && |f.Contents| >= 2
  {
    if f == null { return false; }
    if f.head == null { return false; }
    assert Linked(f.head.next, f.Spine[1..]);
    return f.head.next != null;
  }

  /** filo_isEmpty: a NULL handle counts as empty. */
  method IsEmpty<T>(f: Stack?<T>) returns (r: bool)
    requires f != null ==> f.Valid()
    ensures r <==> f == null || f.Contents == []
  {
    if f == null { return true; }
    return f.head == null;
  }

  /** filo_size, as written: it counts by advancing the caller's head pointer,
      so the stack reads as empty afterwards (its cells are not freed). */
  method Size<T>(f: Stack?<T>) returns (count: int)
    requires f != null ==> f.Valid()
    modifies f
    ensures f == null ==> count == 0
    ensures f != null ==> count == |old(f.Contents)| && f.Valid() && f.Contents == []
  {
    count := 0;
    if f == null { return; }
    while f.head != null
      invariant f.Valid()
      invariant count + |f.Contents| == |old(f.Contents)|
      decreases |f.Contents|
    {
      count := count + 1;
      f.head := f.head.next;
      f.Contents, f.Spine := f.Contents[1..], f.Spine[1..];
    }
  }

  /** The counting filo_size evidently means: the same walk done with a local
      cursor, leaving the stack as it was. */
  method Count<T>(f: Stack?<T>) returns (count: int)
    requires f != null ==> f.Valid()
    ensures f == null ==> count == 0
    ensures f != null ==> count == |f.Contents|
  {
    count := 0;
    if f == null { return; }
    var cursor := f.head;
    while cursor != null
      invariant 0 <= count <= |f.Spine| && Linked(cursor, f.Spine[count..])
      decreases |f.Spine| - count
    {
      count := count + 1;
      cursor := cursor.next;
    }
  }

  /** Calling filo_size on a one-element stack leaves it empty: afterwards
      filo_isEmpty answers true although nothing was popped. */
  method SizeDrains<T>(value: T) returns (count: int, emptyAfter: bool)
    ensures count == 1 && emptyAfter
  {
    var f := new Stack<T>();
    Push(f, value);
    count := Size(f);
    emptyAfter := IsEmpty(f);
  }

  /** filo_destroy: pops every cell and releases its value; `released` lists
      the values handed to `free`, in the order they were released. */
  method Destroy<T>(f: Stack?<T>) returns (released: seq<T>)
    requires f != null ==> f.Valid()
    modifies f
    ensures f == null ==> released == []
    ensures f != null ==> f.Valid() && f.Contents == [] && released == old(f.Contents)
  {
    released := [];
    if f == null { return; }
    var empty := IsEmpty(f);
    while !empty
      invariant f.Valid()
      invariant released + f.Contents == old(f.Contents)
      invariant empty <==> f.Contents == []
      decreases |f.Contents|
    {
      var value := Pop(f);
      released := released + [value.value];
      empty := IsEmpty(f);
    }
    f.head := null;
    f.Contents, f.Spine := [], [];
  }

  /** LIFO round trip: a pop right after a push returns the pushed value and
      restores the previous contents. */
  method PushThenPop<T>(f: Stack<T>, value: T) returns (r: Option<T>)
    requires f.Valid()
    modifies f
    ensures f.Valid() && r == Some(value) && f.Contents == old(f.Contents)
  {
    Push(f, value);
    var top := Peek(f);
    assert top == Some(value);
    r := Pop(f);
  }
}
