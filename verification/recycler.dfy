/**
 * The missile recycler `MissileStack` of missile.ts: one static array, shared by
 * every `MissileStack` instance, on which `push` appends and `pop` removes the
 * last element.
 *
 * The two `MissileStack.stack.reverse;` statements around the pop only read the
 * `reverse` method and never call it, so they leave the array as it is and the
 * recycler is a plain last-in-first-out stack.
 */
module Recycler {
  import opened Wrappers

  /** What one `pop` observes: the element it returns and the stack it leaves. */
  datatype PopResult<T> = PopResult(item: Option<T>, rest: seq<T>)

  /** The stack after `Array.prototype.push(x)`: `x` at the end, every earlier element in place. */
  function Pushed<T>(s: seq<T>, x: T): (r: seq<T>)
    ensures |r| == |s| + 1 && r[|s|] == x
    ensures forall i :: 0 <= i < |s| ==> r[i] == s[i]
  {
    s + [x]
  }

  /**
   * `Array.prototype.pop()`: on an empty array it returns `undefined` and leaves
   * the array empty; otherwise what it returns, pushed back onto what it leaves,
   * is the array it started from.
   */
  function Popped<T>(s: seq<T>): (r: PopResult<T>)
    ensures s == [] <==> r.item == None
    ensures s == [] ==> r.rest == []
    ensures s != [] ==> |r.rest| == |s| - 1 && Pushed(r.rest, r.item.value) == s
  {
    if s == [] then PopResult(None, []) else PopResult(Some(s[|s| - 1]), s[..|s| - 1])
  }

  /** `push(x)` followed by `pop()` hands `x` back and restores the stack exactly. */
  lemma PopUndoesPush<T>(s: seq<T>, x: T)
    ensures Popped(Pushed(s, x)) == PopResult(Some(x), s)
  {
    assert Pushed(s, x)[..|s|] == s;
  }

  /** The stack after `push` of every element of `xs`, first to last. */
  function PushedAll<T>(s: seq<T>, xs: seq<T>): seq<T>
    decreases |xs|
  {
    if xs == [] then s else PushedAll(Pushed(s, xs[0]), xs[1..])
  }

  /** What `n` successive `pop` calls return, in call order, and the stack they leave. */
  function PoppedMany<T>(s: seq<T>, n: nat): (seq<Option<T>>, seq<T>)
  {
    if n == 0 then ([], s)
    else
      var p := Popped(s);
      var q := PoppedMany(p.rest, n - 1);
      ([p.item] + q.0, q.1)
  }

  /** Pushing `xs` one by one appends them in order. */
  lemma {:induction false} PushedAllAppends<T>(s: seq<T>, xs: seq<T>)
    ensures PushedAll(s, xs) == s + xs
    decreases |xs|
  {
    if xs != [] {
      PushedAllAppends(Pushed(s, xs[0]), xs[1..]);
      assert Pushed(s, xs[0]) + xs[1..] == s + xs;
    }
  }

  /** The elements of `xs` newest first, each as `pop` returns it. */
  function NewestFirst<T>(xs: seq<T>): (r: seq<Option<T>>)
    ensures |r| == |xs|
    ensures forall i :: 0 <= i < |xs| ==> r[i] == Some(xs[|xs| - 1 - i])
    decreases |xs|
  {
    if xs == [] then [] else [Some(xs[|xs| - 1])] + NewestFirst(xs[..|xs| - 1])
  }

  /** `|xs|` pops right after the stack held `s + xs` return `xs` newest first and leave `s`. */
  lemma {:induction false} PopAllAfterAppend<T>(s: seq<T>, xs: seq<T>)
    ensures PoppedMany(s + xs, |xs|) == (NewestFirst(xs), s)
    decreases |xs|
  {
    if xs == [] {
      assert s + xs == s;
    } else {
      var front := xs[..|xs| - 1];
      assert (s + xs)[..|s + xs| - 1] == s + front;
      PopAllAfterAppend(s, front);
    }
  }

  /**
   * Last in, first out: pushing `xs` and then popping `|xs|` times returns the
   * elements of `xs` newest first and restores the stack to what it was.
   */
  lemma {:induction false} PushAllPopAllIsLifo<T>(s: seq<T>, xs: seq<T>)
    ensures PoppedMany(PushedAll(s, xs), |xs|) == (NewestFirst(xs), s)
  {
    PushedAllAppends(s, xs);
    PopAllAfterAppend(s, xs);
  }

  /**
   * The static field `MissileStack.stack`. There is exactly one such array in
   * the program; every `MissileStack` instance refers to the same object.
   */
  class StackStorage<T> {
    var stack: seq<T>

    /** The static initialiser: the stack starts empty. */
    constructor ()
      ensures stack == []
    {
      stack := [];
    }
  }

  /** An instance of `MissileStack`; all its state lives in the shared static array. */
  class MissileStack<T> {
    const storage: StackStorage<T>

    constructor (storage: StackStorage<T>)
      ensures this.storage == storage
    {
      this.storage := storage;
    }

    /** `push(item)`: appends `item` to the shared stack. */
    method Push(item: T)
      modifies storage
      ensures storage.stack == Pushed(old(storage.stack), item)
    {
      storage.stack := storage.stack + [item];
    }

    /**
     * `pop()`: removes and returns the most recently pushed element, or returns
     * `undefined` and changes nothing when the shared stack is empty.
     */
    method Pop() returns (item: Option<T>)
      modifies storage
      ensures item == Popped(old(storage.stack)).item
      ensures storage.stack == Popped(old(storage.stack)).rest
    {
      // The `reverse` property reads before and after the pop change nothing.
      var n := |storage.stack|;
      if n == 0 {
        item := None;
      } else {
        item := Some(storage.stack[n - 1]);
        storage.stack := storage.stack[..n - 1];
      }
    }
  }
}
