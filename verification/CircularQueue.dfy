/** A ring buffer over an array.  Its contents, oldest first, start at `head` and wrap around. */
module CircularQueue {
  import opened Common

  /** Up to one turn past the end, the remainder is a subtraction. */
  lemma Wraps(i: nat, n: nat)
    requires 0 < n && i < 2 * n
    ensures i % n == if i < n then i else i - n
  {
    if i >= n { assert i == n + (i - n); }
  }

  /** The last elements of a sequence. */
  function Last<T>(n: nat, s: seq<T>): (r: seq<T>)
    ensures |r| == if n <= |s| then n else |s|
  {
    if n <= |s| then s[|s| - n..] else s
  }

  lemma LastAppended<T>(n: nat, s: seq<T>, item: T)
    requires 0 < n <= |s|
    ensures Last(n, s + [item]) == Last(n, s)[1..] + [item]
  {
  }

  lemma IsLast<T>(n: nat, s: seq<T>, r: seq<T>)
    requires |r| == if n <= |s| then n else |s|
    requires forall i | 0 <= i < |r| :: r[i] == s[|s| - |r| + i]
    ensures r == Last(n, s)
  {
  }

  class CircularQueue<T> {
    const items: array<T>
    var head: nat
    var tail: nat
    var size: nat

    ghost predicate Valid()
      reads this
    {
      && size <= items.Length
      && (items.Length > 0 ==> head < items.Length && tail == Slot(size))
    }

    /** Where a logical position lives. */
    ghost function Slot(i: nat): int
      reads this
    {
      if head + i < items.Length then head + i else head + i - items.Length
    }

    ghost function Contents(): (r: seq<T>)
      reads this, items
      requires Valid()
      ensures |r| == size && forall i | 0 <= i < size :: r[i] == items[Slot(i)]
    {
      seq(size, i requires 0 <= i < size && Valid() reads this, items => items[Slot(i)])
    }

    /** A new queue is full of initial elements. */
    constructor (size: nat, initial: T)
      ensures Valid() && fresh(items) && items.Length == size && Contents() == seq(size, _ => initial)
    {
      items := new T[size](_ => initial);
      head, tail, this.size := 0, 0, size;
    }

    method Get(index: int) returns (r: Option<T>)
      requires Valid()
      ensures r == if 0 <= index < size then Some(Contents()[index]) else None
    {
      if index < 0 || index >= size { return None; }
      Wraps(head + index, items.Length);
      r := Some(items[(head + index) % items.Length]);
    }

    method Set(index: int, item: T) returns (ok: bool)
      requires Valid()
      modifies items
      ensures Valid() && ok == (0 <= index < size)
      ensures Contents() == if ok then old(Contents())[index := item] else old(Contents())
    {
      if index < 0 || index >= size { return false; }
      Wraps(head + index, items.Length);
      items[(head + index) % items.Length] := item;
      ok := true;
    }

    method Pop() returns (r: Option<T>)
      requires Valid()
      modifies this
      ensures Valid() && r == (if old(Contents()) == [] then None else Some(old(Contents())[0]))
      ensures Contents() == if old(Contents()) == [] then [] else old(Contents())[1..]
    {
      if size == 0 { return None; }
      r := Some(items[head]);
      Wraps(head + 1, items.Length);
      head := (head + 1) % items.Length;
      size := size - 1;
    }

    /** A full queue drops its oldest element. */
    method Append(item: T) returns (ok: bool)
      requires Valid()
      modifies this, items
      ensures Valid() && ok == (items.Length > 0)
      ensures ok ==> Contents() == Last(items.Length, old(Contents()) + [item])
      ensures !ok ==> Contents() == old(Contents())
    {
      if items.Length == 0 { return false; }
      hide Contents, Last;
      ghost var all, t, z := Contents() + [item], tail, size;
      items[tail] := item;
      Wraps(head + 1, items.Length);
      Wraps(tail + 1, items.Length);
      if size == items.Length {
        head := (head + 1) % items.Length;
      } else {
        size := size + 1;
      }
      tail := (tail + 1) % items.Length;
      ok := true;
      ghost var after := Contents();
      forall i | 0 <= i < |after|
        ensures after[i] == all[|all| - |after| + i]
      {
        var k := |all| - |after| + i;
        if k < z {
          assert Slot(i) == old(Slot(k)) != t && all[k] == old(items[Slot(k)]);
        } else {
          assert Slot(i) == t;
        }
      }
      IsLast(items.Length, all, after);
    }
  }
}
