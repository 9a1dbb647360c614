/** The list of a setting's children: an array that grows by chunks. */
module ConfigList {

  const CHUNK_SIZE := 16

  /** The room that whole chunks for n elements have. */
  function Room(n: nat): nat { (n + (CHUNK_SIZE - 1)) / CHUNK_SIZE * CHUNK_SIZE }

  lemma {:induction false} NextRoom(n: nat)
    ensures Room(n) >= n && (n % CHUNK_SIZE != 0 ==> Room(n) > n && Room(n + 1) == Room(n))
    ensures n % CHUNK_SIZE == 0 ==> Room(n + 1) == n + CHUNK_SIZE
  {
  }

  class List<T(0)> {
    var elements: array?<T>
    var length: nat

    /** The array has room up to the next whole chunk, and may keep more after removals. */
    ghost predicate Valid()
      reads this, elements
    {
      if elements == null then length == 0
      else elements.Length >= Room(length)
    }

    ghost function Contents(): seq<T>
      reads this, elements
      requires Valid()
    {
      if elements == null then [] else elements[..length]
    }

    constructor ()
      ensures Valid() && Contents() == [] && elements == null
    {
      elements, length := null, 0;
    }

    /** Gives the array another size, keeping what fits. */
    method Reallocate(size: nat)
      requires Valid() && length <= size
      modifies this`elements
      ensures elements != null && fresh(elements) && elements.Length == size && elements[..length] == old(Contents())
    {
      var moved := new T[size];
      var i := 0;
      while i < length
        invariant i <= length && moved[..i] == Contents()[..i]
        modifies moved
      {
        moved[i] := elements[i];
        i := i + 1;
      }
      elements := moved;
    }

    method Add(x: T)
      requires Valid()
      modifies this, elements
      ensures Valid() && Contents() == old(Contents()) + [x]
      ensures elements != old(elements) ==> fresh(elements)
      ensures elements == old(elements) <==> old(length) % CHUNK_SIZE != 0
    {
      ghost var before := Contents();
      NextRoom(length);
      if length % CHUNK_SIZE == 0 {
        Reallocate(length + CHUNK_SIZE);
      }
      elements[length] := x;
      length := length + 1;
      assert Contents() == before + [x];
    }

    /** Closes the gap that an element leaves. */
    method RemoveAt(idx: nat) returns (removed: T)
      requires Valid() && idx < length
      modifies this`length, elements
      ensures Valid() && removed == old(Contents())[idx]
      ensures Contents() == old(Contents()[..idx] + Contents()[idx + 1..])
    {
      removed := elements[idx];
      MoveDown(elements, idx, length);
      length := length - 1;
      assert elements[..length] == elements[..idx] + elements[idx..length];
    }
  }

  /** Moves the elements behind lo one place down, as memmove does. */
  method MoveDown<T>(a: array<T>, lo: nat, hi: nat)
    requires lo < hi <= a.Length
    modifies a
    ensures a[..lo] == old(a[..lo]) && a[lo..hi - 1] == old(a[lo + 1..hi])
  {
    ghost var before := a[..];
    var i := lo;
    while i + 1 < hi
      invariant lo <= i < hi
      invariant forall k :: 0 <= k < lo ==> a[k] == before[k]
      invariant forall k :: lo <= k < i ==> a[k] == before[k + 1]
      invariant forall k :: i < k < hi ==> a[k] == before[k]
    {
      a[i] := a[i + 1];
      i := i + 1;
    }
  }
}
