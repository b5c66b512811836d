/** The identity-based linked list of hax/hax/motr/util.py.

    Nodes are heap cells spliced in place.  A ghost spine records the cells from the head on, and
    the abstract value of the list is the sequence of data found along the spine. */
module LinkedLists {

  /** `s` without its first occurrence of `x`; `s` itself when `x` does not occur. */
  function RemoveFirst<T(==)>(s: seq<T>, x: T): (r: seq<T>)
    ensures |r| == if x in s then |s| - 1 else |s|
  {
    if s == [] then []
    else if s[0] == x then s[1..]
    else [s[0]] + RemoveFirst(s[1..], x)
  }

  lemma {:induction false} RemoveFirstMultiset<T>(s: seq<T>, x: T)
    ensures multiset(RemoveFirst(s, x)) == multiset(s) - multiset{x}
    ensures x !in s ==> RemoveFirst(s, x) == s
  {
    if s != [] {
      assert s == [s[0]] + s[1..];
      if s[0] != x {
        RemoveFirstMultiset(s[1..], x);
      }
    }
  }

  lemma {:induction false} RemoveFirstAt<T>(a: seq<T>, x: T, b: seq<T>)
    requires x !in a
    ensures RemoveFirst(a + [x] + b, x) == a + b
  {
    var s := a + [x] + b;
    if a == [] {
      assert s[1..] == b == a + b;
    } else {
      assert s[1..] == a[1..] + [x] + b;
      RemoveFirstAt(a[1..], x, b);
      assert [a[0]] + (a[1..] + b) == a + b;
    }
  }

  /** Cutting position `k`, the first to hold `x`, out of `s` is removing `x`. */
  lemma SplicedContents<T>(s: seq<T>, k: nat, x: T)
    requires k < |s| && s[k] == x && x !in s[..k]
    ensures x in s && RemoveFirst(s, x) == s[..k] + s[k+1..]
  {
    assert s == s[..k] + [x] + s[k+1..];
    RemoveFirstAt(s[..k], x, s[k+1..]);
  }

  class Elem<T> {
    var data: T
    var next: Elem?<T>
    constructor (data: T)
      ensures this.data == data && this.next == null
    {
      this.data := data;
      this.next := null;
    }
  }

  class LinkedList<T(==)> {
    var head: Elem?<T>
    ghost var spine: seq<Elem<T>>

    ghost predicate Valid()
      reads this, spine
    {
      && head == NodeAt(spine, 0)
      && (forall i, j :: 0 <= i < j < |spine| ==> spine[i] != spine[j])
      && (forall i {:trigger spine[i].next} :: 0 <= i < |spine| ==> spine[i].next == NodeAt(spine, i + 1))
    }

    /** The cell at position `i` of a spine, null past its end. */
    static ghost function NodeAt(s: seq<Elem<T>>, i: nat): Elem?<T> {
      if i < |s| then s[i] else null
    }

    ghost function Contents(): (s: seq<T>)
      reads this, spine
      ensures |s| == |spine|
      ensures forall i :: 0 <= i < |s| ==> s[i] == spine[i].data
    {
      seq(|spine|, i requires 0 <= i < |spine| reads this, spine => spine[i].data)
    }

    constructor ()
      ensures Valid() && fresh(this) && spine == [] && Contents() == []
    {
      head := null;
      spine := [];
    }

    /** `add` pushes at the head. */
    method Add(value: T)
      requires Valid()
      modifies this
      ensures Valid() && (forall n :: n in spine ==> n in old(spine) || fresh(n))
      ensures Contents() == [value] + old(Contents())
    {
      var elem := new Elem(value);
      elem.next := head;
      head := elem;
      spine := [elem] + spine;
    }

    /** Takes the cell at position `k` out of the chain. */
    method Unlink(prev: Elem?<T>, q: Elem<T>, ghost k: nat)
      requires Valid() && k < |spine| && q == spine[k]
      requires prev == if k == 0 then null else NodeAt(spine, k - 1)
      modifies this, spine
      ensures Valid() && spine == old(spine)[..k] + old(spine)[k+1..]
      ensures Contents() == old(Contents())[..k] + old(Contents())[k+1..]
    {
      if prev == null {
        head := q.next;
      } else {
        prev.next := q.next;
      }
      spine := spine[..k] + spine[k+1..];
    }

    /** `remove` unlinks the first cell holding `value` and says whether there was one. */
    method Remove(value: T) returns (found: bool)
      requires Valid()
      modifies this, spine
      ensures Valid() && (forall n :: n in spine ==> n in old(spine))
      ensures found <==> value in old(Contents())
      ensures Contents() == RemoveFirst(old(Contents()), value)
    {
      var prev: Elem?<T> := null;
      var q := head;
      ghost var k := 0;
      ghost var was := Contents();
      while q != null && q.data != value
        modifies {}
        invariant 0 <= k <= |spine|
        invariant q == NodeAt(spine, k)
        invariant prev == if k == 0 then null else NodeAt(spine, k - 1)
        invariant value !in was[..k]
        decreases |spine| - k
      {
        assert was[..k+1] == was[..k] + [was[k]];
        prev := q;
        q := q.next;
        k := k + 1;
      }
      found := q != null;
      if found {
        SplicedContents(was, k, value);
        Unlink(prev, q, k);
      } else {
        assert was[..k] == was;
        RemoveFirstMultiset(was, value);
      }
    }

    /** `__contains__`. */
    method Contains(value: T) returns (found: bool)
      requires Valid()
      ensures found <==> value in Contents()
    {
      var q := head;
      ghost var k := 0;
      while q != null
        invariant 0 <= k <= |spine|
        invariant q == NodeAt(spine, k)
        invariant value !in Contents()[..k]
        decreases |spine| - k
      {
        if q.data == value {
          assert Contents()[k] == value;
          return true;
        }
        assert Contents()[..k+1] == Contents()[..k] + [Contents()[k]];
        q := q.next;
        k := k + 1;
      }
      assert Contents()[..k] == Contents();
      return false;
    }

    /** `__bool__` is the emptiness test. */
    predicate NonEmpty()
      requires Valid()
      reads this, spine
      ensures NonEmpty() <==> Contents() != []
    {
      head != null
    }
  }
}
