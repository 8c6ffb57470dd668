/** Order-preserving selection from a sequence, the shape of every pandas row filter here. */
module Seqs {

  /** `a` is obtained from `b` by deleting elements, keeping the order of the rest. */
  predicate SubseqOf<T(==)>(a: seq<T>, b: seq<T>)
    decreases |b|
  {
    if a == [] then true
    else if b == [] then false
    else if a[0] == b[0] then SubseqOf(a[1..], b[1..])
    else SubseqOf(a, b[1..])
  }

  /** Deleting the head of `b` keeps a subsequence a subsequence. */
  lemma {:induction false} SubseqOfTail<T>(a: seq<T>, x: T, b: seq<T>)
    requires SubseqOf(a, b)
    ensures SubseqOf(a, [x] + b)
    decreases |b|, 1
  {
    var xb := [x] + b;
    assert xb[1..] == b;
    if a != [] && a[0] == x {
      // the greedy match takes x; a[1..] is still a subsequence of b
      SubseqDrop(a, b);
    }
  }

  /** A subsequence stays one after its first element is dropped. */
  lemma {:induction false} SubseqDrop<T>(a: seq<T>, b: seq<T>)
    requires a != [] && SubseqOf(a, b)
    ensures SubseqOf(a[1..], b)
    decreases |b|, 0
  {
    if a[0] == b[0] {
      if a[1..] != [] {
        SubseqOfTail(a[1..], b[0], b[1..]);
        assert [b[0]] + b[1..] == b;
      }
    } else {
      SubseqDrop(a, b[1..]);
      if a[1..] != [] {
        SubseqOfTail(a[1..], b[0], b[1..]);
        assert [b[0]] + b[1..] == b;
      }
    }
  }

  /** A subsequence is never longer than the sequence it is taken from. */
  lemma {:induction false} SubseqLength<T>(a: seq<T>, b: seq<T>)
    requires SubseqOf(a, b)
    ensures |a| <= |b|
    decreases |b|
  {
    if a != [] {
      if a[0] == b[0] {
        SubseqLength(a[1..], b[1..]);
      } else {
        SubseqLength(a, b[1..]);
      }
    }
  }

  /** Every element of a subsequence is an element of the sequence. */
  lemma {:induction false} SubseqMembers<T>(a: seq<T>, b: seq<T>)
    requires SubseqOf(a, b)
    ensures forall x :: x in a ==> x in b
    decreases |b|
  {
    if a != [] {
      assert a == [a[0]] + a[1..];
      assert b == [b[0]] + b[1..];
      if a[0] == b[0] {
        SubseqMembers(a[1..], b[1..]);
      } else {
        SubseqMembers(a, b[1..]);
      }
    }
  }

  /** Appending to `b` keeps a subsequence a subsequence. */
  lemma {:induction false} SubseqExtend<T>(a: seq<T>, b: seq<T>, x: T)
    requires SubseqOf(a, b)
    ensures SubseqOf(a, b + [x])
    decreases |b|
  {
    if a != [] {
      var bx := b + [x];
      assert bx[0] == b[0] && bx[1..] == b[1..] + [x];
      if a[0] == b[0] {
        SubseqExtend(a[1..], b[1..], x);
      } else {
        SubseqExtend(a, b[1..], x);
      }
    }
  }

  /** Appending the same element to both sides keeps a subsequence a subsequence. */
  lemma {:induction false} SubseqAppend<T>(a: seq<T>, b: seq<T>, x: T)
    requires SubseqOf(a, b)
    ensures SubseqOf(a + [x], b + [x])
    decreases |b|
  {
    var ax := a + [x];
    var bx := b + [x];
    if b == [] {
      assert a == [] && ax == bx;
      assert ax[1..] == [];
    } else {
      assert bx[0] == b[0] && bx[1..] == b[1..] + [x];
      if a == [] {
        if b[0] != x {
          SubseqAppend(a, b[1..], x);
        } else {
          assert ax[1..] == [];
        }
      } else {
        assert ax[0] == a[0] && ax[1..] == a[1..] + [x];
        if a[0] == b[0] {
          SubseqAppend(a[1..], b[1..], x);
        } else {
          SubseqAppend(a, b[1..], x);
        }
      }
    }
  }
}
