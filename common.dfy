/** Shared vocabulary: optional values, identifiers, and the list effect of
    removing every occurrence of a value (JavaScript's `filter(x => x !== v)`
    and MongoDB's `$pull` on an array of scalars). */
module Common {

  /** A value that may be absent (JavaScript's `undefined`/`null`). */
  datatype Option<+T> = None | Some(value: T) {
    /** The value, or `default` when absent (Mongoose's schema defaults). */
    function GetOr(default: T): T {
      match this
      case Some(v) => v
      case None => default
    }
  }

  /** A user reference, as the hexadecimal string of its ObjectId. */
  type UserId = string

  /** A conversation reference; the store hands them out in increasing order. */
  type ConvId = nat

  /** `s` with every occurrence of `x` removed, the rest kept in order. */
  function Without<T(==,!new)>(s: seq<T>, x: T): (r: seq<T>)
    ensures x !in r
    ensures forall y :: y in r <==> y in s && y != x
    ensures |r| <= |s|
  {
    if s == [] then []
    else if s[0] == x then Without(s[1..], x)
    else [s[0]] + Without(s[1..], x)
  }

  /** Removing `x` only drops its multiplicity to zero. */
  lemma {:induction false} MultisetWithout<T(!new)>(s: seq<T>, x: T)
    ensures multiset(Without(s, x)) == multiset(s)[x := 0]
  {
    if s != [] {
      MultisetWithout(s[1..], x);
      assert s == [s[0]] + s[1..];
    }
  }

  /** Removal distributes over concatenation, so order is kept. */
  lemma {:induction false} WithoutAppend<T(!new)>(s: seq<T>, t: seq<T>, x: T)
    ensures Without(s + t, x) == Without(s, x) + Without(t, x)
  {
    if s == [] {
      assert s + t == t;
    } else {
      assert (s + t)[1..] == s[1..] + t;
      WithoutAppend(s[1..], t, x);
    }
  }

  /** Removing a value that is not there changes nothing. */
  lemma {:induction false} WithoutAbsent<T(!new)>(s: seq<T>, x: T)
    requires x !in s
    ensures Without(s, x) == s
  {
    if s != [] {
      WithoutAbsent(s[1..], x);
    }
  }
}
