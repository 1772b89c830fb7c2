/** Optional values, results, and order-preserving deduplication of sequences. */
module Sequences {

  datatype Option<+T> = None | Some(value: T) {
    /** Prefers this value, falling back to `other`: Rust's `Option::or`. */
    function Or(other: Option<T>): Option<T> {
      if Some? then this else other
    }

    function UnwrapOr(default: T): T {
      if Some? then value else default
    }
  }

  datatype Result<+T> = Ok(value: T) | Err

  ghost predicate NoDup<T(!new)>(s: seq<T>) {
    forall i, j :: 0 <= i < j < |s| ==> s[i] != s[j]
  }

  function Last<T>(s: seq<T>): T
    requires s != []
  {
    s[|s| - 1]
  }

  function Init<T>(s: seq<T>): seq<T>
    requires s != []
  {
    s[..|s| - 1]
  }

  /** Appends `x` unless it is already present. */
  function PushNew<T(==)>(s: seq<T>, x: T): seq<T> {
    if x in s then s else s + [x]
  }

  /** Appends, in order, every element of `b` that is not present yet. */
  function AppendNew<T(==)>(a: seq<T>, b: seq<T>): seq<T> {
    if b == [] then a else PushNew(AppendNew(a, Init(b)), Last(b))
  }

  /** The elements of `s` in the order of their first occurrence. */
  function FirstOcc<T(==)>(s: seq<T>): seq<T> {
    AppendNew([], s)
  }

  function Concat<T>(ss: seq<seq<T>>): seq<T> {
    if ss == [] then [] else Concat(Init(ss)) + Last(ss)
  }

  /** The position at which `x` first occurs in `s`. */
  function IndexOf<T(==)>(s: seq<T>, x: T): (i: nat)
    requires x in s
    ensures i < |s| && s[i] == x && x !in s[..i]
  {
    if s[0] == x then 0 else
      assert s == [s[0]] + s[1..];
      1 + IndexOf(s[1..], x)
  }

  lemma {:induction false} AppendNewMembers<T>(a: seq<T>, b: seq<T>)
    ensures forall x :: x in AppendNew(a, b) <==> x in a || x in b
  {
    if b != [] {
      assert b == Init(b) + [Last(b)];
      AppendNewMembers(a, Init(b));
    }
  }

  lemma {:induction false} AppendNewConcat<T>(a: seq<T>, b: seq<T>, c: seq<T>)
    ensures AppendNew(a, b + c) == AppendNew(AppendNew(a, b), c)
  {
    if c == [] {
      assert b + c == b;
    } else {
      assert Init(b + c) == b + Init(c) && Last(b + c) == Last(c);
      AppendNewConcat(a, b, Init(c));
    }
  }

  /** Deduplicating appends can be regrouped freely, whatever the lists contain. */
  lemma {:induction false} AppendNewAssociative<T>(a: seq<T>, b: seq<T>, c: seq<T>)
    ensures AppendNew(AppendNew(a, b), c) == AppendNew(a, AppendNew(b, c))
  {
    if c != [] {
      AppendNewAssociative(a, b, Init(c));
      var inner := AppendNew(b, Init(c));
      if Last(c) in inner {
        AppendNewMembers(a, inner);
      } else {
        assert Init(inner + [Last(c)]) == inner;
      }
    }
  }

  lemma {:induction false} AppendNewKeepsNoDup<T(!new)>(a: seq<T>, b: seq<T>)
    requires NoDup(a)
    ensures NoDup(AppendNew(a, b))
  {
    if b != [] {
      AppendNewKeepsNoDup(a, Init(b));
    }
  }

  /** A prefix is kept as it is, and what is added depends only on the prefix's elements. */
  lemma {:induction false} AppendNewTail<T>(a: seq<T>, a': seq<T>, b: seq<T>) returns (tail: seq<T>)
    requires forall x :: x in a <==> x in a'
    ensures AppendNew(a, b) == a + tail && AppendNew(a', b) == a' + tail
  {
    if b == [] {
      tail := [];
    } else {
      tail := AppendNewTail(a, a', Init(b));
      assert Last(b) in a + tail <==> Last(b) in a' + tail;
      if Last(b) !in a + tail {
        tail := tail + [Last(b)];
      }
    }
  }

  lemma {:induction false} FirstOccOfNoDup<T(!new)>(s: seq<T>)
    ensures FirstOcc(s) == s <==> NoDup(s)
    ensures |FirstOcc(s)| <= |s|
  {
    if s != [] {
      assert s == Init(s) + [Last(s)];
      FirstOccOfNoDup(Init(s));
      AppendNewMembers([], Init(s));
      AppendNewKeepsNoDup([], s);
      if NoDup(s) {
        assert NoDup(Init(s));
        assert Last(s) !in Init(s);
      }
    }
  }

  /** Appending without duplicates deduplicates the whole list exactly when the prefix had none. */
  lemma AppendNewIsFirstOcc<T(!new)>(a: seq<T>, b: seq<T>)
    ensures AppendNew(a, b) == FirstOcc(a + b) <==> NoDup(a)
  {
    AppendNewConcat([], a, b);
    AppendNewMembers([], a);
    var tail := AppendNewTail(a, FirstOcc(a), b);
    FirstOccOfNoDup(a);
    if AppendNew(a, b) == FirstOcc(a + b) {
      assert |a| == |FirstOcc(a)|;
      assert a == (a + tail)[..|a|] && FirstOcc(a) == (FirstOcc(a) + tail)[..|a|];
    }
  }

  /** The elements of `s`, each once, ordered by where they first occur in `s`. */
  ghost predicate ListsFirsts<T(!new)>(s: seq<T>, firsts: seq<T>) {
    && NoDup(firsts)
    && (forall x :: x in firsts <==> x in s)
    && forall i, j :: 0 <= i < j < |firsts| ==>
      firsts[i] in s && firsts[j] in s && IndexOf(s, firsts[i]) < IndexOf(s, firsts[j])
  }

  lemma {:induction false} IndexOfNew<T>(p: seq<T>, x: T)
    requires x !in p
    ensures IndexOf(p + [x], x) == |p|
  {
    if p != [] {
      assert (p + [x])[1..] == p[1..] + [x];
      IndexOfNew(p[1..], x);
    }
  }

  lemma ListsFirstsGrows<T(!new)>(p: seq<T>, firsts: seq<T>, x: T)
    requires ListsFirsts(p, firsts)
    ensures ListsFirsts(p + [x], PushNew(firsts, x))
  {
    var s, grown := p + [x], PushNew(firsts, x);
    forall i, j | 0 <= i < j < |grown|
      ensures grown[i] in s && grown[j] in s && IndexOf(s, grown[i]) < IndexOf(s, grown[j])
    {
      assert grown[i] == firsts[i] && firsts[i] in firsts;
      IndexOfPrefix(p, [x], grown[i]);
      if j < |firsts| {
        assert firsts[j] in firsts;
        IndexOfPrefix(p, [x], grown[j]);
      } else {
        IndexOfNew(p, x);
      }
    }
  }

  lemma {:induction false} FirstOccMeaning<T(!new)>(s: seq<T>)
    ensures ListsFirsts(s, FirstOcc(s))
  {
    if s != [] {
      FirstOccMeaning(Init(s));
      ListsFirstsGrows(Init(s), FirstOcc(Init(s)), Last(s));
      assert s == Init(s) + [Last(s)];
    }
  }

  lemma {:induction false} IndexOfPrefix<T>(p: seq<T>, q: seq<T>, x: T)
    requires x in p
    ensures IndexOf(p + q, x) == IndexOf(p, x)
  {
    if p[0] != x {
      assert (p + q)[1..] == p[1..] + q;
      assert p == [p[0]] + p[1..];
      IndexOfPrefix(p[1..], q, x);
    }
  }

  lemma {:induction false} ConcatAppend<T>(a: seq<seq<T>>, b: seq<seq<T>>)
    ensures Concat(a + b) == Concat(a) + Concat(b)
  {
    if b == [] {
      assert a + b == a;
    } else {
      assert Init(a + b) == a + Init(b) && Last(a + b) == Last(b);
      ConcatAppend(a, Init(b));
      assert Concat(a + b) == Concat(a + Init(b)) + Last(b);
    }
  }
}
