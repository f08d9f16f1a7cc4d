/** Occurrence of one sequence inside another, concatenation of chunk lists, and suffixes. */
module Sequences {

  type byte = x: int | 0 <= x < 256

  datatype Option<+T> = None | Some(value: T)

  /** `p` sits in `s` at index `i`. */
  predicate OccursAt<T(==)>(s: seq<T>, p: seq<T>, i: int) {
    0 <= i && i + |p| <= |s| && s[i..i + |p|] == p
  }

  /** Python's `p in s`. */
  predicate Occurs<T(==)>(s: seq<T>, p: seq<T>) {
    exists i :: 0 <= i <= |s| && OccursAt(s, p, i)
  }

  /** Some token of `toks` occurs in `s`: a regex search over literal alternatives. */
  predicate AnyOccurs<T(==)>(s: seq<T>, toks: seq<seq<T>>) {
    exists k :: 0 <= k < |toks| && Occurs(s, toks[k])
  }

  /** All chunks of a stream, joined. */
  function Flat<T>(chunks: seq<seq<T>>): seq<T> {
    if chunks == [] then [] else Flat(chunks[..|chunks| - 1]) + chunks[|chunks| - 1]
  }

  /** What `f` makes of each element, joined: a filtering comprehension. */
  function Gather<A, B>(f: A -> seq<B>, xs: seq<A>): seq<B> {
    if xs == [] then [] else Gather(f, xs[..|xs| - 1]) + f(xs[|xs| - 1])
  }

  lemma GatherSnoc<A, B>(f: A -> seq<B>, xs: seq<A>, x: A)
    ensures Gather(f, xs + [x]) == Gather(f, xs) + f(x)
  {
    assert (xs + [x])[..|xs|] == xs;
  }

  lemma GatherTake<A, B>(f: A -> seq<B>, xs: seq<A>, k: nat)
    requires k < |xs|
    ensures Gather(f, xs[..k + 1]) == Gather(f, xs[..k]) + f(xs[k])
  {
    assert xs[..k + 1][..k] == xs[..k];
  }

  lemma {:induction false} GatherConcat<A, B>(f: A -> seq<B>, a: seq<A>, b: seq<A>)
    ensures Gather(f, a + b) == Gather(f, a) + Gather(f, b)
    decreases |b|
  {
    if b == [] {
      assert a + b == a && Gather(f, a) + [] == Gather(f, a);
    } else {
      var b', x := b[..|b| - 1], b[|b| - 1];
      GatherConcat(f, a, b');
      assert b == b' + [x];
      Assoc(a, b', [x]);
      GatherSnoc(f, a + b', x);
      Assoc(Gather(f, a), Gather(f, b'), f(x));
    }
  }

  /** Two comprehensions in a row, as one. */
  lemma {:induction false} GatherGather<A, B, C>(f: A -> seq<B>, g: B -> seq<C>, h: A -> seq<C>, xs: seq<A>)
    requires forall i :: 0 <= i < |xs| ==> Gather(g, f(xs[i])) == h(xs[i])
    ensures Gather(g, Gather(f, xs)) == Gather(h, xs)
  {
    if xs != [] {
      var xs', x := xs[..|xs| - 1], xs[|xs| - 1];
      assert forall i :: 0 <= i < |xs'| ==> xs'[i] == xs[i];
      GatherGather(f, g, h, xs');
      GatherConcat(g, Gather(f, xs'), f(x));
    }
  }

  lemma {:induction false} GatherSame<A, B>(f: A -> seq<B>, h: A -> seq<B>, xs: seq<A>)
    requires forall i :: 0 <= i < |xs| ==> f(xs[i]) == h(xs[i])
    ensures Gather(f, xs) == Gather(h, xs)
  {
    if xs != [] {
      var xs' := xs[..|xs| - 1];
      assert forall i :: 0 <= i < |xs'| ==> xs'[i] == xs[i];
      GatherSame(f, h, xs');
    }
  }

  /** The newest `n` elements of `s`. */
  function Newest<T>(s: seq<T>, n: nat): (r: seq<T>)
    ensures |r| == if |s| <= n then |s| else n
  {
    if |s| <= n then s else s[|s| - n..]
  }

  lemma Assoc<T>(a: seq<T>, b: seq<T>, c: seq<T>)
    ensures (a + b) + c == a + (b + c)
  {
  }

  lemma Split1<T>(s: seq<T>)
    requires s != []
    ensures s == [s[0]] + s[1..]
  {
  }

  lemma OccursAtByElement<T>(s: seq<T>, p: seq<T>, i: int)
    requires 0 <= i && i + |p| <= |s|
    ensures OccursAt(s, p, i) <==> forall j :: 0 <= j < |p| ==> s[i + j] == p[j]
  {
    if forall j :: 0 <= j < |p| ==> s[i + j] == p[j] {
      assert s[i..i + |p|] == p;
    }
    if OccursAt(s, p, i) {
      forall j | 0 <= j < |p| ensures s[i + j] == p[j] {
        assert s[i..i + |p|][j] == p[j];
      }
    }
  }

  /** An occurrence in a context `a + s + b` that lies within `s` is an occurrence in `s`, and back. */
  lemma OccursAtShift<T>(a: seq<T>, s: seq<T>, b: seq<T>, p: seq<T>, i: int)
    requires 0 <= i && i + |p| <= |s|
    ensures OccursAt(a + s + b, p, |a| + i) <==> OccursAt(s, p, i)
  {
    assert (a + s + b)[|a| + i..|a| + i + |p|] == s[i..i + |p|];
  }

  /** An occurrence within the first part, seen from the whole. */
  lemma OccursAtFront<T>(s: seq<T>, c: seq<T>, p: seq<T>, i: int)
    requires 0 <= i && i + |p| <= |s|
    ensures OccursAt(s + c, p, i) <==> OccursAt(s, p, i)
  {
    assert (s + c)[i..i + |p|] == s[i..i + |p|];
  }

  /** An occurrence behind index `n`, seen from there. */
  lemma OccursAtTail<T>(t: seq<T>, n: nat, p: seq<T>, i: int)
    requires n <= i && i + |p| <= |t|
    ensures OccursAt(t[n..], p, i - n) <==> OccursAt(t, p, i)
  {
    assert t[n..][i - n..i - n + |p|] == t[i..i + |p|];
  }

  /** How a suffix grows at its end and shrinks at its front. */
  lemma NewestSnoc<T>(s: seq<T>, n: nat, x: T)
    requires n <= |s|
    ensures Newest(s + [x], n + 1) == Newest(s, n) + [x]
    ensures n > 0 ==> Newest(s, n)[1..] == Newest(s, n - 1)
  {
    assert (s + [x])[|s| - n..] == s[|s| - n..] + [x];
  }

  lemma OccursInContext<T>(a: seq<T>, s: seq<T>, b: seq<T>, p: seq<T>)
    requires Occurs(s, p)
    ensures Occurs(a + s + b, p)
  {
    var i :| 0 <= i <= |s| && OccursAt(s, p, i);
    OccursAtShift(a, s, b, p, i);
  }

  lemma OccursInSuffix<T>(a: seq<T>, s: seq<T>, p: seq<T>)
    requires Occurs(s, p)
    ensures Occurs(a + s, p)
  {
    OccursInContext(a, s, [], p);
    assert a + s + [] == a + s;
  }

  lemma OccursInPrefix<T>(s: seq<T>, b: seq<T>, p: seq<T>)
    requires Occurs(s, p)
    ensures Occurs(s + b, p)
  {
    OccursInContext([], s, b, p);
    assert [] + s + b == s + b;
  }

  lemma FlatAppend<T>(chunks: seq<seq<T>>, c: seq<T>)
    ensures Flat(chunks + [c]) == Flat(chunks) + c
  {
    assert (chunks + [c])[..|chunks|] == chunks;
  }

  lemma {:induction false} FlatConcat<T>(a: seq<seq<T>>, b: seq<seq<T>>)
    ensures Flat(a + b) == Flat(a) + Flat(b)
    decreases |b|
  {
    if b == [] {
      assert a + b == a;
      assert Flat(a) + [] == Flat(a);
    } else {
      var b', c := b[..|b| - 1], b[|b| - 1];
      FlatConcat(a, b');
      assert a + b == (a + b') + [c];
      FlatAppend(a + b', c);
      assert Flat(a) + (Flat(b') + c) == (Flat(a) + Flat(b')) + c;
    }
  }

  /** Truncating twice is truncating once: a bounded window only depends on the whole history. */
  lemma NewestOfNewest<T>(s: seq<T>, c: seq<T>, n: nat)
    ensures Newest(Newest(s, n) + c, n) == Newest(s + c, n)
  {
    if |s| > n {
      var cut := |s| - n;
      assert s == s[..cut] + s[cut..];
      Assoc(s[..cut], s[cut..], c);
      assert (s[..cut] + (s[cut..] + c))[|s| + |c| - n..] == (s[cut..] + c)[|c|..];
    }
  }
}
