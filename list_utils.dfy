/**
 * demoFunction.py: `intersect` and `union`, which collect elements without repeats in
 * the order they are first met, and the one-line functions `swap`, `func`, `func2`,
 * `times` and `connectURL`.
 *
 * Python strings are sequences of characters, so `intersect("HAM", "SPAM")` works on
 * `seq<char>`; the functions are generic over any element type with equality.
 */
module DemoFunction {

  // ---------------------------------------------------------------- first occurrences

  predicate NoRepeats<T(==)>(xs: seq<T>) {
    forall i, j :: 0 <= i < j < |xs| ==> xs[i] != xs[j]
  }

  /** `xs` without repeats: each element kept where it first occurs. */
  function Dedup<T(==)>(xs: seq<T>): seq<T> {
    if xs == [] then []
    else
      var d := Dedup(xs[..|xs| - 1]);
      if xs[|xs| - 1] in d then d else d + [xs[|xs| - 1]]
  }

  lemma DedupSnoc<T>(xs: seq<T>, y: T)
    ensures Dedup(xs + [y]) == if y in Dedup(xs) then Dedup(xs) else Dedup(xs) + [y]
  {
    assert (xs + [y])[..|xs|] == xs;
  }

  /**
   * Dedup keeps exactly the elements of `xs`, each once; and what it makes of a prefix of
   * `xs` is a prefix of what it makes of `xs`, so elements come in the order of their
   * first occurrences.
   */
  lemma {:induction false} DedupMeans<T>(xs: seq<T>)
    ensures NoRepeats(Dedup(xs))
    ensures forall x :: x in Dedup(xs) <==> x in xs
    ensures forall n :: 0 <= n <= |xs| ==> Dedup(xs[..n]) <= Dedup(xs)
  {
    if xs != [] {
      var init, y := xs[..|xs| - 1], xs[|xs| - 1];
      assert xs == init + [y];
      DedupMeans(init);
      DedupSnoc(init, y);
      forall n | 0 <= n <= |xs|
        ensures Dedup(xs[..n]) <= Dedup(xs)
      {
        if n < |xs| {
          assert xs[..n] == init[..n];
        } else {
          assert xs[..n] == xs;
        }
      }
    }
  }

  // ---------------------------------------------------------------- intersect

  /** The elements of `p` that occur in `q`, in the order of `p`. */
  function Common<T(==)>(p: seq<T>, q: seq<T>): seq<T> {
    if p == [] then []
    else Common(p[..|p| - 1], q) + (if p[|p| - 1] in q then [p[|p| - 1]] else [])
  }

  lemma {:induction false} CommonMeans<T>(p: seq<T>, q: seq<T>)
    ensures forall x :: x in Common(p, q) <==> x in p && x in q
  {
    if p != [] {
      CommonMeans(p[..|p| - 1], q);
      assert p == p[..|p| - 1] + [p[|p| - 1]];
    }
  }

  /** Common of a prefix of `p` is a prefix of Common of `p`. */
  lemma {:induction false} CommonPrefix<T>(p: seq<T>, q: seq<T>, n: nat)
    requires n <= |p|
    ensures Common(p[..n], q) <= Common(p, q)
    decreases |p|
  {
    if n < |p| {
      var init := p[..|p| - 1];
      assert p[..n] == init[..n];
      CommonPrefix(init, q, n);
    } else {
      assert p[..n] == p;
    }
  }

  /** intersect: each element of `pre` that is also in `post`, once, in `pre`'s order. */
  method Intersect<T(==)>(pre: seq<T>, post: seq<T>) returns (result: seq<T>)
    ensures result == Dedup(Common(pre, post))
  {
    result := [];
    var i := 0;
    while i < |pre|
      invariant 0 <= i <= |pre|
      invariant result == Dedup(Common(pre[..i], post))
    {
      var x := pre[i];
      assert pre[..i + 1][..i] == pre[..i];
      if x in post {
        assert Common(pre[..i + 1], post) == Common(pre[..i], post) + [x];
        DedupSnoc(Common(pre[..i], post), x);
        if x !in result {
          result := result + [x];
        }
      } else {
        assert Common(pre[..i + 1], post) == Common(pre[..i], post);
      }
      i := i + 1;
    }
    assert pre[..i] == pre;
  }

  /**
   * What intersect promises: no repeats; x is in the result exactly when it is in both
   * arguments; and the result for a prefix of `pre` is a prefix of the result, so elements
   * come in the order of their first occurrence in `pre`.
   */
  lemma IntersectMeans<T>(pre: seq<T>, post: seq<T>)
    ensures NoRepeats(Dedup(Common(pre, post)))
    ensures forall x :: x in Dedup(Common(pre, post)) <==> x in pre && x in post
    ensures forall n :: 0 <= n <= |pre| ==> Dedup(Common(pre[..n], post)) <= Dedup(Common(pre, post))
  {
    var c := Common(pre, post);
    DedupMeans(c);
    CommonMeans(pre, post);
    forall n | 0 <= n <= |pre|
      ensures Dedup(Common(pre[..n], post)) <= Dedup(c)
    {
      CommonPrefix(pre, post, n);
      assert Common(pre[..n], post) == c[..|Common(pre[..n], post)|];
    }
  }

  /** The call in the script: `intersect("HAM", "SPAM")` gives ['A', 'M']. */
  lemma IntersectExample()
    ensures Dedup(Common("HAM", "SPAM")) == "AM"
  {
    assert Common("H", "SPAM") == "" by {
      assert "H"[..0] == "";
    }
    assert Common("HA", "SPAM") == "A" by {
      assert "HA"[..1] == "H";
    }
    assert Common("HAM", "SPAM") == "AM" by {
      assert "HAM"[..2] == "HA";
    }
    DedupSnoc("", 'A');
    DedupSnoc("A", 'M');
    assert "" + "A" == "A" && "A" + "M" == "AM";
  }

  // ---------------------------------------------------------------- union

  /** All arguments one after another. */
  function Concat<T>(ar: seq<seq<T>>): seq<T> {
    if ar == [] then [] else Concat(ar[..|ar| - 1]) + ar[|ar| - 1]
  }

  lemma {:induction false} ConcatMeans<T>(ar: seq<seq<T>>, x: T)
    ensures x in Concat(ar) <==> exists k :: 0 <= k < |ar| && x in ar[k]
  {
    if ar != [] {
      var init := ar[..|ar| - 1];
      ConcatMeans(init, x);
      assert forall k :: 0 <= k < |init| ==> init[k] == ar[k];
      if x in ar[|ar| - 1] {
        assert x in Concat(ar);
      }
    }
  }

  /** union(*ar): every element of every argument, once, in the order first met. */
  method Union<T(==)>(ar: seq<seq<T>>) returns (result: seq<T>)
    ensures result == Dedup(Concat(ar))
  {
    result := [];
    var i := 0;
    while i < |ar|
      invariant 0 <= i <= |ar|
      invariant result == Dedup(Concat(ar[..i]))
    {
      var item := ar[i];
      var j := 0;
      assert Concat(ar[..i]) + item[..0] == Concat(ar[..i]);
      while j < |item|
        invariant 0 <= j <= |item|
        invariant result == Dedup(Concat(ar[..i]) + item[..j])
      {
        var x := item[j];
        assert Concat(ar[..i]) + item[..j + 1] == (Concat(ar[..i]) + item[..j]) + [x];
        DedupSnoc(Concat(ar[..i]) + item[..j], x);
        if x !in result {
          result := result + [x];
        }
        j := j + 1;
      }
      assert ar[..i + 1][..i] == ar[..i] && item[..j] == item;
      i := i + 1;
    }
    assert ar[..i] == ar;
  }

  /**
   * What union promises: no repeats, exactly the elements of the arguments, and the
   * union of the first arguments is a prefix of the union of all of them.
   */
  lemma UnionMeans<T>(ar: seq<seq<T>>)
    ensures NoRepeats(Dedup(Concat(ar)))
    ensures forall x :: x in Dedup(Concat(ar)) <==> exists k :: 0 <= k < |ar| && x in ar[k]
    ensures forall n :: 0 <= n <= |ar| ==> Dedup(Concat(ar[..n])) <= Dedup(Concat(ar))
  {
    DedupMeans(Concat(ar));
    forall x
      ensures x in Dedup(Concat(ar)) <==> exists k :: 0 <= k < |ar| && x in ar[k]
    {
      ConcatMeans(ar, x);
    }
    forall n | 0 <= n <= |ar|
      ensures Dedup(Concat(ar[..n])) <= Dedup(Concat(ar))
    {
      ConcatPrefix(ar, n);
      assert Concat(ar[..n]) == Concat(ar)[..|Concat(ar[..n])|];
    }
  }

  lemma {:induction false} ConcatPrefix<T>(ar: seq<seq<T>>, n: nat)
    requires n <= |ar|
    ensures Concat(ar[..n]) <= Concat(ar)
  {
    if n < |ar| {
      var init := ar[..|ar| - 1];
      assert ar[..n] == init[..n];
      ConcatPrefix(init, n);
    } else {
      assert ar[..n] == ar;
    }
  }

  // ---------------------------------------------------------------- one-liners

  /** swap(x, y) returns the pair (y, x). */
  function Swap<A, B>(x: A, y: B): (r: (B, A))
    ensures r.0 == y && r.1 == x
  {
    (y, x)
  }

  /** Swapping twice gives back the arguments. */
  lemma SwapTwice<A, B>(x: A, y: B)
    ensures var r := Swap(x, y); Swap(r.0, r.1) == (x, y)
  {
  }

  /** The module-level X that func reads. */
  const X := 5

  /** func(a) adds the global X. */
  function Func(a: int): (r: int)
    ensures r - a == X
  {
    a + X
  }

  /** func2(a) adds its own local X = 10; the global is not consulted. */
  function Func2(a: int): (r: int)
    ensures r - a == 10 && r == Func(a) + 5
  {
    var x := 10;
    a + x
  }

  /** times(a=10, b=20). */
  function Times(a: int := 10, b: int := 20): int {
    a * b
  }

  /** The three calls in the script. */
  lemma TimesCalls()
    ensures Times() == 200 && Times(5) == 100 && Times(5, 6) == 30
  {
  }

  /** A missing `a` counts as 10 and a missing `b` as 20, whatever the other argument. */
  lemma TimesDefaults(a: int, b: int)
    ensures Times(b := b) == 10 * b && Times(a) == a * 20 && Times(a, b) == Times(b, a)
  {
  }

  /** connectURL(server, port): "http://" + server + ":" + port. */
  function ConnectURL(server: string, port: string): (r: string)
    ensures |r| == 8 + |server| + |port|
    ensures r[..7] == "http://" && r[7..7 + |server|] == server
    ensures r[7 + |server|] == ':' && r[8 + |server|..] == port
  {
    "http://" + server + ":" + port
  }

  /** The calls in the script, positional and by keyword, both give "http://daum.net:80". */
  lemma ConnectURLExample()
    ensures ConnectURL("daum.net", "80") == "http://daum.net:80"
  {
  }
}
