/** Facts about finite sets, sequences and multisets that the proofs call by name. */
module Collections {

  lemma SubsetSize<T>(a: set<T>, b: set<T>)
    requires a <= b
    ensures |a| <= |b|
    ensures |a| == |b| ==> a == b
  {
    assert b == a + (b - a);
  }

  lemma WithoutOne<T>(s: seq<T>, i: nat)
    requires i < |s|
    ensures multiset(s) == multiset(s[..i] + s[i + 1..]) + multiset{s[i]}
  {
    assert s == s[..i] + [s[i]] + s[i + 1..];
  }

  lemma CancelOne<T>(a: multiset<T>, b: multiset<T>, t: T)
    requires a + multiset{t} == b + multiset{t}
    ensures a == b
  {
    assert a == (a + multiset{t}) - multiset{t};
    assert b == (b + multiset{t}) - multiset{t};
  }

  ghost predicate OneToOne<A(!new), B>(f: A -> B) {
    forall x, y :: f(x) == f(y) ==> x == y
  }

  ghost function Image<A(!new), B>(s: set<A>, f: A -> B): set<B> {
    set x | x in s :: f(x)
  }

  lemma {:induction false} ImageSize<A(!new), B>(s: set<A>, f: A -> B)
    requires OneToOne(f)
    ensures |Image(s, f)| == |s|
    decreases |s|
  {
    if s != {} {
      var x :| x in s;
      var rest := s - {x};
      ImageSize(rest, f);
      assert Image(s, f) == Image(rest, f) + {f(x)};
      assert f(x) !in Image(rest, f);
    }
  }

  ghost predicate NoDuplicates<T>(s: seq<T>) {
    forall i, j | 0 <= i < j < |s| :: s[i] != s[j]
  }

  lemma {:induction false} OnceAtMost<T>(s: seq<T>, x: T)
    requires NoDuplicates(s)
    ensures multiset(s)[x] == if x in s then 1 else 0
  {
    if s != [] {
      var last := |s| - 1;
      OnceAtMost(s[..last], x);
      assert s == s[..last] + [s[last]];
    }
  }

  /** Two lists without repetitions and with the same members are permutations of each other. */
  lemma SameMembers<T>(a: seq<T>, b: seq<T>)
    requires NoDuplicates(a) && NoDuplicates(b)
    requires forall x :: x in a <==> x in b
    ensures multiset(a) == multiset(b)
  {
    forall x
      ensures multiset(a)[x] == multiset(b)[x]
    {
      OnceAtMost(a, x);
      OnceAtMost(b, x);
    }
  }

  ghost function Members<T>(s: seq<T>): set<T> {
    set x | x in s
  }

  lemma {:induction false} SizeWithoutDuplicates<T>(s: seq<T>)
    requires NoDuplicates(s)
    ensures |Members(s)| == |s|
  {
    if s == [] {
      assert Members(s) == {};
    } else {
      var last := |s| - 1;
      SizeWithoutDuplicates(s[..last]);
      assert Members(s) == Members(s[..last]) + {s[last]};
      assert s[last] !in s[..last];
    }
  }
}
