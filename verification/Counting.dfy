/** Sizes of finite sets. */
module Counting {

  lemma {:induction false} SubsetIsNoLarger<T>(a: set<T>, b: set<T>)
    requires a <= b
    ensures |a| <= |b|
  {
    if a != {} {
      var x :| x in a;
      SubsetIsNoLarger(a - {x}, b - {x});
    }
  }

  /** f takes a into b, and no two elements of a to the same. */
  ghost predicate OneToOne<A, B>(a: set<A>, f: map<A, B>, b: set<B>)
  {
    && (forall x :: x in a ==> x in f && f[x] in b)
    && forall x, y :: x in a && y in a && f[x] == f[y] ==> x == y
  }

  lemma {:induction false} AtMostAsMany<A, B>(a: set<A>, f: map<A, B>, b: set<B>)
    requires OneToOne(a, f, b)
    ensures |a| <= |b|
  {
    if a != {} {
      var x :| x in a;
      AtMostAsMany(a - {x}, f, b - {f[x]});
    }
  }

  lemma {:induction false} AsMany<A, B>(a: set<A>, f: map<A, B>, b: set<B>)
    requires OneToOne(a, f, b)
    requires forall q :: q in b ==> exists x :: x in a && f[x] == q
    ensures |a| == |b|
  {
    if a == {} {
      assert b == {};
    } else {
      var x :| x in a;
      var rest := b - {f[x]};
      forall q | q in rest ensures exists y :: y in a - {x} && f[y] == q {
        var y :| y in a && f[y] == q;
        assert y in a - {x};
      }
      AsMany(a - {x}, f, rest);
    }
  }
}
