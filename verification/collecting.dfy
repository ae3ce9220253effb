/** What a sequence holds of one kind, in order. */
module Collecting {

  /** What `f` finds in the elements of a sequence, in order. */
  function Collect<S, T>(s: seq<S>, f: S -> seq<T>): seq<T> {
    if s == [] then [] else f(s[0]) + Collect(s[1..], f)
  }

  lemma CollectOne<S, T>(x: S, f: S -> seq<T>)
    ensures Collect([x], f) == f(x)
  {
    assert [x][1..] == [];
  }

  lemma {:induction false} CollectAppend<S, T>(a: seq<S>, b: seq<S>, f: S -> seq<T>)
    ensures Collect(a + b, f) == Collect(a, f) + Collect(b, f)
  {
    if a == [] {
      assert a + b == b;
    } else {
      assert (a + b)[0] == a[0] && (a + b)[1..] == a[1..] + b;
      CollectAppend(a[1..], b, f);
      assert f(a[0]) + (Collect(a[1..], f) + Collect(b, f)) == f(a[0]) + Collect(a[1..], f) + Collect(b, f);
    }
  }

  lemma CollectSnoc<S, T>(a: seq<S>, x: S, f: S -> seq<T>)
    ensures Collect(a + [x], f) == Collect(a, f) + f(x)
  {
    CollectAppend(a, [x], f);
    CollectOne(x, f);
  }

  lemma CollectTwo<S, T>(x: S, y: S, f: S -> seq<T>)
    ensures Collect([x, y], f) == f(x) + f(y)
  {
    assert [x, y] == [x] + [y];
    CollectOne(x, f);
    CollectSnoc([x], y, f);
  }
}
