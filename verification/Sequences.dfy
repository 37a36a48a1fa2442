/** Sequences of pieces and what they hold one after another. */
module Sequences {
  function Flat<T>(cs: seq<seq<T>>): (s: seq<T>) {
    if cs == [] then [] else Flat(cs[..|cs| - 1]) + cs[|cs| - 1]
  }

  lemma FlatOne<T>(cs: seq<seq<T>>, c: seq<T>)
    ensures Flat(cs + [c]) == Flat(cs) + c
  {
    assert (cs + [c])[..|cs|] == cs;
  }

  lemma {:induction false} FlatAdd<T>(a: seq<seq<T>>, b: seq<seq<T>>)
    ensures Flat(a + b) == Flat(a) + Flat(b)
  {
    if b == [] {
      assert a + b == a;
    } else {
      var n := |b| - 1;
      FlatAdd(a, b[..n]);
      assert (a + b)[..|a| + n] == a + b[..n];
    }
  }

  lemma FlatUpTo<T>(cs: seq<seq<T>>, k: nat)
    requires k < |cs|
    ensures Flat(cs[..k + 1]) == Flat(cs[..k]) + cs[k]
  {
    assert cs[..k + 1] == cs[..k] + [cs[k]];
    FlatOne(cs[..k], cs[k]);
  }

  lemma FlatSplit<T>(cs: seq<seq<T>>, k: nat)
    requires k <= |cs|
    ensures Flat(cs) == Flat(cs[..k]) + Flat(cs[k..])
  {
    FlatAdd(cs[..k], cs[k..]);
    assert cs[..k] + cs[k..] == cs;
  }

  lemma FlatNothing<T>()
    ensures Flat<T>([]) == []
  {
  }

  lemma FlatSingle<T>(c: seq<T>)
    ensures Flat([c]) == c
  {
    FlatOne<T>([], c);
    assert [] + [c] == [c];
  }

  lemma FlatFirst<T>(r: seq<T>, rs: seq<seq<T>>)
    ensures Flat([r] + rs) == r + Flat(rs)
  {
    FlatAdd([r], rs);
    FlatSingle(r);
  }
}
