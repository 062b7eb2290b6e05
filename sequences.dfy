/**
 * Sequence helpers shared by every extractor: each extractor walks a list of
 * child nodes in order and appends what each child yields to a local list.
 * FlatMap is that loop's result, defined from the back so that one more loop
 * iteration is one more unfolding.
 */
module Sequences {

  /** The concatenation, in order, of what `f` yields for every element of `s`. */
  function FlatMap<A, B>(s: seq<A>, f: A --> seq<B>): seq<B>
    requires forall a | a in s :: f.requires(a)
  {
    if s == [] then [] else FlatMap(s[..|s| - 1], f) + f(s[|s| - 1])
  }

  /** Mapping over a concatenation is the concatenation of the two mappings. */
  lemma {:induction false} FlatMapAppend<A, B>(s: seq<A>, t: seq<A>, f: A --> seq<B>)
    requires forall a | a in s + t :: f.requires(a)
    ensures FlatMap(s + t, f) == FlatMap(s, f) + FlatMap(t, f)
  {
    if t == [] {
      assert s + t == s;
    } else {
      var t' := t[..|t| - 1];
      assert (s + t)[..|s + t| - 1] == s + t';
      assert (s + t)[|s + t| - 1] == t[|t| - 1];
      FlatMapAppend(s, t', f);
    }
  }

  /** The positions, in increasing order, of the elements of `s` for which `f` yields something. */
  ghost function Kept<A, B>(s: seq<A>, f: A --> seq<B>): seq<nat>
    requires forall a | a in s :: f.requires(a)
  {
    if s == [] then []
    else Kept(s[..|s| - 1], f) + (if f(s[|s| - 1]) != [] then [|s| - 1] else [])
  }

  /** `Kept` lists increasing positions of `s`, and exactly those whose element yields something. */
  lemma {:induction false} KeptPositions<A, B>(s: seq<A>, f: A --> seq<B>)
    requires forall a | a in s :: f.requires(a)
    ensures forall k | 0 <= k < |Kept(s, f)| :: Kept(s, f)[k] < |s| && f(s[Kept(s, f)[k]]) != []
    ensures forall k, l | 0 <= k < l < |Kept(s, f)| :: Kept(s, f)[k] < Kept(s, f)[l]
    ensures forall i | 0 <= i < |s| && f(s[i]) != [] :: i in Kept(s, f)
  {
    if s != [] {
      var init, last := s[..|s| - 1], |s| - 1;
      assert forall a | a in init :: a in s;
      KeptPositions(init, f);
      var prev := Kept(init, f);
      forall k | 0 <= k < |prev|
        ensures f(s[prev[k]]) != []
      {
        assert init[prev[k]] == s[prev[k]];
      }
      forall i | 0 <= i < last && f(s[i]) != []
        ensures i in prev
      {
        assert init[i] == s[i];
      }
    }
  }

  /**
   * When every element yields at most one value, the k-th value of the
   * result is the one yielded by the element at position `Kept(s, f)[k]`.
   */
  lemma {:induction false} KeptValues<A, B>(s: seq<A>, f: A --> seq<B>)
    requires forall a | a in s :: f.requires(a) && |f(a)| <= 1
    ensures |Kept(s, f)| == |FlatMap(s, f)|
    ensures forall k | 0 <= k < |Kept(s, f)| ::
      Kept(s, f)[k] < |s| && f(s[Kept(s, f)[k]]) == [FlatMap(s, f)[k]]
  {
    if s != [] {
      var init, last := s[..|s| - 1], |s| - 1;
      assert forall a | a in init :: a in s;
      KeptValues(init, f);
      var prev, out := Kept(init, f), FlatMap(init, f);
      var kept, res := Kept(s, f), FlatMap(s, f);
      var y := f(s[last]);
      assert res == out + y;
      if y == [] {
        assert kept == prev;
        assert res == out;
      } else {
        assert kept == prev + [last];
        assert y == [y[0]];
        assert kept[|prev|] == last && res[|prev|] == y[0];
      }
      forall k | 0 <= k < |prev|
        ensures kept[k] == prev[k] && res[k] == out[k] && s[kept[k]] == init[prev[k]]
      {
      }
    }
  }

  /**
   * When every element yields at most one value, the result is an
   * order-preserving selection: the k-th value of the result is the one
   * yielded by the element at position `Kept(s, f)[k]`, those positions
   * increase, and every element that yields a value is among them.
   */
  lemma {:induction false} KeptSelects<A, B>(s: seq<A>, f: A --> seq<B>)
    requires forall a | a in s :: f.requires(a) && |f(a)| <= 1
    ensures |Kept(s, f)| == |FlatMap(s, f)|
    ensures forall k | 0 <= k < |Kept(s, f)| ::
      Kept(s, f)[k] < |s| && f(s[Kept(s, f)[k]]) == [FlatMap(s, f)[k]]
    ensures forall k, l | 0 <= k < l < |Kept(s, f)| :: Kept(s, f)[k] < Kept(s, f)[l]
    ensures forall i | 0 <= i < |s| && f(s[i]) != [] :: i in Kept(s, f)
  {
    KeptPositions(s, f);
    KeptValues(s, f);
  }
}
