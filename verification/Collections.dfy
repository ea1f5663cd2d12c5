/** Optional values, and the two list operations that the source writes as accumulating loops. */
module Collections {

  datatype Option<+T> = None | Some(value: T) {
    function GetOr(default: T): T {
      if Some? then value else default
    }
  }

  datatype Result<+T, +E> = Ok(value: T) | Err(error: E)

  /** The concatenation of `f(x)` for every `x` in `s`: what a loop computes that appends `f(x)` for each element. */
  function FlatMap<A, B>(f: A -> seq<B>, s: seq<A>): seq<B> {
    if s == [] then [] else FlatMap(f, s[..|s| - 1]) + f(s[|s| - 1])
  }

  lemma FlatMapStep<A, B>(f: A -> seq<B>, s: seq<A>, i: nat)
    requires i < |s|
    ensures FlatMap(f, s[..i + 1]) == FlatMap(f, s[..i]) + f(s[i])
  {
    assert s[..i + 1][..i] == s[..i];
  }

  lemma FlatMapAll<A, B>(f: A -> seq<B>, s: seq<A>)
    ensures FlatMap(f, s[..|s|]) == FlatMap(f, s)
    ensures FlatMap(f, s[..0]) == []
  {
    assert s[..|s|] == s;
  }

  lemma FlatMapSingle<A, B>(f: A -> seq<B>, a: A)
    ensures FlatMap(f, [a]) == f(a)
  {
  }

  /** `FlatMapStep` behind an accumulated prefix. */
  lemma FlatMapAppend<A, B>(before: seq<B>, f: A -> seq<B>, s: seq<A>, i: nat)
    requires i < |s|
    ensures before + FlatMap(f, s[..i + 1]) == before + FlatMap(f, s[..i]) + f(s[i])
    ensures before + FlatMap(f, s[..0]) == before
  {
    FlatMapStep(f, s, i);
  }

  lemma AppendTwo<A>(s: seq<A>, a: A, b: A)
    ensures s + [a] + [b] == s + [a, b]
  {
  }

  lemma {:induction false} FlatMapMember<A, B(!new)>(f: A -> seq<B>, s: seq<A>)
    ensures forall b :: b in FlatMap(f, s) <==> exists i :: 0 <= i < |s| && b in f(s[i])
  {
    if s != [] {
      var n := |s| - 1;
      FlatMapMember(f, s[..n]);
      forall b
        ensures b in FlatMap(f, s) <==> exists i :: 0 <= i < |s| && b in f(s[i])
      {
        if i :| 0 <= i < |s| && b in f(s[i]) {
          if i < n {
            assert s[..n][i] == s[i];
          }
        }
        if b in FlatMap(f, s[..n]) {
          var i :| 0 <= i < n && b in f(s[..n][i]);
          assert s[..n][i] == s[i];
        } else if b in f(s[n]) {
        }
      }
    }
  }

  /** The elements of `s` that satisfy `keep`, in order. */
  function Select<A>(keep: A -> bool, s: seq<A>): seq<A> {
    if s == [] then []
    else Select(keep, s[..|s| - 1]) + if keep(s[|s| - 1]) then [s[|s| - 1]] else []
  }

  lemma SelectStep<A>(keep: A -> bool, s: seq<A>, i: nat)
    requires i < |s|
    ensures Select(keep, s[..i + 1]) == Select(keep, s[..i]) + if keep(s[i]) then [s[i]] else []
  {
    assert s[..i + 1][..i] == s[..i];
  }

  lemma SelectAll<A>(keep: A -> bool, s: seq<A>)
    ensures Select(keep, s[..|s|]) == Select(keep, s)
    ensures Select(keep, s[..0]) == []
  {
    assert s[..|s|] == s;
  }

  lemma {:induction false} SelectMember<A(!new)>(keep: A -> bool, s: seq<A>)
    ensures forall a :: a in Select(keep, s) <==> a in s && keep(a)
  {
    if s != [] {
      SelectMember(keep, s[..|s| - 1]);
      assert s == s[..|s| - 1] + [s[|s| - 1]];
    }
  }

  lemma {:induction false} SelectEverything<A>(keep: A -> bool, s: seq<A>)
    requires forall i :: 0 <= i < |s| ==> keep(s[i])
    ensures Select(keep, s) == s
  {
    if s != [] {
      SelectEverything(keep, s[..|s| - 1]);
    }
  }

  /** The places in `s` of the selected elements. */
  lemma {:induction false} SelectPlaces<A>(keep: A -> bool, s: seq<A>) returns (at: seq<nat>)
    ensures |at| == |Select(keep, s)|
    ensures forall k :: 0 <= k < |at| ==> at[k] < |s| && Select(keep, s)[k] == s[at[k]]
    ensures forall j, k :: 0 <= j < k < |at| ==> at[j] < at[k]
  {
    if s == [] {
      at := [];
    } else {
      var n := |s| - 1;
      at := SelectPlaces(keep, s[..n]);
      if keep(s[n]) {
        at := at + [n];
      }
    }
  }
}
