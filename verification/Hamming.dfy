// In how many places two sequences of one length differ.
module Hamming {

  function Distance<T(==)>(u: seq<T>, v: seq<T>): nat
    requires |u| == |v|
  {
    if u == [] then 0 else (if u[0] == v[0] then 0 else 1) + Distance(u[1..], v[1..])
  }

  lemma {:induction false} NoDistance<T>(u: seq<T>, v: seq<T>)
    requires |u| == |v|
    ensures Distance(u, v) == 0 ==> u == v
  {
    if u != [] {
      NoDistance(u[1..], v[1..]);
      assert u == [u[0]] + u[1..] && v == [v[0]] + v[1..];
    }
  }

  lemma {:induction false} Triangle<T>(u: seq<T>, v: seq<T>, w: seq<T>)
    requires |u| == |v| == |w|
    ensures Distance(u, v) <= Distance(w, u) + Distance(w, v)
  {
    if u != [] {
      Triangle(u[1..], v[1..], w[1..]);
    }
  }

  lemma {:induction false} DistanceAtMost<T>(r: seq<T>, s: seq<T>)
    requires |r| == |s|
    ensures Distance(r, s) <= |r|
  {
    if r != [] {
      DistanceAtMost(r[1..], s[1..]);
    }
  }

  lemma {:induction false} SamePrefix<T>(common: seq<T>, r: seq<T>, s: seq<T>)
    requires |r| == |s|
    ensures Distance(common + r, common + s) <= |r|
  {
    if common == [] {
      assert common + r == r && common + s == s;
      DistanceAtMost(r, s);
    } else {
      assert (common + r)[1..] == common[1..] + r && (common + s)[1..] == common[1..] + s;
      SamePrefix(common[1..], r, s);
    }
  }

  lemma {:induction false} DistanceMore<T>(u: seq<T>, v: seq<T>, x: T, y: T)
    requires |u| == |v|
    ensures Distance(u + [x], v + [y]) == Distance(u, v) + if x == y then 0 else 1
  {
    if u == [] {
      assert u + [x] == [x] && v + [y] == [y] && [x][1..] == [y][1..] == [];
    } else {
      assert (u + [x])[1..] == u[1..] + [x] && (v + [y])[1..] == v[1..] + [y];
      DistanceMore(u[1..], v[1..], x, y);
    }
  }

  lemma NoPlaces<T>(u: seq<T>, v: seq<T>)
    requires |u| == |v| == 0
    ensures Distance(u, v) == 0
  {}

  // Sequences that differ only in some places have no larger distance.
  lemma {:induction false} DistanceWithin<T>(u: seq<T>, v: seq<T>, places: set<nat>)
    requires |u| == |v| && forall k :: 0 <= k < |u| && u[k] != v[k] ==> k in places
    ensures Distance(u, v) <= |places|
    decreases |u|
  {
    if u != [] {
      hide Distance;
      var n := |u| - 1;
      DistanceMore(u[..n], v[..n], u[n], v[n]);
      assert u == u[..n] + [u[n]] && v == v[..n] + [v[n]];
      DistanceWithin(u[..n], v[..n], if u[n] == v[n] then places else places - {n});
    } else {
      NoPlaces(u, v);
    }
  }
}
