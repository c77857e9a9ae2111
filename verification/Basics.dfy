// Small vocabulary shared by every module: optional values, the abstract hash and identifiers.
module Basics {

  datatype Option<+T> = None | Some(value: T) {
    function GetOr(default: T): T {
      match this
      case None => default
      case Some(v) => v
    }
  }

  /** SHA-256 followed by hex is used only as a function of the hashed text. Every result holds
      for every such function; collisions are constructed by the proofs, never assumed away. */
  type Hash = string -> string

  type TxId = string
  type AccountId = string

  predicate IsUuid(u: seq<nat>) {
    |u| == 32 && forall i :: 0 <= i < |u| ==> u[i] < 16
  }

  /** A version-4 UUID: 32 hexadecimal digits, as values. */
  type Uuid = u: seq<nat> | IsUuid(u) witness seq(32, i => 0)

  /** Elements of `xs` that satisfy `keep`, in order. */
  function Filter<T>(keep: T -> bool, xs: seq<T>): (ys: seq<T>)
    ensures |ys| <= |xs| && forall i :: 0 <= i < |ys| ==> keep(ys[i]) && ys[i] in xs
  {
    if xs == [] then [] else (if keep(xs[0]) then [xs[0]] else []) + Filter(keep, xs[1..])
  }

  lemma {:induction false} FilterConcat<T>(keep: T -> bool, xs: seq<T>, ys: seq<T>)
    ensures Filter(keep, xs + ys) == Filter(keep, xs) + Filter(keep, ys)
  {
    if xs == [] {
      assert xs + ys == ys;
    } else {
      assert (xs + ys)[1..] == xs[1..] + ys;
      FilterConcat(keep, xs[1..], ys);
    }
  }

  lemma FilterSnoc<T>(keep: T -> bool, xs: seq<T>, x: T)
    ensures Filter(keep, xs + [x]) == Filter(keep, xs) + (if keep(x) then [x] else [])
  {
    FilterConcat(keep, xs, [x]);
    assert [x][1..] == [];
  }

  lemma {:induction false} FilterKeepsAll<T>(keep: T -> bool, xs: seq<T>)
    requires forall i :: 0 <= i < |xs| ==> keep(xs[i])
    ensures Filter(keep, xs) == xs
  {
    if xs != [] { FilterKeepsAll(keep, xs[1..]); }
  }

  function Map<T, U>(f: T -> U, xs: seq<T>): (ys: seq<U>)
    ensures |ys| == |xs| && forall i :: 0 <= i < |xs| ==> ys[i] == f(xs[i])
  {
    seq(|xs|, i requires 0 <= i < |xs| => f(xs[i]))
  }

  function Reverse<T>(xs: seq<T>): (ys: seq<T>)
    ensures |ys| == |xs| && forall i :: 0 <= i < |xs| ==> ys[i] == xs[|xs| - 1 - i]
  {
    if xs == [] then [] else Reverse(xs[1..]) + [xs[0]]
  }

  lemma Cancel<T>(a: multiset<T>, b: multiset<T>, c: multiset<T>)
    requires a + c == b + c
    ensures a == b
  {
    forall x ensures a[x] == b[x] { assert (a + c)[x] == (b + c)[x]; }
  }

  lemma Inhabited(keys: set<int>)
    ensures keys == {} || exists x :: x in keys
  {
    if forall x :: x !in keys { assert keys == {}; }
  }

  function Max(a: int, b: int): int { if a >= b then a else b }

  lemma GreatestExists(keys: set<int>)
    requires keys != {}
    ensures exists k :: k in keys && forall j :: j in keys ==> j <= k
  {
    Inhabited(keys);
    var x :| x in keys;
    var rest := keys - {x};
    if rest == {} {
      assert keys == {x};
    } else {
      GreatestExists(rest);
      var k :| k in rest && forall j :: j in rest ==> j <= k;
      var m := Max(x, k);
      assert m in keys && forall j :: j in keys ==> j <= m by {
        forall j | j in keys ensures j <= m { assert j == x || j in rest; }
      }
    }
  }

  function Min(a: int, b: int): int { if a <= b then a else b }
}
