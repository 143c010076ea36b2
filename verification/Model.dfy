/** The vocabulary the other modules share: edges, pools and member prefixes. */
module Model {

  /** An edge id; the empty string means "no edge", as in the row columns. */
  type EdgeId = string

  const NoEdge: EdgeId := ""

  type PoolId = nat

  datatype Option<+T> = None | Some(value: T)

  type Byte = b: nat | b < 256

  /** A member prefix in canonical (masked) form. Member granularity is fixed to
      IPv4 /32, IPv4 /24 and IPv6 /128; an IPv6 address is represented by its
      canonical text. */
  datatype Prefix =
    | V4Host(a: Byte, b: Byte, c: Byte, d: Byte)
    | V4Net(a: Byte, b: Byte, c: Byte)
    | V6Host(text: string)

  predicate Distinct<T(==)>(s: seq<T>) {
    forall i, j | 0 <= i < j < |s| :: s[i] != s[j]
  }

  function Elems<T>(s: seq<T>): set<T> {
    set x | x in s
  }

  lemma DistinctSnoc<T>(s: seq<T>, x: T)
    requires Distinct(s) && x !in s
    ensures Distinct(s + [x])
  {
  }

  lemma DistinctFront<T>(s: seq<T>, x: T)
    requires Distinct(s + [x])
    ensures Distinct(s) && x !in s
  {
    var all := s + [x];
    assert forall i | 0 <= i < |s| :: all[i] == s[i] && all[i] != all[|s|];
  }

  lemma ElemsSnoc<T>(s: seq<T>, x: T)
    ensures Elems(s + [x]) == Elems(s) + {x}
  {
  }

  lemma DistinctConcat<T>(s: seq<T>, s': seq<T>)
    requires Distinct(s) && Distinct(s') && Elems(s) !! Elems(s')
    ensures Distinct(s + s') && Elems(s + s') == Elems(s) + Elems(s')
  {
    var t := s + s';
    forall i, j | 0 <= i < j < |t|
      ensures t[i] != t[j]
    {
      assert i < |s| ==> t[i] in Elems(s);
      assert j >= |s| ==> t[j] in Elems(s');
    }
  }

  /** A duplicate-free sequence has as many elements as its set. */
  lemma {:induction false} DistinctCard<T>(s: seq<T>)
    requires Distinct(s)
    ensures |Elems(s)| == |s|
  {
    if s != [] {
      var last := |s| - 1;
      DistinctCard(s[..last]);
      assert s == s[..last] + [s[last]];
      assert s[last] !in s[..last];
      assert Elems(s) == Elems(s[..last]) + {s[last]};
    }
  }

  lemma SubsetCard<T>(a: set<T>, b: set<T>)
    requires a <= b
    ensures |a| <= |b|
  {
    assert b == a + (b - a);
  }
}
