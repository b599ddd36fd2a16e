/** The keys of a dictionary in ascending numeric order. */
module SortedKeys {

  predicate Ascending(s: seq<int>) {
    forall i, j :: 0 <= i < j < |s| ==> s[i] < s[j]
  }

  lemma Pick<T>(s: set<T>) returns (x: T)
    requires s != {}
    ensures x in s
  {
    x :| x in s;
  }

  lemma LeastExists(s: set<int>) returns (m: int)
    requires s != {}
    ensures m in s && forall x :: x in s ==> m <= x
    decreases |s|
  {
    m := Pick(s);
    if s != {m} {
      var r := s - {m};
      assert s == r + {m};
      var x := LeastExists(r);
      if x < m {
        m := x;
      }
    }
  }

  method Sorted(keys: set<int>) returns (r: seq<int>)
    ensures Ascending(r) && forall x :: x in r <==> x in keys
  {
    r := [];
    var rest := keys;
    while rest != {}
      invariant Ascending(r) && rest <= keys
      invariant forall x :: x in keys <==> x in r || x in rest
      invariant forall x, y :: x in r && y in rest ==> x < y
      decreases rest
    {
      ghost var least := LeastExists(rest);
      var m :| m in rest && forall x :: x in rest ==> m <= x;
      assert forall i :: 0 <= i < |r| ==> r[i] in r;
      r := r + [m];
      rest := rest - {m};
    }
  }
}
