/** Lexicographic order on (sort key, id) pairs: the order of the waitlist queue and of every paged list. */
module KeyOrder {

  datatype Key = Key(major: int, minor: int)

  predicate Before(a: Key, b: Key) {
    a.major < b.major || (a.major == b.major && a.minor < b.minor)
  }

  ghost predicate StrictlySorted(ks: seq<Key>) {
    forall i, j | 0 <= i < j < |ks| :: Before(ks[i], ks[j])
  }

  ghost predicate Lists(ks: seq<Key>, all: set<Key>) {
    StrictlySorted(ks) && forall k :: k in ks <==> k in all
  }

  predicate IsLeast(k: Key, all: set<Key>) {
    k in all && forall x | x in all :: x == k || Before(k, x)
  }

  lemma {:induction false} LeastExists(all: set<Key>)
    requires all != {}
    ensures exists k :: IsLeast(k, all)
  {
    var k :| k in all;
    var rest := all - {k};
    if rest == {} {
      assert all == {k};
      assert IsLeast(k, all);
    } else {
      LeastExists(rest);
      var m :| IsLeast(m, rest);
      var least := if Before(k, m) then k else m;
      assert forall x | x in all :: x == k || x in rest;
      assert IsLeast(least, all);
    }
  }

  function Least(all: set<Key>): (k: Key)
    requires all != {}
    ensures IsLeast(k, all)
  {
    LeastExists(all);
    var k :| IsLeast(k, all);
    k
  }

  // The set in ascending order.
  function Ascending(all: set<Key>): (ks: seq<Key>)
    ensures Lists(ks, all)
  {
    if all == {} then []
    else
      var k := Least(all);
      var rest := Ascending(all - {k});
      assert forall x :: x in [k] + rest <==> x == k || x in rest;
      [k] + rest
  }

  // A set has only one ascending listing.
  lemma {:induction false} ListingUnique(a: seq<Key>, b: seq<Key>, all: set<Key>)
    requires Lists(a, all) && Lists(b, all)
    ensures a == b
  {
    assert |b| > 0 ==> b[0] in b;
    if a != [] {
      assert a[0] in a;
      assert b != [];
      assert b[0] in b;
      var i :| 0 <= i < |b| && b[i] == a[0];
      var j :| 0 <= j < |a| && a[j] == b[0];
      assert a[0] == b[0];
      TailLists(a, all);
      TailLists(b, all);
      ListingUnique(a[1..], b[1..], all - {a[0]});
    }
  }

  lemma TailLists(ks: seq<Key>, all: set<Key>)
    requires Lists(ks, all) && ks != []
    ensures Lists(ks[1..], all - {ks[0]})
  {
    forall k ensures k in ks[1..] <==> k in all - {ks[0]} {
      if k in ks[1..] {
        var i :| 0 <= i < |ks[1..]| && ks[1..][i] == k;
        assert ks[i + 1] == k;
      }
      if k in all && k != ks[0] {
        var i :| 0 <= i < |ks| && ks[i] == k;
        assert ks[1..][i - 1] == k;
      }
    }
  }
}
