// A key-value tree ordered by its byte-string keys, as maps with an ordered scan.

module ByteTree {
  import opened BigEndian

  ghost predicate Ascending(keys: seq<Key>) {
    forall i, j | 0 <= i < j < |keys| :: Less(keys[i], keys[j])
  }

  lemma {:induction false} LessTotal(a: Key, b: Key)
    ensures Less(a, b) || a == b || Less(b, a)
    ensures !(Less(a, b) && Less(b, a)) && !Less(a, a)
  {
    if a != [] && b != [] {
      LessTotal(a[1..], b[1..]);
      assert a == [a[0]] + a[1..] && b == [b[0]] + b[1..];
    }
    if a != [] {
      LessTotal(a[1..], a[1..]);
    }
  }

  lemma {:induction false} LessTransitive(a: Key, b: Key, c: Key)
    requires Less(a, b) && Less(b, c)
    ensures Less(a, c)
  {
    if a != [] && a[0] == b[0] == c[0] {
      LessTransitive(a[1..], b[1..], c[1..]);
    }
  }

  // The least of a set of keys.
  method Least(keys: set<Key>) returns (least: Key)
    requires keys != {}
    ensures least in keys && forall k | k in keys :: k == least || Less(least, k)
  {
    least :| least in keys;
    var left := keys - {least};
    while left != {}
      invariant left <= keys && least in keys
      invariant forall k | k in keys && k !in left :: k == least || Less(least, k)
      decreases |left|
    {
      var k :| k in left;
      left := left - {k};
      LessTotal(k, least);
      if Less(k, least) {
        forall k' | k' in keys && k' !in left ensures k' == k || Less(k, k') {
          if k' != k && k' != least {
            LessTransitive(k, least, k');
          }
        }
        least := k;
      }
    }
  }

  // All keys of a set, in order.
  method InOrder(all: set<Key>) returns (keys: seq<Key>)
    ensures Ascending(keys) && forall k :: k in keys <==> k in all
  {
    keys := [];
    var left := all;
    while left != {}
      invariant left <= all && Ascending(keys)
      invariant forall k :: k in keys <==> k in all && k !in left
      invariant forall i, k | 0 <= i < |keys| && k in left :: Less(keys[i], k)
      decreases |left|
    {
      var k := Least(left);
      keys, left := keys + [k], left - {k};
    }
  }
}
