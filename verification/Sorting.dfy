// Sorting by a byte-string key. Callers may rely on the order and on nothing about
// how equal keys end up.
module Sorting {
  import opened Bytes

  ghost predicate SortedBy<T>(s: seq<T>, key: T -> bytes) {
    forall i, j | 0 <= i < j < |s| :: !Less(key(s[j]), key(s[i]))
  }

  function Insert<T>(s: seq<T>, key: T -> bytes, x: T): seq<T> {
    if s == [] || !Less(key(s[0]), key(x)) then [x] + s else [s[0]] + Insert(s[1..], key, x)
  }

  lemma {:induction false} InsertPermutes<T>(s: seq<T>, key: T -> bytes, x: T)
    ensures multiset(Insert(s, key, x)) == multiset(s) + multiset{x}
  {
    if s != [] && Less(key(s[0]), key(x)) {
      InsertPermutes(s[1..], key, x);
      assert s == [s[0]] + s[1..];
    }
  }

  lemma {:induction false} InsertSorted<T>(s: seq<T>, key: T -> bytes, x: T)
    requires SortedBy(s, key)
    ensures SortedBy(Insert(s, key, x), key)
  {
    if s == [] {
    } else if !Less(key(s[0]), key(x)) {
      forall i | 0 <= i < |s| ensures !Less(key(s[i]), key(x)) {
        if i > 0 { NotLessTransitive(key(x), key(s[0]), key(s[i])); }
      }
    } else {
      var rest := Insert(s[1..], key, x);
      InsertSorted(s[1..], key, x);
      InsertPermutes(s[1..], key, x);
      LessAsymmetric(key(s[0]), key(x));
      forall i | 0 <= i < |rest| ensures !Less(key(rest[i]), key(s[0])) {
        assert rest[i] in multiset(s[1..]) + multiset{x};
        if rest[i] != x {
          var j :| 0 <= j < |s[1..]| && s[1..][j] == rest[i];
          assert s[j + 1] == rest[i];
        }
      }
    }
  }

  method Sort<T>(s: seq<T>, key: T -> bytes) returns (sorted: seq<T>)
    ensures SortedBy(sorted, key) && multiset(sorted) == multiset(s)
  {
    sorted := [];
    for n := 0 to |s|
      invariant SortedBy(sorted, key) && multiset(sorted) == multiset(s[..n])
    {
      InsertSorted(sorted, key, s[n]);
      InsertPermutes(sorted, key, s[n]);
      assert s[..n + 1] == s[..n] + [s[n]];
      sorted := Insert(sorted, key, s[n]);
    }
    assert s[..|s|] == s;
  }
}
