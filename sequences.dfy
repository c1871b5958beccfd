/** Facts about sequences used by both halves of the model: distinctness,
    the set of elements, and the first-occurrence order of a Python dict's
    keys. */
module Sequences {

  predicate Distinct<T(==)>(s: seq<T>)
  {
    forall i, j :: 0 <= i < j < |s| ==> s[i] != s[j]
  }

  function Elements<T>(s: seq<T>): set<T>
  {
    set x | x in s
  }

  /** The elements of `s` in the order of their first occurrence: the key
      order of a dict filled by assigning `d[s[0]]`, `d[s[1]]`, ... */
  function Dedup<T(==)>(s: seq<T>): (r: seq<T>)
    ensures Elements(r) == Elements(s)
    ensures Distinct(r)
    ensures |r| <= |s|
  {
    if s == [] then []
    else
      var prefix := s[..|s| - 1];
      var d := Dedup(prefix);
      var last := s[|s| - 1];
      assert s == prefix + [last];
      assert Elements(s) == Elements(prefix) + {last};
      if last in d then d
      else
        assert Elements(d + [last]) == Elements(d) + {last};
        d + [last]
  }

  /** Removing duplicates shortens a sequence exactly when it has some. */
  lemma {:induction false} DedupLength<T>(s: seq<T>)
    ensures |Dedup(s)| == |s| <==> Distinct(s)
    ensures Distinct(s) ==> Dedup(s) == s
  {
    if s != [] {
      var prefix := s[..|s| - 1];
      var last := s[|s| - 1];
      DedupLength(prefix);
      assert s == prefix + [last];
      if Distinct(s) {
        assert Distinct(prefix) by {
          forall i, j | 0 <= i < j < |prefix| ensures prefix[i] != prefix[j] {
            assert prefix[i] == s[i] && prefix[j] == s[j];
          }
        }
        assert last !in prefix by {
          forall i | 0 <= i < |prefix| ensures prefix[i] != last {
            assert prefix[i] == s[i];
          }
        }
      } else if Distinct(prefix) && last !in prefix {
        assert Distinct(s) by {
          forall i, j | 0 <= i < j < |s| ensures s[i] != s[j] {
            if j < |prefix| {
              assert prefix[i] == s[i] && prefix[j] == s[j];
            } else {
              assert prefix[i] == s[i];
            }
          }
        }
      }
    }
  }

  /** A sequence without duplicates has as many elements as its set. */
  lemma {:induction false} DistinctCardinality<T>(s: seq<T>)
    requires Distinct(s)
    ensures |Elements(s)| == |s|
  {
    if s != [] {
      var prefix := s[..|s| - 1];
      var last := s[|s| - 1];
      assert Distinct(prefix) by {
        forall i, j | 0 <= i < j < |prefix| ensures prefix[i] != prefix[j] {
          assert prefix[i] == s[i] && prefix[j] == s[j];
        }
      }
      DistinctCardinality(prefix);
      assert last !in Elements(prefix) by {
        forall i | 0 <= i < |prefix| ensures prefix[i] != last {
          assert prefix[i] == s[i];
        }
      }
      assert s == prefix + [last];
      assert Elements(s) == Elements(prefix) + {last};
    }
  }

  /** The set of a sequence's elements is as large as its duplicate-free
      version. */
  lemma DedupCardinality<T>(s: seq<T>)
    ensures |Elements(s)| == |Dedup(s)|
  {
    DistinctCardinality(Dedup(s));
    assert Elements(Dedup(s)) == Elements(s);
  }

  /** A sequence is its prefix, one element and its suffix. */
  lemma SplitAround<T>(s: seq<T>, i: nat)
    requires i < |s|
    ensures s == s[..i] + [s[i]] + s[i + 1..]
  {
  }

  /** Two duplicate-free sequences with no element in common concatenate
      to a duplicate-free sequence. */
  lemma DistinctConcat<T>(a: seq<T>, b: seq<T>)
    requires Distinct(a) && Distinct(b)
    requires forall i, t :: 0 <= i < |a| && 0 <= t < |b| ==> a[i] != b[t]
    ensures Distinct(a + b)
  {
    forall i, j | 0 <= i < j < |a + b| ensures (a + b)[i] != (a + b)[j] {
      if j < |a| {
      } else if i < |a| {
        assert (a + b)[j] == b[j - |a|];
      } else {
        assert (a + b)[i] == b[i - |a|] && (a + b)[j] == b[j - |a|];
      }
    }
  }

  /** Concatenation is associative. */
  lemma AppendAssoc<T>(a: seq<T>, b: seq<T>, c: seq<T>)
    ensures a + b + c == a + (b + c)
  {
  }

  /** The elements of a sequence with one more element. */
  lemma ElementsSnoc<T>(s: seq<T>, x: T)
    ensures Elements(s + [x]) == Elements(s) + {x}
  {
    assert forall y :: y in s + [x] <==> y in s || y == x;
  }

  /** A non-empty prefix is the first element followed by a prefix of the
      tail. */
  lemma TakeTail<T>(s: seq<T>, k: nat)
    requires 0 < k <= |s|
    ensures s[..k] == [s[0]] + s[1..][..k - 1]
    ensures Elements(s[..k]) == {s[0]} + Elements(s[1..][..k - 1])
  {
    assert s[..k] == [s[0]] + s[1..][..k - 1];
    assert forall y :: y in s[..k] <==> y == s[0] || y in s[1..][..k - 1];
  }

  /** The last element of the tail is the last element. */
  lemma TailLast<T>(s: seq<T>)
    requires |s| >= 2
    ensures s[1..][|s[1..]| - 1] == s[|s| - 1]
  {
  }
}
