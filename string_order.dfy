/** The order `sort.Strings` puts strings in.  Go compares the UTF-8 bytes;
    UTF-8 byte order and code-point order agree, so the model compares
    characters.
 */
module StringOrder {

  /** Lexicographic "less than"; a proper prefix comes first. */
  predicate Less(a: string, b: string)
  {
    if a == [] then b != []
    else if b == [] then false
    else a[0] < b[0] || (a[0] == b[0] && Less(a[1..], b[1..]))
  }

  lemma {:induction false} LessIrreflexive(a: string)
    ensures !Less(a, a)
  {
    if a != [] {
      LessIrreflexive(a[1..]);
    }
  }

  lemma {:induction false} LessAsymmetric(a: string, b: string)
    requires Less(a, b)
    ensures !Less(b, a)
  {
    if a != [] && b != [] && a[0] == b[0] {
      LessAsymmetric(a[1..], b[1..]);
    }
  }

  lemma {:induction false} LessTransitive(a: string, b: string, c: string)
    requires Less(a, b) && Less(b, c)
    ensures Less(a, c)
  {
    if a != [] && a[0] == b[0] && b[0] == c[0] {
      LessTransitive(a[1..], b[1..], c[1..]);
    }
  }

  /** Any two distinct strings are ordered one way or the other. */
  lemma {:induction false} LessTotal(a: string, b: string)
    ensures a == b || Less(a, b) || Less(b, a)
  {
    if a != [] && b != [] && a[0] == b[0] {
      LessTotal(a[1..], b[1..]);
      if a[1..] == b[1..] {
        assert a == [a[0]] + a[1..] && b == [b[0]] + b[1..];
      }
    }
  }

  predicate StrictlySorted(s: seq<string>)
  {
    forall i, j :: 0 <= i < j < |s| ==> Less(s[i], s[j])
  }

  /** `m` is the least element of `keys`. */
  predicate IsLeast(m: string, keys: set<string>)
  {
    m in keys && forall k :: k in keys && k != m ==> Less(m, k)
  }

  /** Every non-empty finite set of strings has a least element. */
  lemma {:induction false} MinExists(keys: set<string>)
    requires keys != {}
    ensures exists m :: IsLeast(m, keys)
    decreases |keys|
  {
    var x :| x in keys;
    if keys == {x} {
      assert IsLeast(x, keys);
    } else {
      var rest := keys - {x};
      MinExists(rest);
      var m :| IsLeast(m, rest);
      LessTotal(m, x);
      if Less(m, x) {
        assert IsLeast(m, keys);
      } else {
        forall k | k in keys && k != x ensures Less(x, k) {
          if k != m {
            assert k in rest;
            LessTransitive(x, m, k);
          }
        }
        assert IsLeast(x, keys);
      }
    }
  }

  ghost function MinOf(keys: set<string>): (m: string)
    requires keys != {}
    ensures m in keys
    ensures forall k :: k in keys && k != m ==> Less(m, k)
  {
    MinExists(keys);
    var m :| IsLeast(m, keys);
    m
  }

  /** The keys of a set in ascending order: the one sequence the sort may return. */
  ghost function SortedSeq(keys: set<string>): (r: seq<string>)
    ensures StrictlySorted(r)
    ensures forall k :: k in r <==> k in keys
    ensures |r| == |keys|
    decreases |keys|
  {
    if keys == {} then []
    else
      var m := MinOf(keys);
      var rest := SortedSeq(keys - {m});
      assert forall j :: 0 <= j < |rest| ==> Less(m, rest[j]) by {
        forall j | 0 <= j < |rest| ensures Less(m, rest[j]) {
          assert rest[j] in keys - {m};
        }
      }
      [m] + rest
  }

  /** The head of a strictly sorted listing of a set is its least element. */
  lemma SortedHeadIsLeast(s: seq<string>, keys: set<string>)
    requires StrictlySorted(s) && s != []
    requires forall k :: k in s <==> k in keys
    ensures IsLeast(s[0], keys)
  {
    forall k | k in keys && k != s[0] ensures Less(s[0], k) {
      var j :| 0 <= j < |s| && s[j] == k;
    }
  }

  /** A set has one least element. */
  lemma LeastUnique(a: string, b: string, keys: set<string>)
    requires IsLeast(a, keys) && IsLeast(b, keys)
    ensures a == b
  {
    if a != b {
      LessAsymmetric(a, b);
    }
  }

  /** The tail of a strictly sorted listing lists the rest of the set. */
  lemma SortedTail(s: seq<string>, keys: set<string>)
    requires StrictlySorted(s) && s != []
    requires forall k :: k in s <==> k in keys
    ensures StrictlySorted(s[1..])
    ensures forall k :: k in s[1..] <==> k in keys - {s[0]}
  {
    forall k | k in s[1..] ensures k != s[0] {
      var j :| 1 <= j < |s| && s[j] == k;
      assert Less(s[0], s[j]);
      LessIrreflexive(k);
    }
    assert forall k :: k in s <==> k == s[0] || k in s[1..] by {
      assert s == [s[0]] + s[1..];
    }
  }

  /** A strictly sorted sequence is determined by its elements. */
  lemma {:induction false} SortedUnique(s: seq<string>, keys: set<string>)
    requires StrictlySorted(s)
    requires forall k :: k in s <==> k in keys
    ensures s == SortedSeq(keys)
    decreases |keys|
  {
    if s == [] {
      assert keys == {};
    } else {
      assert s[0] in keys;
      var m := MinOf(keys);
      SortedHeadIsLeast(s, keys);
      LeastUnique(s[0], m, keys);
      SortedTail(s, keys);
      SortedUnique(s[1..], keys - {m});
      assert SortedSeq(keys) == [m] + SortedSeq(keys - {m});
      assert s == [s[0]] + s[1..];
    }
  }

  /** Insert a new key at its place in a strictly sorted sequence. */
  function Insert(s: seq<string>, k: string): (r: seq<string>)
    requires StrictlySorted(s) && k !in s
    ensures StrictlySorted(r)
    ensures forall x :: x in r <==> x in s || x == k
    ensures |r| == |s| + 1
  {
    if s == [] then [k]
    else if Less(k, s[0]) then
      assert forall j :: 0 <= j < |s| ==> Less(k, s[j]) by {
        forall j | 0 < j < |s| ensures Less(k, s[j]) {
          LessTransitive(k, s[0], s[j]);
        }
      }
      [k] + s
    else
      LessTotal(k, s[0]);
      var r := Insert(s[1..], k);
      assert forall j :: 0 <= j < |r| ==> Less(s[0], r[j]) by {
        forall j | 0 <= j < |r| ensures Less(s[0], r[j]) {
          assert r[j] in s[1..] || r[j] == k;
        }
      }
      [s[0]] + r
  }
}
