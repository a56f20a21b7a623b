/**
 * The ordering of a java.util.TreeMap<String, V>: keys are compared with
 * String.compareTo, which is lexicographic, a proper prefix sorting first.
 * A map is modelled as a Dafny map; its iteration order (keySet(),
 * values(), lastKey()) is the sequence SortedKeys of its keys.
 */
module SortedMaps {
  import opened Strings

  /** a.compareTo(b) < 0. */
  predicate Less(a: string, b: string)
  {
    if |a| == 0 then |b| > 0
    else |b| > 0 && (if a[0] == b[0] then Less(a[1..], b[1..]) else a[0] < b[0])
  }

  lemma {:induction false} LessIrreflexive(a: string)
    ensures !Less(a, a)
  {
    if |a| > 0 {
      LessIrreflexive(a[1..]);
    }
  }

  lemma {:induction false} LessAsymmetric(a: string, b: string)
    requires Less(a, b)
    ensures !Less(b, a)
  {
    if |a| > 0 && a[0] == b[0] {
      LessAsymmetric(a[1..], b[1..]);
    }
  }

  lemma {:induction false} LessTransitive(a: string, b: string, c: string)
    requires Less(a, b) && Less(b, c)
    ensures Less(a, c)
  {
    if |a| > 0 && a[0] == b[0] && b[0] == c[0] {
      LessTransitive(a[1..], b[1..], c[1..]);
    }
  }

  /** Any two different strings are ordered one way or the other. */
  lemma {:induction false} LessTotal(a: string, b: string)
    requires a != b
    ensures Less(a, b) || Less(b, a)
  {
    if |a| > 0 && |b| > 0 && a[0] == b[0] {
      assert a == [a[0]] + a[1..] && b == [b[0]] + b[1..];
      LessTotal(a[1..], b[1..]);
    }
  }

  /**
   * Comparing two keys that start with equally long prefixes compares the
   * prefixes first and the remainders only when the prefixes agree.
   */
  lemma {:induction false} LessConcat(a: string, s: string, b: string, t: string)
    requires |a| == |b|
    ensures Less(a + s, b + t) <==> Less(a, b) || (a == b && Less(s, t))
  {
    if |a| > 0 {
      assert (a + s)[1..] == a[1..] + s && (b + t)[1..] == b[1..] + t;
      LessConcat(a[1..], s, b[1..], t);
      if a[0] == b[0] {
        assert a == b <==> a[1..] == b[1..] by {
          assert a == [a[0]] + a[1..] && b == [b[0]] + b[1..];
        }
      }
    } else {
      assert a + s == s && b + t == t;
    }
  }

  predicate StrictlySorted(s: seq<string>)
  {
    forall i, j :: 0 <= i < j < |s| ==> Less(s[i], s[j])
  }

  /** A strictly sorted sequence holds no string twice. */
  lemma SortedDistinct(s: seq<string>)
    requires StrictlySorted(s)
    ensures forall i, j :: 0 <= i < j < |s| ==> s[i] != s[j]
  {
    forall i, j | 0 <= i < j < |s| ensures s[i] != s[j] {
      LessIrreflexive(s[i]);
    }
  }

  /** A sequence whose neighbours are in order is strictly sorted. */
  lemma {:induction false} SortedFromNeighbours(s: seq<string>)
    requires forall i :: 0 <= i < |s| - 1 ==> Less(s[i], s[i + 1])
    ensures StrictlySorted(s)
  {
    if |s| > 1 {
      var t := s[1..];
      forall i | 0 <= i < |t| - 1 ensures Less(t[i], t[i + 1]) {
        assert t[i] == s[i + 1] && t[i + 1] == s[i + 2];
      }
      SortedFromNeighbours(t);
      forall i, j | 0 <= i < j < |s| ensures Less(s[i], s[j]) {
        if i > 0 {
          assert s[i] == t[i - 1] && s[j] == t[j - 1];
        } else if j > 1 {
          assert s[1] == t[0] && s[j] == t[j - 1];
          LessTransitive(s[0], s[1], s[j]);
        }
      }
    }
  }

  /** k is the first key of keys in compareTo order. */
  predicate IsLeast(k: string, keys: set<string>)
  {
    k in keys && forall x :: x in keys && x != k ==> Less(k, x)
  }

  lemma {:induction false} LeastExists(keys: set<string>)
    requires keys != {}
    ensures exists k :: IsLeast(k, keys)
    decreases keys
  {
    var x :| x in keys;
    var rest := keys - {x};
    if rest == {} {
      assert keys == {x};
      assert IsLeast(x, keys);
    } else {
      LeastExists(rest);
      var y :| IsLeast(y, rest);
      if Less(x, y) {
        forall z | z in keys && z != x ensures Less(x, z) {
          if z != y {
            LessTransitive(x, y, z);
          }
        }
        assert IsLeast(x, keys);
      } else {
        LessTotal(x, y);
        assert IsLeast(y, keys);
      }
    }
  }

  lemma LeastUnique(keys: set<string>)
    ensures forall a, b :: IsLeast(a, keys) && IsLeast(b, keys) ==> a == b
  {
    forall a, b | IsLeast(a, keys) && IsLeast(b, keys) ensures a == b {
      if a != b {
        LessAsymmetric(a, b);
      }
    }
  }

  /**
   * The keys of a TreeMap in iteration order. Every entry is a key; that
   * every key appears once, in ascending order, is SortedKeysSpec.
   */
  function SortedKeys<V>(m: map<string, V>): (r: seq<string>)
    ensures |r| == |m|
    ensures forall i :: 0 <= i < |r| ==> r[i] in m
    decreases |m|, 0
  {
    if |m| == 0 then []
    else
      LeastExists(m.Keys);
      LeastUnique(m.Keys);
      var k :| IsLeast(k, m.Keys);
      var rest := m - {k};
      assert rest.Keys == m.Keys - {k};
      [k] + SortedKeys(rest)
  }

  /** SortedKeys lists exactly the keys of the map, strictly ascending. */
  lemma {:induction false} SortedKeysSpec<V>(m: map<string, V>)
    ensures forall k :: k in SortedKeys(m) <==> k in m
    ensures StrictlySorted(SortedKeys(m))
    decreases |m|, 1
  {
    if |m| > 0 {
      LeastExists(m.Keys);
      LeastUnique(m.Keys);
      var k :| IsLeast(k, m.Keys);
      var rest := m - {k};
      assert rest.Keys == m.Keys - {k};
      SortedKeysSpec(rest);
      PrependLeast(k, SortedKeys(rest), m.Keys);
    }
  }

  lemma PrependLeast(k: string, rest: seq<string>, keys: set<string>)
    requires IsLeast(k, keys)
    requires StrictlySorted(rest)
    requires forall x :: x in rest <==> x in keys - {k}
    ensures StrictlySorted([k] + rest)
    ensures forall x :: x in [k] + rest <==> x in keys
  {
    var s := [k] + rest;
    forall i, j | 0 <= i < j < |s| ensures Less(s[i], s[j]) {
      assert s[j] == rest[j - 1];
      if i > 0 {
        assert s[i] == rest[i - 1];
      } else {
        assert rest[j - 1] in keys - {k};
      }
    }
  }

  /** Two strictly sorted sequences with the same members are the same sequence. */
  lemma {:induction false} SortedSeqUnique(a: seq<string>, b: seq<string>)
    requires StrictlySorted(a) && StrictlySorted(b)
    requires forall x :: x in a <==> x in b
    ensures a == b
  {
    assert |a| > 0 ==> a[0] in b;
    assert |b| > 0 ==> b[0] in a;
    if |a| > 0 {
      if a[0] != b[0] {
        assert Less(b[0], a[0]) by {
          var j :| 0 <= j < |b| && b[j] == a[0];
        }
        assert Less(a[0], b[0]) by {
          assert b[0] in a;
          var i :| 0 <= i < |a| && a[i] == b[0];
        }
        LessAsymmetric(a[0], b[0]);
      }
      forall x ensures x in a[1..] <==> x in b[1..] {
        TailMembers(a, x);
        TailMembers(b, x);
      }
      SortedSeqUnique(a[1..], b[1..]);
      assert a == [a[0]] + a[1..] && b == [b[0]] + b[1..];
    }
  }

  lemma TailMembers(s: seq<string>, x: string)
    requires StrictlySorted(s) && |s| > 0
    ensures x in s[1..] <==> x in s && x != s[0]
  {
    if x in s[1..] {
      var i :| 0 <= i < |s[1..]| && s[1..][i] == x;
      assert Less(s[0], s[i + 1]);
      LessIrreflexive(x);
    }
    if x in s && x != s[0] {
      var i :| 0 <= i < |s| && s[i] == x;
      assert s[1..][i - 1] == x;
    }
  }

  /** A strictly sorted listing of a map's keys is its iteration order. */
  lemma SortedKeysOf<V>(m: map<string, V>, s: seq<string>)
    requires StrictlySorted(s)
    requires forall x :: x in s <==> x in m
    ensures SortedKeys(m) == s
  {
    SortedKeysSpec(m);
    SortedSeqUnique(SortedKeys(m), s);
  }

  /** Adding a key greater than every key appends it to the iteration order. */
  lemma SortedKeysAppendGreatest<V>(m: map<string, V>, k: string, v: V)
    requires k !in m
    requires forall x :: x in m ==> Less(x, k)
    ensures SortedKeys(m[k := v]) == SortedKeys(m) + [k]
  {
    SortedKeysSpec(m);
    var r := SortedKeys(m);
    var s := r + [k];
    forall i, j | 0 <= i < j < |s| ensures Less(s[i], s[j]) {
      if j < |r| {
        assert s[i] == r[i] && s[j] == r[j];
      } else {
        assert s[i] == r[i] && r[i] in m;
      }
    }
    SortedKeysOf(m[k := v], s);
  }

  /** SortedMap.lastKey() on a non-empty map: its greatest key. */
  function LastKey<V>(m: map<string, V>): (r: string)
    requires |m| > 0
    ensures r in m
  {
    var keys := SortedKeys(m);
    keys[|keys| - 1]
  }

  /** The last key is greater than every other key. */
  lemma LastKeyGreatest<V>(m: map<string, V>)
    requires |m| > 0
    ensures forall k :: k in m && k != LastKey(m) ==> Less(k, LastKey(m))
  {
    var keys := SortedKeys(m);
    SortedKeysSpec(m);
    forall k | k in m && k != LastKey(m) ensures Less(k, LastKey(m)) {
      var i :| 0 <= i < |keys| && keys[i] == k;
    }
  }

  /** Two leading decimal digits, as the order part of a logical position. */
  predicate TwoDigitLead(s: string)
  {
    |s| >= 2 && IsDigit(s[0]) && IsDigit(s[1])
  }

  function LeadValue(s: string): (v: nat)
    requires TwoDigitLead(s)
    ensures v < 100
  {
    10 * DigitValue(s[0]) + DigitValue(s[1])
  }

  /**
   * For keys with two leading digits, compareTo order never puts a larger
   * two-digit number first: text order and numeric order of the orders agree.
   */
  lemma LeadMonotone(a: string, b: string)
    requires TwoDigitLead(a) && TwoDigitLead(b)
    requires Less(a, b)
    ensures LeadValue(a) <= LeadValue(b)
  {
    if a[0] == b[0] {
      assert Less(a[1..], b[1..]);
      assert a[1..][0] == a[1] && b[1..][0] == b[1];
      assert a[1] <= b[1];
    }
  }
}
