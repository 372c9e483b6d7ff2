/**
 * The `std::map<std::string, std::string>` that spans and events carry their
 * attributes in (LogTrace.hpp, src/Trace.cpp). A map is an association list
 * kept in ascending key order, which is also the order in which the
 * OpenTelemetry formatter iterates it. Keys are ordered as `std::string`
 * orders them: lexicographically, character by character.
 */
module Attributes {
  import opened Wrappers

  type StringMap = seq<(string, string)>

  /** Strict lexicographic order on strings: a proper prefix comes first. */
  predicate Less(a: string, b: string)
  {
    if |a| == 0 then |b| > 0
    else if |b| == 0 then false
    else if a[0] == b[0] then Less(a[1..], b[1..])
    else a[0] < b[0]
  }

  lemma {:induction false} LessIrreflexive(a: string)
    ensures !Less(a, a)
  {
    if |a| > 0 { LessIrreflexive(a[1..]); }
  }

  lemma {:induction false} LessTransitive(a: string, b: string, c: string)
    requires Less(a, b) && Less(b, c)
    ensures Less(a, c)
  {
    if |a| > 0 && |b| > 0 && |c| > 0 && a[0] == b[0] == c[0] {
      LessTransitive(a[1..], b[1..], c[1..]);
    }
  }

  /** Two different strings are always ordered one way or the other. */
  lemma {:induction false} LessTotal(a: string, b: string)
    requires a != b
    ensures Less(a, b) || Less(b, a)
  {
    if |a| > 0 && |b| > 0 && a[0] == b[0] {
      assert a == [a[0]] + a[1..] && b == [b[0]] + b[1..];
      LessTotal(a[1..], b[1..]);
    }
  }

  /** Keys strictly ascending: the map's order and the absence of duplicate keys. */
  predicate Sorted(m: StringMap)
  {
    forall i, j :: 0 <= i < j < |m| ==> Less(m[i].0, m[j].0)
  }

  predicate HasKey(m: StringMap, k: string)
  {
    exists i :: 0 <= i < |m| && m[i].0 == k
  }

  /** The value stored under `k`: the first entry with that key. */
  function Lookup(m: StringMap, k: string): (r: Option<string>)
    ensures r.None? <==> !HasKey(m, k)
    ensures r.Some? ==> (k, r.value) in m
  {
    if m == [] then None
    else if m[0].0 == k then Some(m[0].1)
    else
      var r := Lookup(m[1..], k);
      assert HasKey(m, k) ==> HasKey(m[1..], k) by {
        if HasKey(m, k) {
          var i :| 0 <= i < |m| && m[i].0 == k;
          assert m[1..][i - 1].0 == k;
        }
      }
      assert HasKey(m[1..], k) ==> HasKey(m, k) by {
        if HasKey(m[1..], k) {
          var i :| 0 <= i < |m[1..]| && m[1..][i].0 == k;
          assert m[i + 1].0 == k;
        }
      }
      r
  }

  /**
   * `m[k] = v`: the value of `k` becomes `v` and every other key keeps its
   * value. The entry goes where the key order puts it.
   */
  function Put(m: StringMap, k: string, v: string): (r: StringMap)
    ensures Lookup(r, k) == Some(v)
    ensures forall k' :: k' != k ==> Lookup(r, k') == Lookup(m, k')
  {
    if m == [] then [(k, v)]
    else if m[0].0 == k then [(k, v)] + m[1..]
    else if Less(k, m[0].0) then [(k, v)] + m
    else [m[0]] + Put(m[1..], k, v)
  }

  /** Every entry after `m[k] = v` is the new one or one of the old ones. */
  lemma {:induction false} PutEntries(m: StringMap, k: string, v: string)
    ensures forall i :: 0 <= i < |Put(m, k, v)| ==> Put(m, k, v)[i].0 == k || Put(m, k, v)[i] in m
  {
    if m != [] && m[0].0 != k && !Less(k, m[0].0) {
      PutEntries(m[1..], k, v);
      var r := Put(m, k, v);
      forall i | 0 <= i < |r| ensures r[i].0 == k || r[i] in m {
        if i > 0 {
          assert r[i] == Put(m[1..], k, v)[i - 1];
        }
      }
    }
  }

  lemma HasKeyTail(m: StringMap, k: string)
    requires |m| > 0 && m[0].0 != k
    ensures HasKey(m, k) <==> HasKey(m[1..], k)
  {
    if HasKey(m, k) {
      var i :| 0 <= i < |m| && m[i].0 == k;
      assert m[1..][i - 1].0 == k;
    }
    if HasKey(m[1..], k) {
      var i :| 0 <= i < |m[1..]| && m[1..][i].0 == k;
      assert m[i + 1].0 == k;
    }
  }

  /**
   * On a map in key order, `m[k] = v` keeps the key order and grows the map
   * by one entry exactly when `k` was absent.
   */
  lemma {:induction false} PutKeepsOrder(m: StringMap, k: string, v: string)
    requires Sorted(m)
    ensures Sorted(Put(m, k, v))
    ensures |Put(m, k, v)| == if HasKey(m, k) then |m| else |m| + 1
  {
    if m == [] {
    } else if m[0].0 == k {
      assert HasKey(m, k);
    } else if Less(k, m[0].0) {
      SortedAbove(m, k);
      forall j | 0 <= j < |m| ensures Less(k, m[j].0) {
        if j > 0 { LessTransitive(k, m[0].0, m[j].0); }
      }
      PrependKeepsOrder((k, v), m);
    } else {
      HasKeyTail(m, k);
      PutKeepsOrder(m[1..], k, v);
      HeadBelowPut(m, k, v);
      PrependKeepsOrder(m[0], Put(m[1..], k, v));
    }
  }

  /** An entry whose key is below every key of a sorted map can go in front of it. */
  lemma PrependKeepsOrder(e: (string, string), rest: StringMap)
    requires Sorted(rest) && forall j :: 0 <= j < |rest| ==> Less(e.0, rest[j].0)
    ensures Sorted([e] + rest)
  {
    assert forall j :: 1 <= j < |[e] + rest| ==> ([e] + rest)[j] == rest[j - 1];
  }

  /** When `k` sorts after the first key, that key stays below every key of the updated tail. */
  lemma HeadBelowPut(m: StringMap, k: string, v: string)
    requires Sorted(m) && |m| > 0 && m[0].0 != k && !Less(k, m[0].0)
    ensures forall j :: 0 <= j < |Put(m[1..], k, v)| ==> Less(m[0].0, Put(m[1..], k, v)[j].0)
  {
    var rest := Put(m[1..], k, v);
    PutEntries(m[1..], k, v);
    LessTotal(k, m[0].0);
    forall j | 0 <= j < |rest| ensures Less(m[0].0, rest[j].0) {
      if rest[j].0 != k {
        var i :| 0 <= i < |m[1..]| && m[1..][i] == rest[j];
        assert m[i + 1] == rest[j];
      }
    }
  }

  /** In a sorted map whose first key is above `k`, no key equals `k`. */
  lemma SortedAbove(m: StringMap, k: string)
    requires |m| > 0 && Less(k, m[0].0)
    ensures Sorted(m) ==> !HasKey(m, k)
  {
    if Sorted(m) && HasKey(m, k) {
      var i :| 0 <= i < |m| && m[i].0 == k;
      LessIrreflexive(k);
      if i > 0 {
        LessTransitive(k, m[0].0, m[i].0);
      }
    }
  }

  /** The value the last pair with key `k` carries, if any. */
  function LastValue(pairs: seq<(string, string)>, k: string): Option<string>
  {
    if pairs == [] then None
    else if pairs[|pairs| - 1].0 == k then Some(pairs[|pairs| - 1].1)
    else LastValue(pairs[..|pairs| - 1], k)
  }

  /**
   * `for (const auto& [key, value] : pairs) m[key] = value;`: the pairs are
   * stored one after the other, so a later pair overrides an earlier one.
   */
  function PutAll(m: StringMap, pairs: seq<(string, string)>): StringMap
  {
    if pairs == [] then m
    else Put(PutAll(m, pairs[..|pairs| - 1]), pairs[|pairs| - 1].0, pairs[|pairs| - 1].1)
  }

  /** Storing pairs into a map in key order leaves it in key order. */
  lemma {:induction false} PutAllKeepsOrder(m: StringMap, pairs: seq<(string, string)>)
    requires Sorted(m)
    ensures Sorted(PutAll(m, pairs))
  {
    if pairs != [] {
      PutAllKeepsOrder(m, pairs[..|pairs| - 1]);
      PutKeepsOrder(PutAll(m, pairs[..|pairs| - 1]), pairs[|pairs| - 1].0, pairs[|pairs| - 1].1);
    }
  }

  /** After storing the pairs, a key holds the value of its last pair, or its old value when no pair names it. */
  lemma {:induction false} PutAllLookup(m: StringMap, pairs: seq<(string, string)>, k: string)
    ensures Lookup(PutAll(m, pairs), k) == if LastValue(pairs, k).Some? then LastValue(pairs, k) else Lookup(m, k)
  {
    if pairs != [] {
      PutAllLookup(m, pairs[..|pairs| - 1], k);
    }
  }

  /** Storing one more pair after a prefix of the pairs. */
  lemma PutAllSnoc(m: StringMap, pairs: seq<(string, string)>, i: nat)
    requires i < |pairs|
    ensures PutAll(m, pairs[..i + 1]) == Put(PutAll(m, pairs[..i]), pairs[i].0, pairs[i].1)
  {
    assert pairs[..i + 1][..i] == pairs[..i];
  }

  /** The map built from an initializer list of pairs, as the span constructors and addEvent build it. */
  method FromPairs(pairs: seq<(string, string)>) returns (m: StringMap)
    ensures m == PutAll([], pairs)
    ensures Sorted(m)
  {
    m := [];
    var i := 0;
    while i < |pairs|
      invariant 0 <= i <= |pairs|
      invariant m == PutAll([], pairs[..i])
      invariant Sorted(m)
    {
      PutAllSnoc([], pairs, i);
      PutKeepsOrder(m, pairs[i].0, pairs[i].1);
      m := Put(m, pairs[i].0, pairs[i].1);
      i := i + 1;
    }
    assert pairs[..i] == pairs;
  }
}
