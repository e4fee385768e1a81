/**
 * Dotted configuration paths ("TailcutsCleaner.picture_thresh") and the
 * ordering in which the JSON library visits the members of an object: its
 * objects are ordered maps, so members come in ascending byte-wise order
 * of their keys.
 */
module Paths {

  // ---------------------------------------------------------------------
  // splitPath
  // ---------------------------------------------------------------------

  /**
   * The scanning loop of splitPath from the current position on, with the
   * segment collected so far in current: a '.' closes a non-empty segment,
   * any other character extends it.
   */
  function SplitFrom(rest: string, current: string): (parts: seq<string>)
    decreases |rest|
  {
    if |rest| == 0 then (if |current| == 0 then [] else [current])
    else if rest[0] == '.' then
      (if |current| == 0 then SplitFrom(rest[1..], "") else [current] + SplitFrom(rest[1..], ""))
    else SplitFrom(rest[1..], current + [rest[0]])
  }

  /** Pieces of a path: each non-empty and free of dots. */
  predicate WellFormedPieces(parts: seq<string>) {
    forall i :: 0 <= i < |parts| ==> |parts[i]| > 0 && '.' !in parts[i]
  }

  /** splitPath: the non-empty, dot-free pieces of path, in order. */
  function SplitPath(path: string): (parts: seq<string>)
    ensures WellFormedPieces(parts)
  {
    SegmentsWellFormed(path, "");
    SplitFrom(path, "")
  }

  /** Every piece is non-empty and free of dots. */
  lemma {:induction false} SegmentsWellFormed(rest: string, current: string)
    requires '.' !in current
    ensures WellFormedPieces(SplitFrom(rest, current))
    decreases |rest|
  {
    if |rest| > 0 {
      if rest[0] == '.' {
        SegmentsWellFormed(rest[1..], "");
        var tail := SplitFrom(rest[1..], "");
        if |current| > 0 {
          var parts := [current] + tail;
          assert parts[0] == current;
          assert WellFormedPieces(parts);
        }
      } else {
        SegmentsWellFormed(rest[1..], current + [rest[0]]);
      }
    }
  }

  /** The string with every '.' deleted. */
  function RemoveDots(s: string): (r: string)
    ensures '.' !in r && |r| <= |s|
  {
    if |s| == 0 then ""
    else if s[0] == '.' then RemoveDots(s[1..])
    else [s[0]] + RemoveDots(s[1..])
  }

  /** The pieces written one after another. */
  function Concat(parts: seq<string>): string {
    if |parts| == 0 then "" else parts[0] + Concat(parts[1..])
  }

  /** The pieces joined with single dots. */
  function Join(parts: seq<string>): string {
    if |parts| == 0 then ""
    else if |parts| == 1 then parts[0]
    else parts[0] + "." + Join(parts[1..])
  }

  /** Splitting loses the dots and nothing else. */
  lemma {:induction false} SplitFromConcat(rest: string, current: string)
    ensures Concat(SplitFrom(rest, current)) == current + RemoveDots(rest)
    decreases |rest|
  {
    if |rest| == 0 {
      if |current| > 0 {
        assert Concat([current]) == current + Concat([]);
      }
    } else if rest[0] == '.' {
      SplitFromConcat(rest[1..], "");
      if |current| > 0 {
        var tail := SplitFrom(rest[1..], "");
        assert ([current] + tail)[1..] == tail;
      }
    } else {
      SplitFromConcat(rest[1..], current + [rest[0]]);
      assert current + [rest[0]] + RemoveDots(rest[1..]) == current + ([rest[0]] + RemoveDots(rest[1..]));
    }
  }

  /** Leading, trailing and repeated dots vanish: the pieces spell out the path without its dots. */
  lemma SplitPathConcat(path: string)
    ensures Concat(SplitPath(path)) == RemoveDots(path)
  {
    SplitFromConcat(path, "");
  }

  /** A dot-free stretch is absorbed into the current piece. */
  lemma {:induction false} SplitFromDotFree(s: string, rest: string, current: string)
    requires '.' !in s
    ensures SplitFrom(s + rest, current) == SplitFrom(rest, current + s)
    decreases |s|
  {
    if |s| > 0 {
      assert s[0] in s;
      assert forall c :: c in s[1..] ==> c in s;
      assert (s + rest)[0] == s[0];
      assert (s + rest)[1..] == s[1..] + rest;
      assert SplitFrom(s + rest, current) == SplitFrom(s[1..] + rest, current + [s[0]]);
      SplitFromDotFree(s[1..], rest, current + [s[0]]);
      assert current + [s[0]] + s[1..] == current + s;
    } else {
      assert s + rest == rest && current + s == current;
    }
  }

  /** Joining well-formed pieces with dots and splitting again gives the pieces back. */
  lemma {:induction false} SplitJoin(parts: seq<string>)
    requires WellFormedPieces(parts)
    ensures SplitPath(Join(parts)) == parts
    decreases |parts|
  {
    if |parts| == 1 {
      SplitFromDotFree(parts[0], "", "");
      assert parts[0] + "" == parts[0];
      assert "" + parts[0] == parts[0];
    } else if |parts| > 1 {
      var tail := Join(parts[1..]);
      SplitFromDotFree(parts[0], "." + tail, "");
      assert parts[0] + "." + tail == parts[0] + ("." + tail);
      assert ("." + tail)[1..] == tail;
      assert "" + parts[0] == parts[0];
      SplitJoin(parts[1..]);
    }
  }

  /** A single well-formed key is its own one-piece path. */
  lemma SplitPlainKey(key: string)
    requires |key| > 0 && '.' !in key
    ensures SplitPath(key) == [key]
  {
    SplitJoin([key]);
  }

  /** The path "a.b.c" splits into "a", "b" and "c". */
  lemma SplitThreePieces()
    ensures SplitPath("a.b.c") == ["a", "b", "c"]
  {
    SplitJoin(["a", "b", "c"]);
    assert Join(["a", "b", "c"]) == "a.b.c";
  }

  // ---------------------------------------------------------------------
  // key order
  // ---------------------------------------------------------------------

  /** Lexicographic order of keys, character by character, a prefix first. */
  predicate KeyLe(a: string, b: string)
    decreases |a|
  {
    |a| == 0 || (|b| > 0 && (a[0] < b[0] || (a[0] == b[0] && KeyLe(a[1..], b[1..]))))
  }

  lemma {:induction false} KeyLeReflexive(a: string)
    ensures KeyLe(a, a)
    decreases |a|
  {
    if |a| > 0 {
      KeyLeReflexive(a[1..]);
    }
  }

  lemma {:induction false} KeyLeAntisymmetric(a: string, b: string)
    requires KeyLe(a, b) && KeyLe(b, a)
    ensures a == b
    decreases |a|
  {
    if |a| > 0 {
      KeyLeAntisymmetric(a[1..], b[1..]);
      assert a == [a[0]] + a[1..] && b == [b[0]] + b[1..];
    }
  }

  lemma {:induction false} KeyLeTransitive(a: string, b: string, c: string)
    requires KeyLe(a, b) && KeyLe(b, c)
    ensures KeyLe(a, c)
    decreases |a|
  {
    if |a| > 0 && a[0] == b[0] && b[0] == c[0] {
      KeyLeTransitive(a[1..], b[1..], c[1..]);
    }
  }

  lemma {:induction false} KeyLeTotal(a: string, b: string)
    ensures KeyLe(a, b) || KeyLe(b, a)
    decreases |a|
  {
    if |a| > 0 && |b| > 0 && a[0] == b[0] {
      KeyLeTotal(a[1..], b[1..]);
    }
  }

  /** m comes first among the keys of s. */
  predicate IsLeast(m: string, s: set<string>) {
    m in s && forall k :: k in s ==> KeyLe(m, k)
  }

  /** Every finite non-empty set of keys has a first key. */
  lemma {:induction false} LeastExists(s: set<string>)
    requires s != {}
    ensures exists m :: IsLeast(m, s)
    decreases |s|
  {
    var x :| x in s;
    if s - {x} == {} {
      assert s == {x};
      KeyLeReflexive(x);
      assert IsLeast(x, s);
    } else {
      LeastExists(s - {x});
      var m :| IsLeast(m, s - {x});
      KeyLeTotal(x, m);
      KeyLeReflexive(x);
      if KeyLe(x, m) {
        forall k | k in s
          ensures KeyLe(x, k)
        {
          if k != x {
            KeyLeTransitive(x, m, k);
          }
        }
        assert IsLeast(x, s);
      } else {
        assert IsLeast(m, s);
      }
    }
  }

  /** The first key is unique. */
  lemma LeastUnique(s: set<string>)
    ensures forall a, b :: IsLeast(a, s) && IsLeast(b, s) ==> a == b
  {
    forall a, b | IsLeast(a, s) && IsLeast(b, s)
      ensures a == b
    {
      KeyLeAntisymmetric(a, b);
    }
  }

  /** Keys in strictly ascending order. */
  predicate StrictlySorted(keys: seq<string>) {
    forall i, j :: 0 <= i < j < |keys| ==> KeyLe(keys[i], keys[j]) && keys[i] != keys[j]
  }

  /** The keys of s in the order the JSON library iterates over an object's members. */
  function SortedKeys(s: set<string>): (keys: seq<string>)
    ensures |keys| == |s|
    ensures forall k :: k in keys <==> k in s
    ensures StrictlySorted(keys)
    decreases |s|
  {
    if s == {} then []
    else
      LeastExists(s);
      LeastUnique(s);
      var m :| IsLeast(m, s);
      var tail := SortedKeys(s - {m});
      SortedCons(m, tail);
      [m] + tail
  }

  /** A key below every key of a strictly ascending listing can go in front of it. */
  lemma SortedCons(m: string, tail: seq<string>)
    requires StrictlySorted(tail)
    requires forall k :: k in tail ==> KeyLe(m, k) && m != k
    ensures StrictlySorted([m] + tail)
  {
    var keys := [m] + tail;
    forall i, j | 0 <= i < j < |keys|
      ensures KeyLe(keys[i], keys[j]) && keys[i] != keys[j]
    {
      assert keys[j] == tail[j - 1];
      if i > 0 {
        assert keys[i] == tail[i - 1];
      } else {
        assert tail[j - 1] in tail;
      }
    }
  }

  /** The first entry of a strictly ascending listing of s is the first key of s. */
  lemma SortedHeadIsLeast(s: set<string>, keys: seq<string>)
    requires |keys| > 0 && StrictlySorted(keys) && forall k :: k in keys <==> k in s
    ensures IsLeast(keys[0], s)
  {
    forall k | k in s
      ensures KeyLe(keys[0], k)
    {
      assert k in keys;
      var j :| 0 <= j < |keys| && keys[j] == k;
      if j == 0 {
        KeyLeReflexive(k);
      }
    }
  }

  /** The rest of a strictly ascending listing of s lists s without its first key. */
  lemma SortedTail(s: set<string>, keys: seq<string>)
    requires |keys| > 0 && StrictlySorted(keys) && forall k :: k in keys <==> k in s
    ensures StrictlySorted(keys[1..])
    ensures forall k :: k in keys[1..] <==> k in s - {keys[0]}
  {
    var tail := keys[1..];
    forall k
      ensures k in tail <==> k in s - {keys[0]}
    {
      if k in tail {
        var j :| 0 <= j < |tail| && tail[j] == k;
        assert keys[j + 1] == k;
      }
      if k in s - {keys[0]} {
        assert k in keys;
        var j :| 0 <= j < |keys| && keys[j] == k;
        assert tail[j - 1] == k;
      }
    }
  }

  /** A strictly ascending listing of exactly the keys of s is the one SortedKeys gives. */
  lemma {:induction false} SortedKeysUnique(s: set<string>, keys: seq<string>)
    requires StrictlySorted(keys) && forall k :: k in keys <==> k in s
    ensures SortedKeys(s) == keys
    decreases |keys|
  {
    if |keys| == 0 {
      assert forall k :: k !in s;
      assert s == {};
    } else {
      var x := keys[0];
      assert IsLeast(x, s) by {
        SortedHeadIsLeast(s, keys);
      }
      assert StrictlySorted(keys[1..]) && forall k :: k in keys[1..] <==> k in s - {x} by {
        SortedTail(s, keys);
      }
      SortedKeysUnique(s - {x}, keys[1..]);
      SortedKeysFirst(s, x);
      HeadThenTail(keys);
    }
  }

  /** Three keys in ascending order are the order SortedKeys gives them. */
  lemma SortedThreeKeys(k0: string, k1: string, k2: string)
    requires KeyLe(k0, k1) && KeyLe(k1, k2) && k0 != k1 && k1 != k2 && k0 != k2
    ensures SortedKeys({k0, k1, k2}) == [k0, k1, k2]
  {
    var keys := [k0, k1, k2];
    KeyLeTransitive(k0, k1, k2);
    assert StrictlySorted(keys);
    SortedKeysUnique({k0, k1, k2}, keys);
  }

  lemma HeadThenTail(keys: seq<string>)
    requires |keys| > 0
    ensures [keys[0]] + keys[1..] == keys
  {
  }

  /** SortedKeys lists the first key of s, then the rest in order. */
  lemma SortedKeysFirst(s: set<string>, x: string)
    requires IsLeast(x, s)
    ensures SortedKeys(s) == [x] + SortedKeys(s - {x})
  {
    assert x in s;
    LeastUnique(s);
  }
}
