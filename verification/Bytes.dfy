/** Byte strings and the leftmost-occurrence search of `bytearray.find`. */
module Bytes {

  newtype byte = x: int | 0 <= x < 256

  type bytes = seq<byte>

  predicate OccursAt(s: bytes, pattern: bytes, i: int) {
    0 <= i <= |s| - |pattern| && s[i..i + |pattern|] == pattern
  }

  predicate Leftmost(s: bytes, pattern: bytes, start: nat, p: int) {
    && start <= p && OccursAt(s, pattern, p)
    && forall j :: start <= j < p ==> !OccursAt(s, pattern, j)
  }

  /** The leftmost position at or after `start` where `pattern` occurs in `s`, or -1. */
  function Find(s: bytes, pattern: bytes, start: nat): (r: int)
    ensures r == -1 || Leftmost(s, pattern, start, r)
    ensures r == -1 ==> forall j :: start <= j ==> !OccursAt(s, pattern, j)
  {
    if exists p :: start <= p <= |s| && Leftmost(s, pattern, start, p) then
      var p :| start <= p <= |s| && Leftmost(s, pattern, start, p);
      p
    else
      assert forall j :: start <= j ==> !OccursAt(s, pattern, j) by {
        forall j | start <= j && OccursAt(s, pattern, j) ensures false {
          LeftmostExists(s, pattern, start, j);
        }
      }
      -1
  }

  lemma {:induction false} LeftmostExists(s: bytes, pattern: bytes, start: nat, i: int)
    requires start <= i && OccursAt(s, pattern, i)
    ensures exists p :: start <= p <= |s| && Leftmost(s, pattern, start, p)
    decreases i
  {
    if j :| start <= j < i && OccursAt(s, pattern, j) {
      LeftmostExists(s, pattern, start, j);
    } else {
      assert Leftmost(s, pattern, start, i);
    }
  }

  /** An occurrence depends only on the bytes it covers. */
  lemma OccursInPrefix(s: bytes, more: bytes, pattern: bytes, i: int)
    requires i + |pattern| <= |s|
    ensures OccursAt(s, pattern, i) <==> OccursAt(s + more, pattern, i)
  {
    if 0 <= i {
      assert (s + more)[i..i + |pattern|] == s[i..i + |pattern|];
    }
  }

  /** An occurrence seen from further to the right. */
  lemma OccursInSuffix(s: bytes, cut: nat, pattern: bytes, i: int)
    requires cut <= |s|
    ensures 0 <= i ==> (OccursAt(s[cut..], pattern, i) <==> OccursAt(s, pattern, cut + i))
  {
    if 0 <= i <= |s| - cut - |pattern| {
      assert s[cut..][i..i + |pattern|] == s[cut + i..cut + i + |pattern|];
    }
  }

  /** Bytes that arrive later never move an occurrence that is already complete. */
  lemma FindStable(s: bytes, more: bytes, pattern: bytes, start: nat)
    requires start <= |s| && Find(s, pattern, start) >= 0
    ensures Find(s + more, pattern, start) == Find(s, pattern, start)
  {
    var p := Find(s, pattern, start);
    OccursInPrefix(s, more, pattern, p);
    forall j | start <= j < p ensures !OccursAt(s + more, pattern, j) {
      OccursInPrefix(s, more, pattern, j);
    }
  }

  /** A search is settled by an occurrence with nothing before it. */
  lemma FindIs(s: bytes, pattern: bytes, start: nat, p: int)
    requires start <= p <= |s| && OccursAt(s, pattern, p)
    requires forall j :: start <= j < p ==> !OccursAt(s, pattern, j)
    ensures Find(s, pattern, start) == p
  {
  }

  function Flatten(chunks: seq<bytes>): bytes {
    if chunks == [] then [] else chunks[0] + Flatten(chunks[1..])
  }

  lemma {:induction false} FlattenConcat(a: seq<bytes>, b: seq<bytes>)
    ensures Flatten(a + b) == Flatten(a) + Flatten(b)
  {
    if a == [] {
      assert a + b == b;
    } else {
      assert (a + b)[1..] == a[1..] + b;
      FlattenConcat(a[1..], b);
    }
  }

  /** The finest chunking of a stream: one byte per read. */
  function Bytewise(s: bytes): (chunks: seq<bytes>)
    ensures |chunks| == |s|
    ensures forall i :: 0 <= i < |chunks| ==> |chunks[i]| == 1
    ensures Flatten(chunks) == s
  {
    if s == [] then [] else
      var chunks := [s[..1]] + Bytewise(s[1..]);
      assert chunks[1..] == Bytewise(s[1..]);
      chunks
  }

  lemma BytewiseHead(s: bytes)
    requires s != []
    ensures Bytewise(s)[0] == [s[0]] && Bytewise(s)[1..] == Bytewise(s[1..])
  {
  }
}
