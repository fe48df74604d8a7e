/** Facts about concatenation and slices that several proofs share. */
module Sequences {

  lemma Assoc<T>(a: seq<T>, b: seq<T>, c: seq<T>)
    ensures a + (b + c) == a + b + c
  {
  }

  lemma Adjacent<T>(s: seq<T>, a: nat, b: nat, c: nat)
    requires a <= b <= c <= |s|
    ensures s[a..b] + s[b..c] == s[a..c]
  {
  }

  lemma SliceOfSlice<T>(s: seq<T>, lo: nat, hi: nat, offset: nat, n: nat)
    requires lo <= hi <= |s| && offset + n <= hi - lo
    ensures s[lo..hi][offset..offset + n] == s[lo + offset..lo + offset + n]
  {
    var part, whole := s[lo..hi][offset..offset + n], s[lo + offset..lo + offset + n];
    forall i | 0 <= i < n
      ensures part[i] == whole[i]
    {
      assert s[lo..hi][offset + i] == s[lo + offset + i];
    }
  }

  lemma FrontAndNext<T>(s: seq<T>, n: nat, m: nat)
    requires n + m <= |s|
    ensures s[..n] + s[n..][..m] == s[..n + m]
  {
  }

  lemma DropTwice<T>(s: seq<T>, m: nat, n: nat)
    requires m + n <= |s|
    ensures s[m..][n..] == s[m + n..]
  {
  }

  lemma ThreeParts<T>(a: seq<T>, b: seq<T>, c: seq<T>)
    ensures a + b + c == a + (b + c) && (a + b + c)[|a|..] == b + c && (a + b + c)[|a| + |b|..] == c
  {
  }

  predicate OccursAt<T(==)>(s: seq<T>, part: seq<T>, i: int) {
    0 <= i && i + |part| <= |s| && s[i..i + |part|] == part
  }

  /* ---- Scanning a text made of parts ---- */

  function Concat<T>(parts: seq<seq<T>>): seq<T> {
    if parts == [] then [] else parts[0] + Concat(parts[1..])
  }

  /** Wherever the part stands in the data, a scan from there gives the result and goes on behind it. */
  ghost predicate Scans<T(!new), R(!new)>(scan: nat -> seq<R>, data: seq<T>, part: seq<T>, result: R) {
    forall p: nat :: p <= |data| && part <= data[p..] ==> scan(p) == [result] + scan(p + |part|)
  }

  lemma FirstPart<T>(data: seq<T>, pos: nat, parts: seq<seq<T>>, tail: seq<T>)
    requires parts != [] && pos <= |data| && data[pos..] == Concat(parts) + tail
    ensures parts[0] <= data[pos..] && pos + |parts[0]| <= |data|
    ensures data[pos + |parts[0]|..] == Concat(parts[1..]) + tail
  {
    Assoc(parts[0], Concat(parts[1..]), tail);
    assert data[pos + |parts[0]|..] == data[pos..][|parts[0]|..];
  }

  /** A scan of concatenated parts gives the results of the parts in order, and then those of what follows. */
  lemma {:induction false} ScansBefore<T(!new), R(!new)>(scan: nat -> seq<R>, data: seq<T>, pos: nat,
                                                         parts: seq<seq<T>>, results: seq<R>, tail: seq<T>)
    requires |parts| == |results| && pos <= |data| && data[pos..] == Concat(parts) + tail
    requires forall i :: 0 <= i < |parts| ==> Scans(scan, data, parts[i], results[i])
    ensures |tail| <= |data| && scan(pos) == results + scan(|data| - |tail|)
    decreases |parts|
  {
    if parts == [] {
      assert |data[pos..]| == |tail|;
      assert results + scan(pos) == scan(pos);
    } else {
      FirstPart(data, pos, parts, tail);
      assert Scans(scan, data, parts[0], results[0]);
      forall i | 0 <= i < |parts[1..]|
        ensures Scans(scan, data, parts[1..][i], results[1..][i])
      {
        assert Scans(scan, data, parts[i + 1], results[i + 1]);
      }
      ScansBefore(scan, data, pos + |parts[0]|, parts[1..], results[1..], tail);
      Assoc([results[0]], results[1..], scan(|data| - |tail|));
      assert [results[0]] + results[1..] == results;
    }
  }

  /** With nothing behind the parts, the results are all there is. */
  lemma ScansAll<T(!new), R(!new)>(scan: nat -> seq<R>, data: seq<T>, parts: seq<seq<T>>, results: seq<R>)
    requires |parts| == |results| && data == Concat(parts) && scan(|data|) == []
    requires forall i :: 0 <= i < |parts| ==> Scans(scan, data, parts[i], results[i])
    ensures scan(0) == results
  {
    assert data[0..] == Concat(parts) + [];
    ScansBefore(scan, data, 0, parts, results, []);
    assert results + [] == results;
  }

  /* ---- Items under consecutive numbers ---- */

  function Numbered<T, R>(items: seq<T>, n: nat, f: (T, nat) -> R): (r: seq<R>)
    ensures |r| == |items|
  {
    if items == [] then [] else [f(items[0], n)] + Numbered(items[1..], n + 1, f)
  }

  lemma {:induction false} NumberedAt<T, R>(items: seq<T>, n: nat, f: (T, nat) -> R, i: nat)
    requires i < |items|
    ensures Numbered(items, n, f)[i] == f(items[i], n + i)
  {
    if i > 0 {
      NumberedAt(items[1..], n + 1, f, i - 1);
    }
  }

  lemma NumberedBefore<T, R>(items: seq<T>, n: nat, f: (T, nat) -> R, last: R, i: nat)
    requires i < |items|
    ensures var all := Numbered(items, n, f) + [last]; |all| == |items| + 1 && all[i] == f(items[i], n + i)
  {
    NumberedAt(items, n, f, i);
  }
}
