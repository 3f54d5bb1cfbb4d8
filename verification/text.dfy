/** The two Go standard-library string operations the command key depends
    on: `strings.TrimSpace` and the first field of `strings.SplitN(s, sep, 2)`. */
module Text {
  import opened Types

  /** The ASCII whitespace table of Go's `strings.TrimSpace`:
      tab, newline, vertical tab, form feed, carriage return and space. */
  predicate IsSpace(b: byte)
  {
    b == 0x09 || b == 0x0A || b == 0x0B || b == 0x0C || b == 0x0D || b == 0x20
  }

  /** Every byte of `s` in `[lo, hi)` is whitespace. */
  predicate SpaceBetween(s: Bytes, lo: int, hi: int)
  {
    forall k :: lo <= k < hi && 0 <= k < |s| ==> IsSpace(s[k])
  }

  /** The first index at or after `i` that does not hold whitespace. */
  function Start(s: Bytes, i: nat): (start: nat)
    requires i <= |s|
    ensures i <= start <= |s|
    ensures SpaceBetween(s, i, start)
    ensures start == |s| || !IsSpace(s[start])
    decreases |s| - i
  {
    if i == |s| || !IsSpace(s[i]) then i else Start(s, i + 1)
  }

  /** The end of `s[start..j]` once its trailing whitespace is dropped. */
  function Stop(s: Bytes, start: nat, j: nat): (stop: nat)
    requires start <= j <= |s|
    ensures start <= stop <= j
    ensures SpaceBetween(s, stop, j)
    ensures stop == start || !IsSpace(s[stop - 1])
    decreases j
  {
    if j == start || !IsSpace(s[j - 1]) then j else Stop(s, start, j - 1)
  }

  /** `strings.TrimSpace` for the ASCII whitespace table: skip whitespace
      from the front, then from the back, and keep what is between. */
  function TrimSpace(s: Bytes): Bytes
  {
    var start := Start(s, 0);
    s[start..Stop(s, start, |s|)]
  }

  /** `r` sits at offset `i` of `s` with only whitespace around it and no
      whitespace at either of its ends. */
  ghost predicate TrimAt(r: Bytes, s: Bytes, i: nat)
  {
    && i + |r| <= |s|
    && s[i..i + |r|] == r
    && SpaceBetween(s, 0, i)
    && SpaceBetween(s, i + |r|, |s|)
    && (r == [] || (!IsSpace(r[0]) && !IsSpace(r[|r| - 1])))
  }

  /** `r` is `s` with its whitespace margins removed. */
  ghost predicate IsTrimOf(r: Bytes, s: Bytes)
  {
    exists i: nat :: TrimAt(r, s, i)
  }

  /** `TrimSpace` keeps the piece between the whitespace margins. */
  lemma TrimmedAt(s: Bytes)
    ensures TrimAt(TrimSpace(s), s, Start(s, 0))
  {
    var start := Start(s, 0);
    var stop := Stop(s, start, |s|);
    var r := s[start..stop];
    if r != [] {
      assert r[0] == s[start] && r[|r| - 1] == s[stop - 1];
    }
  }

  /** `TrimSpace` removes exactly the whitespace margins. */
  lemma TrimSpaceIsTrim(s: Bytes)
    ensures IsTrimOf(TrimSpace(s), s)
  {
    TrimmedAt(s);
  }

  /** A non-space byte inside the margins of a trimmed piece is part of it. */
  lemma NonSpaceInside(r: Bytes, s: Bytes, i: nat, k: nat)
    requires TrimAt(r, s, i)
    requires k < |s| && !IsSpace(s[k])
    ensures i <= k < i + |r|
  {
  }

  /** Two trimmings of the same string coincide. */
  lemma TrimAtUnique(r: Bytes, t: Bytes, s: Bytes, i: nat, j: nat)
    requires TrimAt(r, s, i) && TrimAt(t, s, j)
    ensures r == t
  {
    if r != [] && t != [] {
      assert s[i] == r[0] && s[j] == t[0];
      NonSpaceInside(t, s, j, i);
      NonSpaceInside(r, s, i, j);
      assert i == j;
      assert s[i + |r| - 1] == r[|r| - 1] && s[j + |t| - 1] == t[|t| - 1];
      NonSpaceInside(t, s, j, i + |r| - 1);
      NonSpaceInside(r, s, i, j + |t| - 1);
      assert |r| == |t|;
    }
  }

  /** `IsTrimOf` determines its first argument, so it is an independent
      definition of `TrimSpace`. */
  lemma TrimOfIsTrimSpace(r: Bytes, s: Bytes)
    requires IsTrimOf(r, s)
    ensures r == TrimSpace(s)
  {
    var i: nat :| TrimAt(r, s, i);
    TrimmedAt(s);
    TrimAtUnique(r, TrimSpace(s), s, i, Start(s, 0));
  }

  /** Trimming twice is trimming once. */
  lemma TrimSpaceIdempotent(s: Bytes)
    ensures TrimSpace(TrimSpace(s)) == TrimSpace(s)
  {
    var t := TrimSpace(s);
    TrimmedAt(s);
    assert t[0..|t|] == t;
    assert TrimAt(t, t, 0);
    TrimOfIsTrimSpace(t, t);
  }

  /** A string that starts and ends with non-whitespace is left as it is. */
  lemma TrimSpaceKeepsTrimmed(s: Bytes)
    requires s == [] || (!IsSpace(s[0]) && !IsSpace(s[|s| - 1]))
    ensures TrimSpace(s) == s
  {
    assert s[0..|s|] == s;
    assert TrimAt(s, s, 0);
    TrimOfIsTrimSpace(s, s);
  }

  /** The first field of `strings.SplitN(s, []byte{sep}, 2)`: everything
      before the first `sep`, or all of `s` when it holds none. */
  function UpTo(s: Bytes, sep: byte): (r: Bytes)
    ensures |r| <= |s| && r == s[..|r|]
    ensures sep !in r
    ensures |r| == |s| || s[|r|] == sep
  {
    if s == [] || s[0] == sep then [] else [s[0]] + UpTo(s[1..], sep)
  }
}
