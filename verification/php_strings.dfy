/** The two PHP string functions the instructions hook relies on: `trim`
    with its default character list and `str_contains`. Strings are
    sequences of characters; there is no encoding or normalisation. */
module PhpStrings {

  /** PHP `trim`'s default list: space, tab, line feed, carriage return, NUL
      and vertical tab. */
  predicate IsTrimChar(c: char) {
    c == ' ' || c == '\t' || c == '\n' || c == '\r' || c == '\U{0000}' || c == '\U{000B}'
  }

  /** No trim character at either end. */
  predicate IsTrimmed(s: string) {
    |s| == 0 || (!IsTrimChar(s[0]) && !IsTrimChar(s[|s| - 1]))
  }

  /** The index of the first character that is not a trim character (|s|
      when there is none). */
  function TrimFrom(s: string): (lo: nat)
    ensures lo <= |s|
    ensures forall i :: 0 <= i < lo ==> IsTrimChar(s[i])
    ensures lo < |s| ==> !IsTrimChar(s[lo])
  {
    if |s| > 0 && IsTrimChar(s[0]) then 1 + TrimFrom(s[1..]) else 0
  }

  /** The end of `s[..e]` once its trailing trim characters are dropped, never
      going below `lo`. */
  function TrimUntil(s: string, lo: nat, e: nat): (hi: nat)
    requires lo <= e <= |s|
    ensures lo <= hi <= e
    ensures forall i :: hi <= i < e ==> IsTrimChar(s[i])
    ensures hi > lo ==> !IsTrimChar(s[hi - 1])
    decreases e
  {
    if e > lo && IsTrimChar(s[e - 1]) then TrimUntil(s, lo, e - 1) else e
  }

  /** PHP `trim($s)`: the part of `s` between its leading and trailing runs
      of trim characters. */
  function Trim(s: string): (r: string)
    ensures IsTrimmed(r)
    ensures |r| == 0 <==> forall i :: 0 <= i < |s| ==> IsTrimChar(s[i])
    ensures exists lead :: && OccursAt(s, r, lead)
                           && (forall i :: 0 <= i < lead ==> IsTrimChar(s[i]))
                           && (forall i :: lead + |r| <= i < |s| ==> IsTrimChar(s[i]))
  {
    var lo := TrimFrom(s);
    var hi := TrimUntil(s, lo, |s|);
    var r := s[lo..hi];
    assert OccursAt(s, r, lo);
    assert |r| > 0 ==> r[0] == s[lo] && r[|r| - 1] == s[hi - 1];
    r
  }

  /** `sub` occurs in `s` starting at index `i`. */
  predicate OccursAt(s: string, sub: string, i: int) {
    0 <= i <= |s| - |sub| && s[i..i + |sub|] == sub
  }

  /** PHP `str_contains($s, $sub)`: `sub` occurs in `s` as a contiguous run. */
  predicate Contains(s: string, sub: string): (r: bool)
    ensures sub == [] ==> r
    ensures r ==> |sub| <= |s|
    ensures |sub| == |s| ==> (r <==> sub == s)
  {
    assert sub == [] ==> OccursAt(s, sub, 0);
    assert |sub| == |s| && sub == s ==> OccursAt(s, sub, 0);
    exists i :: 0 <= i <= |s| && OccursAt(s, sub, i)
  }

  /** A string with no trim character at either end is its own trim. */
  lemma {:induction false} TrimOfTrimmed(s: string)
    requires IsTrimmed(s)
    ensures Trim(s) == s
  {
    if |s| > 0 {
      assert TrimFrom(s) == 0;
      assert TrimUntil(s, 0, |s|) == |s|;
      assert s[0..|s|] == s;
    }
  }

  /** Trimming twice is trimming once. */
  lemma TrimIdempotent(s: string)
    ensures Trim(Trim(s)) == Trim(s)
  {
    TrimOfTrimmed(Trim(s));
  }

  /** Every string contains itself. */
  lemma ContainsSelf(s: string)
    ensures Contains(s, s)
  {
    assert OccursAt(s, s, 0);
  }

  /** A string contains any of its suffixes. */
  lemma ContainsSuffix(prefix: string, s: string)
    ensures Contains(prefix + s, s)
  {
    assert OccursAt(prefix + s, s, |prefix|);
  }
}
