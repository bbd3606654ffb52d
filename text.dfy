/** String helpers shared by the scraper, the region model and the geocoder.
    Python's str.lower/upper/strip are modelled on ASCII letters and ASCII
    whitespace; `in` on strings is `Contains`. */
module Text {

  datatype Option<T> = None | Some(value: T)

  /** The first `n` elements, or all of them when there are fewer. */
  function Take<T>(s: seq<T>, n: nat): (r: seq<T>)
    ensures |r| <= n && |r| <= |s|
    ensures r == s[..|r|]
    ensures |s| <= n ==> r == s
  {
    if |s| <= n then s else s[..n]
  }

  function LowerChar(c: char): (d: char)
    ensures 'A' <= c <= 'Z' ==> d as int == c as int + 32
    ensures !('A' <= c <= 'Z') ==> d == c
  {
    if 'A' <= c <= 'Z' then (c as int + 32) as char else c
  }

  function UpperChar(c: char): (d: char)
    ensures 'a' <= c <= 'z' ==> d as int == c as int - 32
    ensures !('a' <= c <= 'z') ==> d == c
  {
    if 'a' <= c <= 'z' then (c as int - 32) as char else c
  }

  /** str.lower() on ASCII letters. */
  function Lower(s: string): (r: string)
    ensures |r| == |s|
    ensures forall i :: 0 <= i < |s| ==> r[i] == LowerChar(s[i])
  {
    if s == [] then [] else [LowerChar(s[0])] + Lower(s[1..])
  }

  /** str.upper() on ASCII letters. */
  function Upper(s: string): (r: string)
    ensures |r| == |s|
    ensures forall i :: 0 <= i < |s| ==> r[i] == UpperChar(s[i])
  {
    if s == [] then [] else [UpperChar(s[0])] + Upper(s[1..])
  }

  /** The ASCII characters str.strip() removes and `\s` matches: space, tab,
      line feed, vertical tab, form feed, carriage return and the four
      separators 0x1C-0x1F. */
  predicate IsSpace(c: char) {
    c == ' ' || ('\t' <= c <= '\r') || ('\U{1C}' <= c <= '\U{1F}')
  }

  function StripLeft(s: string): (r: string)
    ensures |r| <= |s| && r == s[|s| - |r|..]
    ensures r != [] ==> !IsSpace(r[0])
    ensures forall i :: 0 <= i < |s| - |r| ==> IsSpace(s[i])
  {
    if s != [] && IsSpace(s[0]) then StripLeft(s[1..]) else s
  }

  function StripRight(s: string): (r: string)
    ensures |r| <= |s| && r == s[..|r|]
    ensures r != [] ==> !IsSpace(r[|r| - 1])
    ensures forall i :: |r| <= i < |s| ==> IsSpace(s[i])
  {
    if s != [] && IsSpace(s[|s| - 1]) then StripRight(s[..|s| - 1]) else s
  }

  /** str.strip(): leading and trailing whitespace removed. */
  function Strip(s: string): (r: string)
    ensures r != [] ==> !IsSpace(r[0]) && !IsSpace(r[|r| - 1])
    ensures |r| <= |s|
  {
    StripRight(StripLeft(s))
  }

  predicate StartsWith(s: string, p: string) {
    |p| <= |s| && s[..|p|] == p
  }

  /** Python's `p in s` for strings. */
  predicate Contains(s: string, p: string) {
    OccursFrom(s, p, 0)
  }

  /** `p` occurs in `s` at some position `i` or later. */
  predicate OccursFrom(s: string, p: string, i: nat)
    decreases |s| - i
  {
    i + |p| <= |s| && (s[i..i + |p|] == p || OccursFrom(s, p, i + 1))
  }

  /** Some word of `words` occurs in `s`. */
  predicate ContainsAny(s: string, words: seq<string>) {
    exists k :: 0 <= k < |words| && Contains(s, words[k])
  }

  lemma ContainsAt(s: string, p: string, i: nat)
    requires i + |p| <= |s| && s[i..i + |p|] == p
    ensures Contains(s, p)
  {
    OccursFromAt(s, p, 0, i);
  }

  lemma {:induction false} OccursFromAt(s: string, p: string, j: nat, i: nat)
    requires j <= i && i + |p| <= |s| && s[i..i + |p|] == p
    ensures OccursFrom(s, p, j)
    decreases i - j
  {
    if j < i {
      OccursFromAt(s, p, j + 1, i);
    }
  }

  lemma ContainsWitness(s: string, p: string) returns (i: nat)
    requires Contains(s, p)
    ensures i + |p| <= |s| && s[i..i + |p|] == p
  {
    i := OccursFromWitness(s, p, 0);
  }

  lemma {:induction false} OccursFromWitness(s: string, p: string, j: nat) returns (i: nat)
    requires OccursFrom(s, p, j)
    ensures j <= i && i + |p| <= |s| && s[i..i + |p|] == p
    decreases |s| - j
  {
    if s[j..j + |p|] == p {
      i := j;
    } else {
      i := OccursFromWitness(s, p, j + 1);
    }
  }

  /** An occurrence of `p` in `s` gives an occurrence of every substring of `p`. */
  lemma ContainsTransitive(s: string, p: string, q: string, k: nat)
    requires Contains(s, p)
    requires k + |q| <= |p| && p[k..k + |q|] == q
    ensures Contains(s, q)
  {
    var i := ContainsWitness(s, p);
    forall j | 0 <= j < |q|
      ensures s[i + k..i + k + |q|][j] == q[j]
    {
      assert s[i + k + j] == s[i..i + |p|][k + j] == p[k..k + |q|][j];
    }
    ContainsAt(s, q, i + k);
  }

  /** Python's `s.replace(p, "")`: every non-overlapping occurrence of `p`,
      scanned left to right, is deleted. */
  function RemoveAll(s: string, p: string): (r: string)
    requires p != []
    ensures |r| <= |s|
    decreases |s|
  {
    if |s| < |p| then s
    else if s[..|p|] == p then RemoveAll(s[|p|..], p)
    else [s[0]] + RemoveAll(s[1..], p)
  }

  /** A string without an occurrence of `p` is left alone by RemoveAll. */
  lemma {:induction false} RemoveAllAbsent(s: string, p: string)
    requires p != [] && !Contains(s, p)
    ensures RemoveAll(s, p) == s
    decreases |s|
  {
    if |s| >= |p| {
      assert s[0..|p|] == s[..|p|];
      if !Contains(s[1..], p) {
        RemoveAllAbsent(s[1..], p);
      } else {
        var i := ContainsWitness(s[1..], p);
        assert s[1..][i..i + |p|] == s[i + 1..i + 1 + |p|];
        ContainsAt(s, p, i + 1);
      }
      assert [s[0]] + s[1..] == s;
    }
  }
}
