/** The string helpers of Go's `strings` package that the core uses, restricted to ASCII. */
module Text {
  import opened Wrappers

  /** ASCII case folding of one character (Go's `unicode.ToLower` on the ASCII range). */
  function LowerChar(c: char): (d: char)
    ensures 'A' <= c <= 'Z' ==> d as int == c as int + 32
    ensures !('A' <= c <= 'Z') ==> d == c
  {
    if 'A' <= c <= 'Z' then (c as int + 32) as char else c
  }

  /** `strings.ToLower`, on ASCII letters only. */
  function ToLower(s: string): (r: string)
    ensures |r| == |s|
    ensures forall i :: 0 <= i < |s| ==> r[i] == LowerChar(s[i])
  {
    seq(|s|, i requires 0 <= i < |s| => LowerChar(s[i]))
  }

  /** `strings.HasPrefix(s, p)`. */
  predicate HasPrefix(s: string, p: string) {
    |p| <= |s| && s[..|p|] == p
  }

  /** `strings.Contains(s, sub)`: some window of `s` equals `sub` (the empty string is in every string). */
  predicate Contains(s: string, sub: string) {
    exists i | 0 <= i <= |s| - |sub| :: OccursAt(s, sub, i)
  }

  /** `sub` occurs in `s` starting at index `i`. */
  predicate OccursAt(s: string, sub: string, i: int) {
    0 <= i <= |s| - |sub| && s[i..i + |sub|] == sub
  }

  /** `strings.Join(parts, sep)`. */
  function Join(parts: seq<string>, sep: string): (r: string)
    ensures parts == [] ==> r == ""
    ensures |parts| == 1 ==> r == parts[0]
  {
    if |parts| == 0 then ""
    else if |parts| == 1 then parts[0]
    else parts[0] + sep + Join(parts[1..], sep)
  }

  /** The white space `strings.TrimSpace` removes, restricted to ASCII. */
  predicate IsSpace(c: char) {
    c == ' ' || c == '\t' || c == '\n' || c == '\r' || c == '\U{000B}' || c == '\U{000C}'
  }

  /** The number of white-space characters `s` starts with. */
  function LeadingSpace(s: string): (k: nat)
    ensures k <= |s|
    ensures forall i | 0 <= i < k :: IsSpace(s[i])
    ensures k < |s| ==> !IsSpace(s[k])
  {
    if s != [] && IsSpace(s[0]) then 1 + LeadingSpace(s[1..]) else 0
  }

  /** Where the white space `s` ends with begins. */
  function TrailingSpace(s: string): (e: nat)
    ensures e <= |s|
    ensures forall i | e <= i < |s| :: IsSpace(s[i])
    ensures 0 < e ==> !IsSpace(s[e - 1])
  {
    if s != [] && IsSpace(s[|s| - 1]) then TrailingSpace(s[..|s| - 1]) else |s|
  }

  /** `r` is `s[k..k + |r|]`, what was cut off on either side is all white space, and `r` neither
      starts nor ends with white space. */
  predicate Trims(s: string, r: string, k: nat) {
    && k + |r| <= |s| && r == s[k..k + |r|]
    && (forall i | 0 <= i < k :: IsSpace(s[i]))
    && (forall i | k + |r| <= i < |s| :: IsSpace(s[i]))
    && (r != [] ==> !IsSpace(r[0]) && !IsSpace(r[|r| - 1]))
  }

  /** `strings.TrimSpace(s)`: `s` without its leading and trailing white space. */
  function TrimSpace(s: string): (r: string)
    ensures Trims(s, r, LeadingSpace(s))
  {
    var k := LeadingSpace(s);
    var e := TrailingSpace(s);
    if e <= k then [] else s[k..e]
  }

  /** A string is trimmed in only one way: a split into white space, a word without white space at
      its ends, and white space determines the word. */
  lemma TrimsUnique(s: string, r: string, k: nat, r': string, k': nat)
    requires Trims(s, r, k) && Trims(s, r', k')
    requires r != [] && r' != []
    ensures r == r' && k == k'
  {
  }

  /** The index of the first `c` in `s`, if any. */
  function IndexOf(s: string, c: char): (r: Option<nat>)
    ensures r.None? <==> c !in s
    ensures r.Some? ==> r.value < |s| && s[r.value] == c && c !in s[..r.value]
  {
    if s == [] then None
    else if s[0] == c then Some(0)
    else match IndexOf(s[1..], c)
      case None => None
      case Some(i) => assert s[..i + 1] == [s[0]] + s[1..][..i]; Some(i + 1)
  }
}
