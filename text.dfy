/**
  String helpers shared by the server (Python `str.strip`, `str.lower`,
  `str.endswith`, `" ".join`) and the page script (JavaScript `trim`).
  Whitespace is the ASCII set both languages agree on.
*/
module Text {

  predicate IsSpace(c: char) {
    c == ' ' || c == '\t' || c == '\n' || c == '\r' || c == '\U{B}' || c == '\U{C}'
  }

  predicate AllSpace(s: string) {
    forall k :: 0 <= k < |s| ==> IsSpace(s[k])
  }

  /** No whitespace at either end. */
  predicate Stripped(s: string) {
    s == [] || (!IsSpace(s[0]) && !IsSpace(s[|s| - 1]))
  }

  /** The end of the run of whitespace that starts at `i`. */
  function SpaceRunEnd(s: string, i: nat): (j: nat)
    requires i <= |s|
    ensures i <= j <= |s|
    ensures forall k :: i <= k < j ==> IsSpace(s[k])
    ensures j == |s| || !IsSpace(s[j])
    decreases |s| - i
  {
    if i < |s| && IsSpace(s[i]) then SpaceRunEnd(s, i + 1) else i
  }

  /** The start of the run of whitespace that ends at `j`, not going below `lo`. */
  function SpaceRunStart(s: string, lo: nat, j: nat): (k: nat)
    requires lo <= j <= |s|
    ensures lo <= k <= j
    ensures forall m :: k <= m < j ==> IsSpace(s[m])
    ensures k == lo || !IsSpace(s[k - 1])
    decreases j
  {
    if lo < j && IsSpace(s[j - 1]) then SpaceRunStart(s, lo, j - 1) else j
  }

  /** Python's `str.strip()` and JavaScript's `String.prototype.trim()`:
      the infix of `s` left after cutting the whitespace at both ends. */
  function Strip(s: string): (r: string)
    ensures Stripped(r)
    ensures |r| <= |s|
  {
    var i := SpaceRunEnd(s, 0);
    var j := SpaceRunStart(s, i, |s|);
    assert i < j ==> s[i..j][0] == s[i] && s[i..j][j - i - 1] == s[j - 1];
    s[i..j]
  }

  /** What `Strip` keeps is an infix of its argument and everything it cuts
      away is whitespace. */
  lemma StripInfix(s: string) returns (i: nat)
    ensures i + |Strip(s)| <= |s| && Strip(s) == s[i..i + |Strip(s)|]
    ensures AllSpace(s[..i]) && AllSpace(s[i + |Strip(s)|..])
  {
    i := SpaceRunEnd(s, 0);
    var j := SpaceRunStart(s, i, |s|);
    assert Strip(s) == s[i..j];
    assert forall k :: 0 <= k < i ==> s[..i][k] == s[k];
    assert forall k :: 0 <= k < |s| - j ==> s[j..][k] == s[j + k];
  }

  lemma StripStripped(s: string)
    requires Stripped(s)
    ensures Strip(s) == s
  {
  }

  /** Stripping a string leaves nothing exactly when it is all whitespace. */
  lemma StripEmptyIffAllSpace(s: string)
    ensures Strip(s) == [] <==> AllSpace(s)
  {
    var i := StripInfix(s);
    if Strip(s) == [] {
      forall k | 0 <= k < |s| ensures IsSpace(s[k]) {
        if k < i { assert s[..i][k] == s[k]; } else { assert s[i..][k - i] == s[k]; }
      }
    } else {
      assert s[i] == Strip(s)[0];
    }
  }

  /** Space-joining two stripped pieces and stripping again changes nothing,
      except that an empty left piece leaves no separator. */
  lemma StripJoin(a: string, b: string)
    requires Stripped(a) && Stripped(b) && b != []
    ensures Strip(a + " " + b) == if a == [] then b else a + " " + b
  {
    var s := a + " " + b;
    if a == [] {
      assert SpaceRunEnd(s, 1) == 1;
      assert s[1..] == b;
    } else {
      assert s[0] == a[0] && s[|s| - 1] == b[|b| - 1];
    }
  }

  predicate IsUpper(c: char) {
    'A' <= c <= 'Z'
  }

  /** An upper-case ASCII letter becomes the lower-case letter at the same
      place in the alphabet; every other character is kept. */
  function LowerChar(c: char): (d: char)
    ensures !IsUpper(d)
    ensures IsUpper(c) ==> 'a' <= d <= 'z' && d as int - 'a' as int == c as int - 'A' as int
    ensures !IsUpper(c) ==> d == c
  {
    if 'A' <= c <= 'Z' then (c as int + 32) as char else c
  }

  /** Python's `str.lower()` on ASCII letters. */
  function Lower(s: string): (r: string)
    ensures |r| == |s|
    ensures forall k :: 0 <= k < |r| ==> !IsUpper(r[k])
    ensures forall k :: 0 <= k < |s| && !IsUpper(s[k]) ==> r[k] == s[k]
    ensures forall k :: 0 <= k < |s| && IsUpper(s[k]) ==>
              'a' <= r[k] <= 'z' && r[k] as int - 'a' as int == s[k] as int - 'A' as int
  {
    seq(|s|, k requires 0 <= k < |s| => LowerChar(s[k]))
  }

  /** Lower-casing twice is lower-casing once. */
  lemma LowerIdempotent(s: string)
    ensures Lower(Lower(s)) == Lower(s)
  {
  }

  predicate EndsWith(s: string, suffix: string) {
    |suffix| <= |s| && s[|s| - |suffix|..] == suffix
  }

  /** Python's `" ".join(parts)`. */
  function JoinSpaces(parts: seq<string>): string
  {
    if |parts| == 0 then ""
    else if |parts| == 1 then parts[0]
    else JoinSpaces(parts[..|parts| - 1]) + " " + parts[|parts| - 1]
  }

  /** Every piece non-empty and without whitespace at its ends. */
  predicate Tidy(parts: seq<string>) {
    forall k :: 0 <= k < |parts| ==> parts[k] != [] && Stripped(parts[k])
  }

  /** Joining tidy pieces gives a stripped string, empty only for no pieces. */
  lemma {:induction false} JoinTidy(parts: seq<string>)
    requires Tidy(parts)
    ensures Stripped(JoinSpaces(parts))
    ensures JoinSpaces(parts) == [] <==> parts == []
  {
    if |parts| > 1 {
      var init := parts[..|parts| - 1];
      assert Tidy(init) by {
        forall k | 0 <= k < |init| ensures init[k] != [] && Stripped(init[k]) {
          assert init[k] == parts[k];
        }
      }
      JoinTidy(init);
      var last := parts[|parts| - 1];
      assert last != [] && Stripped(last);
      var j := JoinSpaces(init) + " " + last;
      assert j[0] == JoinSpaces(init)[0];
      assert j[|j| - 1] == last[|last| - 1];
    }
  }

  /** Appending a piece to a join adds one separator and the piece. */
  lemma JoinSnoc(parts: seq<string>, p: string)
    requires parts != []
    ensures JoinSpaces(parts + [p]) == JoinSpaces(parts) + " " + p
  {
    assert (parts + [p])[..|parts|] == parts;
  }
}
