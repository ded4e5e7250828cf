/** The JavaScript string operations the controllers lean on: trim, toLowerCase, split and join. */
module Strings {

  /** WhiteSpace and LineTerminator of ECMAScript, which `trim` strips. */
  predicate IsSpace(c: char) {
    || '\t' <= c <= '\r'
    || c in {' ', '\U{00A0}', '\U{1680}', '\U{2028}', '\U{2029}', '\U{202F}', '\U{205F}', '\U{3000}', '\U{FEFF}'}
    || '\U{2000}' <= c <= '\U{200A}'
  }

  predicate IsDigit(c: char) {
    '0' <= c <= '9'
  }

  function DigitValue(c: char): nat
    requires IsDigit(c)
  {
    (c as int) - ('0' as int)
  }

  function Digit(n: nat): char
    requires n <= 9
  {
    (('0' as int) + n) as char
  }

  function TwoDigits(n: nat): string
    requires n <= 99
  {
    [Digit(n / 10), Digit(n % 10)]
  }

  /** Neither end of s is white space; the empty string counts as trimmed. */
  predicate Trimmed(s: string) {
    s != "" ==> !IsSpace(s[0]) && !IsSpace(s[|s| - 1])
  }

  function TrimStart(s: string): (r: string)
    ensures r != "" ==> !IsSpace(r[0])
    ensures |r| <= |s| && r == s[|s| - |r|..]
  {
    if s != "" && IsSpace(s[0]) then TrimStart(s[1..]) else s
  }

  function TrimEnd(s: string): (r: string)
    ensures r != "" ==> !IsSpace(r[|r| - 1])
    ensures |r| <= |s| && r == s[..|r|]
  {
    if s != "" && IsSpace(s[|s| - 1]) then TrimEnd(s[..|s| - 1]) else s
  }

  function Trim(s: string): (r: string)
    ensures Trimmed(r)
    ensures Trimmed(s) ==> r == s
  {
    TrimEnd(TrimStart(s))
  }

  function LowerChar(c: char): char {
    if 'A' <= c <= 'Z' then ((c as int) + 32) as char else c
  }

  /** Letter by letter over the alphabet, and nothing else. */
  lemma LowerIsAlphabet(c: char)
    ensures var upper, lower := "ABCDEFGHIJKLMNOPQRSTUVWXYZ", "abcdefghijklmnopqrstuvwxyz";
            && (forall i :: 0 <= i < 26 && c == upper[i] ==> LowerChar(c) == lower[i])
            && (c !in upper ==> LowerChar(c) == c)
  {
    var upper := "ABCDEFGHIJKLMNOPQRSTUVWXYZ";
    if 'A' <= c <= 'Z' {
      assert upper[c as int - 'A' as int] == c;
    }
  }

  /** ASCII lower-casing. */
  function ToLower(s: string): (r: string)
    ensures |r| == |s|
  {
    if s == "" then "" else [LowerChar(s[0])] + ToLower(s[1..])
  }

  /** Lower-casing is idempotent and keeps trimmed strings trimmed. */
  lemma {:induction false} LowerIsStable(s: string)
    ensures ToLower(ToLower(s)) == ToLower(s)
    ensures Trimmed(s) ==> Trimmed(ToLower(s))
  {
    forall i | 0 <= i < |s| ensures ToLower(s)[i] == LowerChar(s[i]) {
      LowerAt(s, i);
    }
    forall i | 0 <= i < |s| ensures ToLower(ToLower(s))[i] == ToLower(s)[i] {
      LowerAt(ToLower(s), i);
    }
  }

  lemma {:induction false} LowerAt(s: string, i: nat)
    requires i < |s|
    ensures ToLower(s)[i] == LowerChar(s[i])
  {
    if i > 0 {
      LowerAt(s[1..], i - 1);
    }
  }

  /** A string of lower-case letters; ToLower and Trim leave it alone. */
  predicate IsLowerWord(s: string) {
    forall i :: 0 <= i < |s| ==> 'a' <= s[i] <= 'z'
  }

  lemma {:induction false} LowerWordIsStable(s: string)
    requires IsLowerWord(s)
    ensures ToLower(s) == s && Trimmed(s)
  {
    if s != "" {
      LowerWordIsStable(s[1..]);
    }
  }

  /** Pieces of s between occurrences of d; never empty, as in JavaScript. */
  function Split(s: string, d: char): (parts: seq<string>)
    ensures |parts| >= 1
    ensures forall p :: p in parts ==> d !in p
    decreases |s|
  {
    if d !in s then [s]
    else
      var k := IndexOf(s, d);
      [s[..k]] + Split(s[k + 1..], d)
  }

  function IndexOf(s: string, d: char): (k: nat)
    requires d in s
    ensures k < |s| && s[k] == d && d !in s[..k]
  {
    if s[0] == d then 0
    else
      var k := IndexOf(s[1..], d) + 1;
      assert s[..k] == [s[0]] + s[1..][..k - 1];
      k
  }

  function Join(parts: seq<string>, sep: string): string {
    if |parts| == 0 then ""
    else if |parts| == 1 then parts[0]
    else parts[0] + sep + Join(parts[1..], sep)
  }

  lemma {:induction false} FirstIndex(s: string, d: char, k: nat)
    requires k < |s| && s[k] == d && d !in s[..k]
    ensures IndexOf(s, d) == k
  {
    if k > 0 {
      assert s[0] == s[..k][0];
      assert s[1..][..k - 1] == s[..k][1..];
      FirstIndex(s[1..], d, k - 1);
    }
  }

  lemma SplitWithout(s: string, d: char)
    requires d !in s
    ensures Split(s, d) == [s]
  {
  }

  lemma SplitAtFirst(head: string, d: char, rest: string)
    requires d !in head
    ensures Split(head + [d] + rest, d) == [head] + Split(rest, d)
  {
    var s := head + [d] + rest;
    assert s[|head|] == d;
    assert s[..|head|] == head;
    FirstIndex(s, d, |head|);
    var k := |head|;
    assert s[..k] == head && s[k + 1..] == rest;
  }

  function MapTrim(parts: seq<string>): (r: seq<string>)
    ensures |r| == |parts|
    ensures forall i :: 0 <= i < |r| ==> r[i] == Trim(parts[i])
  {
    seq(|parts|, i requires 0 <= i < |parts| => Trim(parts[i]))
  }

  /** `filter(Boolean)` on strings. */
  function NonEmpty(parts: seq<string>): (r: seq<string>)
    ensures forall p :: p in r ==> p in parts && p != ""
    ensures (forall p :: p in parts ==> p != "") ==> r == parts
    ensures |r| <= |parts|
  {
    if |parts| == 0 then []
    else
      assert parts == [parts[0]] + parts[1..] && parts[0] in parts;
      assert forall p :: p in parts[1..] ==> p in parts;
      (if parts[0] == "" then [] else [parts[0]]) + NonEmpty(parts[1..])
  }
}
