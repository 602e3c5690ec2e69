/**
 Python's string methods as far as they are needed: `splitlines` and `strip`.
 */
module PythonText {

  /** The breaks `splitlines` honours although JSON does not force them to be escaped. */
  predicate UnescapedBreak(c: char) {
    c == '\U{0085}' || c == '\U{2028}' || c == '\U{2029}'
  }

  predicate IsBreak(c: char) {
    || c == '\n' || c == '\r' || c == '\U{000B}' || c == '\U{000C}'
    || c == '\U{001C}' || c == '\U{001D}' || c == '\U{001E}' || UnescapedBreak(c)
  }

  predicate IsSpace(c: char) {
    || IsBreak(c) || c == ' ' || c == '\t' || c == '\U{001F}' || c == '\U{00A0}' || c == '\U{1680}'
    || '\U{2000}' <= c <= '\U{200A}' || c == '\U{202F}' || c == '\U{205F}' || c == '\U{3000}'
  }

  predicate NoBreak(s: string) {
    forall i :: 0 <= i < |s| ==> !IsBreak(s[i])
  }

  predicate NoUnescapedBreak(s: string) {
    forall i :: 0 <= i < |s| ==> !UnescapedBreak(s[i])
  }

  /** The break-free front of the text is `n` characters long. */
  predicate IsLineEnd(s: string, n: nat) {
    && n <= |s|
    && (forall i :: 0 <= i < n ==> !IsBreak(s[i]))
    && (n < |s| ==> IsBreak(s[n]))
  }

  lemma {:induction false} LineEndExists(s: string)
    ensures exists n: nat :: IsLineEnd(s, n)
  {
    if s == "" || IsBreak(s[0]) {
      assert IsLineEnd(s, 0);
    } else {
      LineEndExists(s[1..]);
      var n: nat :| IsLineEnd(s[1..], n);
      assert forall i :: 0 < i < n + 1 ==> s[i] == s[1..][i - 1];
      assert IsLineEnd(s, n + 1);
    }
  }

  lemma LineEndUnique(s: string, m: nat, n: nat)
    requires IsLineEnd(s, m) && IsLineEnd(s, n)
    ensures m == n
  {
  }

  /** Length of the break-free front of a text. */
  function LineLength(s: string): (n: nat)
    ensures IsLineEnd(s, n)
  {
    LineEndExists(s);
    assert forall m: nat, n: nat :: IsLineEnd(s, m) && IsLineEnd(s, n) ==> m == n;
    var n: nat :| IsLineEnd(s, n);
    n
  }

  /** How many characters the break at `n` takes. */
  function BreakLength(s: string, n: nat): (k: nat)
    requires n < |s|
    ensures 1 <= k <= 2 && n + k <= |s|
  {
    if s[n] == '\r' && n + 1 < |s| && s[n + 1] == '\n' then 2 else 1
  }

  /** Python's `str.splitlines`: "\r\n" is one break and a final break opens no new line. */
  function SplitLines(s: string): seq<string>
    decreases |s|
  {
    if s == "" then []
    else
      var n := LineLength(s);
      if n == |s| then [s]
      else
        [s[..n]] + SplitLines(s[n + BreakLength(s, n)..])
  }

  function StripLeft(s: string): string {
    if s != "" && IsSpace(s[0]) then StripLeft(s[1..]) else s
  }

  function StripRight(s: string): (r: string)
    ensures r <= s
    ensures r == "" || !IsSpace(r[|r| - 1])
    ensures s == "" || !IsSpace(s[|s| - 1]) ==> r == s
  {
    if s != "" && IsSpace(s[|s| - 1]) then StripRight(s[..|s| - 1]) else s
  }

  function Strip(s: string): string {
    StripRight(StripLeft(s))
  }
}
