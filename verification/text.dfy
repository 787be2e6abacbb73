/** String helpers with the meaning of the Python `str` methods the backup
    script uses: `lower`, `upper`, `capitalize`, `replace`, `lstrip`,
    `rstrip`, `split(sep, 1)` and `join`. Case mapping is ASCII only. */
module Text {
  import opened Wrappers

  predicate IsUpperChar(c: char) { 'A' <= c <= 'Z' }

  /** The ASCII lower case of a character: upper-case letters move 32
      code points down the table to their lower-case partner. */
  function LowerChar(c: char): (r: char)
    ensures IsUpperChar(c) ==> r as int == c as int + 32 && 'a' <= r <= 'z'
    ensures !IsUpperChar(c) ==> r == c
  {
    if IsUpperChar(c) then (c as int + 32) as char else c
  }

  /** The ASCII upper case of a character. */
  function UpperChar(c: char): (r: char)
    ensures 'a' <= c <= 'z' ==> r as int == c as int - 32 && IsUpperChar(r)
    ensures !('a' <= c <= 'z') ==> r == c
  {
    if 'a' <= c <= 'z' then (c as int - 32) as char else c
  }

  /** True when `s` has no upper-case ASCII letter, i.e. `s.lower() == s`. */
  predicate IsLower(s: string)
  {
    forall i :: 0 <= i < |s| ==> !IsUpperChar(s[i])
  }

  /** `s.lower()` */
  function Lower(s: string): (r: string)
    ensures |r| == |s|
    ensures forall i {:trigger r[i]} :: 0 <= i < |s| ==> r[i] == LowerChar(s[i])
    ensures IsLower(r)
    ensures IsLower(s) ==> r == s
  {
    seq(|s|, i requires 0 <= i < |s| => LowerChar(s[i]))
  }

  /** `s.upper()` */
  function Upper(s: string): (r: string)
    ensures |r| == |s|
    ensures forall i {:trigger r[i]} :: 0 <= i < |s| ==> r[i] == UpperChar(s[i])
    ensures forall i :: 0 <= i < |r| ==> !('a' <= r[i] <= 'z')
  {
    seq(|s|, i requires 0 <= i < |s| => UpperChar(s[i]))
  }

  /** Lower-casing undoes upper-casing on strings that were already lower case. */
  lemma LowerUpper(s: string)
    requires IsLower(s)
    ensures Lower(Upper(s)) == s
  {
    assert forall i :: 0 <= i < |s| ==> Lower(Upper(s))[i] == s[i];
  }

  /** `s.capitalize()`: first character upper case, the rest lower case. */
  function Capitalize(s: string): (r: string)
    ensures |r| == |s|
    ensures |s| > 0 ==> r[0] == UpperChar(s[0]) && r[1..] == Lower(s[1..])
  {
    if s == [] then [] else [UpperChar(s[0])] + Lower(s[1..])
  }

  /** `s.replace(a, b)` for single characters. */
  function ReplaceChar(s: string, a: char, b: char): (r: string)
    ensures |r| == |s|
    ensures forall i :: 0 <= i < |s| ==> (s[i] == a ==> r[i] == b) && (s[i] != a ==> r[i] == s[i])
    ensures a != b ==> a !in r
  {
    seq(|s|, i requires 0 <= i < |s| => if s[i] == a then b else s[i])
  }

  /** `s.lstrip(chars)`: drops the longest prefix made only of characters of `cs`. */
  function LStrip(s: string, cs: set<char>): (r: string)
    ensures |r| <= |s| && r == s[|s| - |r|..]
    ensures forall i :: 0 <= i < |s| - |r| ==> s[i] in cs
    ensures r == [] || r[0] !in cs
    decreases |s|
  {
    if |s| > 0 && s[0] in cs then LStrip(s[1..], cs) else s
  }

  /** `lstrip` leaves alone a string whose first character is not stripped. */
  lemma LStripStops(s: string, cs: set<char>)
    requires s == [] || s[0] !in cs
    ensures LStrip(s, cs) == s
  {
  }

  /** `lstrip` removes something from a string whose first character is stripped. */
  lemma LStripShortens(s: string, cs: set<char>)
    requires s != [] && s[0] in cs
    ensures |LStrip(s, cs)| < |s|
  {
  }

  /** `s.rstrip(chars)`: drops the longest suffix made only of characters of `cs`. */
  function RStrip(s: string, cs: set<char>): (r: string)
    ensures |r| <= |s| && r == s[..|r|]
    ensures forall i :: |r| <= i < |s| ==> s[i] in cs
    ensures r == [] || r[|r| - 1] !in cs
    decreases |s|
  {
    if |s| > 0 && s[|s| - 1] in cs then RStrip(s[..|s| - 1], cs) else s
  }

  /** `s.removeprefix(p)` */
  function RemovePrefix(s: string, p: string): (r: string)
    ensures p <= s ==> p + r == s
    ensures !(p <= s) ==> r == s
  {
    if p <= s then s[|p|..] else s
  }

  /** `s.split(d, 1)` unpacked into two names: `None` stands for the
      `ValueError` raised when `d` does not occur in `s`. */
  function SplitOnce(s: string, d: char): (r: Option<(string, string)>)
    ensures r.None? <==> d !in s
    ensures r.Some? ==> s == r.value.0 + [d] + r.value.1 && d !in r.value.0
  {
    if |s| == 0 then None
    else if s[0] == d then Some(([], s[1..]))
    else match SplitOnce(s[1..], d)
      case None => None
      case Some(p) => Some(([s[0]] + p.0, p.1))
  }

  /** `d` not occurring in `a` pins down where `SplitOnce` cuts. */
  lemma {:induction false} SplitOnceAt(a: string, d: char, b: string)
    requires d !in a
    ensures SplitOnce(a + [d] + b, d) == Some((a, b))
  {
    if a == [] {
      assert a + [d] + b == [d] + b;
    } else {
      assert (a + [d] + b)[1..] == a[1..] + [d] + b;
      SplitOnceAt(a[1..], d, b);
      assert [a[0]] + a[1..] == a;
    }
  }

  /** `sep.join(parts)` */
  function Join(sep: string, parts: seq<string>): string
  {
    if |parts| == 0 then []
    else if |parts| == 1 then parts[0]
    else parts[0] + sep + Join(sep, parts[1..])
  }
}
