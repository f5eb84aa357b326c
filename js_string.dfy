/** The JavaScript string built-ins the core relies on, over `seq<char>`.
    Indices count characters; JavaScript counts UTF-16 code units, which
    shifts both `lastIndexOf` and `slice` alike and so changes nothing below. */
module JsString {

  /** `s.startsWith(p)` */
  predicate StartsWith(s: string, p: string) {
    p <= s
  }

  /** `s.endsWith(p)` */
  predicate EndsWith(s: string, p: string) {
    |p| <= |s| && s[|s| - |p|..] == p
  }

  /** `s.includes(sub)`: some position of `s` starts an occurrence of `sub`. */
  function Includes(s: string, sub: string): (r: bool)
    ensures r <==> exists i :: 0 <= i <= |s| && StartsWith(s[i..], sub)
    decreases |s|
  {
    if StartsWith(s, sub) then assert s[0..] == s; true
    else if |s| == 0 then false
    else
      var r := Includes(s[1..], sub);
      assert forall i :: 1 <= i <= |s| ==> s[i..] == s[1..][i - 1..];
      assert r ==> exists i :: 0 <= i <= |s| && StartsWith(s[i..], sub) by {
        if r {
          var j :| 0 <= j <= |s| - 1 && StartsWith(s[1..][j..], sub);
          assert s[j + 1..] == s[1..][j..];
        }
      }
      r
  }

  /** `s.lastIndexOf(c)` for a one-character needle: the last position
      holding `c`, or -1 when `c` does not occur. */
  function LastIndexOf(s: string, c: char): (r: int)
    ensures -1 <= r < |s|
    ensures 0 <= r ==> s[r] == c
    ensures forall j | r < j < |s| :: s[j] != c
  {
    if |s| == 0 then -1
    else if s[|s| - 1] == c then |s| - 1
    else LastIndexOf(s[..|s| - 1], c)
  }

  /** The two facts that pin down `LastIndexOf`: any `k` that holds `c`
      (or is -1) with no `c` after it is it. */
  lemma LastIndexOfUnique(s: string, c: char, k: int)
    requires -1 <= k < |s| && (0 <= k ==> s[k] == c)
    requires forall j | k < j < |s| :: s[j] != c
    ensures LastIndexOf(s, c) == k
  {
  }

  /** When the tail holds `c`, the last `c` of a concatenation is the
      tail's last `c`, shifted by the head's length. */
  lemma {:induction false} LastIndexOfAppend(a: string, b: string, c: char)
    requires c in b
    ensures LastIndexOf(a + b, c) == |a| + LastIndexOf(b, c)
  {
    var ab := a + b;
    assert ab[|ab| - 1] == b[|b| - 1];
    if b[|b| - 1] != c {
      var front := b[..|b| - 1];
      assert b == front + [b[|b| - 1]];
      assert c in front;
      assert ab[..|ab| - 1] == a + front;
      LastIndexOfAppend(a, front, c);
    }
  }

  /** `s.slice(start)` with one argument: a negative start counts from the
      end and is clamped at 0; a start past the end gives "". */
  function Slice(s: string, start: int): (r: string)
    ensures EndsWith(s, r)
    ensures 0 <= start <= |s| ==> |r| == |s| - start
    ensures |s| < start ==> r == []
    ensures start < 0 ==> |r| == if -start <= |s| then -start else |s|
  {
    if start < 0 then
      (if |s| + start < 0 then s else s[|s| + start..])
    else if start <= |s| then s[start..]
    else []
  }

  /** What `toLowerCase` makes of one character. ASCII capitals become
      lower case and U+0130 (capital I with dot above) becomes the two
      characters "i" and U+0307, as the Unicode default case mapping says;
      U+0130 is the only character whose lower case has another length.
      Other characters are kept as they are. */
  function LowerChar(c: char): (r: string)
    ensures |r| == 1 || c == '\U{0130}'
    ensures '.' in r <==> c == '.'
  {
    if 'A' <= c <= 'Z' then [(c as int + 32) as char]
    else if c == '\U{0130}' then ['i', '\U{0307}']
    else [c]
  }

  /** `s.toLowerCase()` */
  function ToLowerCase(s: string): (r: string)
    ensures |r| >= |s|
    ensures '.' in r <==> '.' in s
  {
    if s == [] then [] else LowerChar(s[0]) + ToLowerCase(s[1..])
  }

  /** Without U+0130 lower-casing keeps the length and works character by
      character, so a '.' stays exactly where it was. */
  lemma {:induction false} ToLowerCaseAt(s: string)
    requires '\U{0130}' !in s
    ensures |ToLowerCase(s)| == |s|
    ensures forall i :: 0 <= i < |s| ==> ToLowerCase(s)[i] == LowerChar(s[i])[0]
  {
    if s != [] {
      assert '\U{0130}' !in s[1..] by {
        forall i | 0 <= i < |s[1..]| ensures s[1..][i] != '\U{0130}' {
          assert s[1..][i] == s[i + 1];
        }
      }
      ToLowerCaseAt(s[1..]);
      forall i | 0 <= i < |s| ensures ToLowerCase(s)[i] == LowerChar(s[i])[0] {
        if i > 0 {
          assert ToLowerCase(s)[i] == ToLowerCase(s[1..])[i - 1];
        }
      }
    }
  }

  /** A string with no ASCII capital and no U+0130 is its own lower case. */
  lemma {:induction false} ToLowerCaseKeeps(s: string)
    requires forall i :: 0 <= i < |s| ==> !('A' <= s[i] <= 'Z') && s[i] != '\U{0130}'
    ensures ToLowerCase(s) == s
  {
    if s != [] {
      assert forall i :: 0 <= i < |s[1..]| ==> s[1..][i] == s[i + 1];
      ToLowerCaseKeeps(s[1..]);
    }
  }

  /** Lower-casing works piece by piece. */
  lemma {:induction false} ToLowerCaseAppend(a: string, b: string)
    ensures ToLowerCase(a + b) == ToLowerCase(a) + ToLowerCase(b)
  {
    if a != [] {
      assert (a + b)[0] == a[0];
      assert (a + b)[1..] == a[1..] + b;
      ToLowerCaseAppend(a[1..], b);
      assert ToLowerCase(a + b) == LowerChar(a[0]) + ToLowerCase(a[1..] + b);
      assert ToLowerCase(a) == LowerChar(a[0]) + ToLowerCase(a[1..]);
    } else {
      assert a + b == b;
    }
  }
}
