/** The few JavaScript string operations the chat page relies on:
    `String.prototype.trim`, `toLowerCase` (ASCII only), `includes`
    and `replace(/"/g, '')`. */
module JsText {

  /** The WhiteSpace and LineTerminator code points that `trim` strips
      (sections 12.2 and 12.3 of ECMA-262). */
  predicate IsWhitespace(c: char) {
    var n := c as int;
    n == 0x09 || n == 0x0A || n == 0x0B || n == 0x0C || n == 0x0D || n == 0x20
    || n == 0xA0 || n == 0x1680 || (0x2000 <= n <= 0x200A) || n == 0x2028
    || n == 0x2029 || n == 0x202F || n == 0x205F || n == 0x3000 || n == 0xFEFF
  }

  predicate AllWhitespace(s: string) {
    forall i :: 0 <= i < |s| ==> IsWhitespace(s[i])
  }

  /** `s` holds `r` starting at position `lo`, with only whitespace
      before and after it. */
  ghost predicate PaddedAt(s: string, lo: int, r: string) {
    0 <= lo && lo + |r| <= |s| && s[lo..lo + |r|] == r &&
    (forall j :: 0 <= j < lo ==> IsWhitespace(s[j])) &&
    (forall j :: lo + |r| <= j < |s| ==> IsWhitespace(s[j]))
  }

  /** The first position at or after `i` that does not hold whitespace. */
  function SkipWhitespace(s: string, i: nat): (k: nat)
    requires i <= |s|
    ensures i <= k <= |s|
    ensures forall j :: i <= j < k ==> IsWhitespace(s[j])
    ensures k == |s| || !IsWhitespace(s[k])
    decreases |s| - i
  {
    if i < |s| && IsWhitespace(s[i]) then SkipWhitespace(s, i + 1) else i
  }

  /** The end of the last non-whitespace character in `s[lo..hi]`. */
  function SkipWhitespaceBack(s: string, lo: nat, hi: nat): (k: nat)
    requires lo <= hi <= |s|
    ensures lo <= k <= hi
    ensures forall j :: k <= j < hi ==> IsWhitespace(s[j])
    ensures k == lo || !IsWhitespace(s[k - 1])
    decreases hi
  {
    if lo < hi && IsWhitespace(s[hi - 1]) then SkipWhitespaceBack(s, lo, hi - 1) else hi
  }

  /** JavaScript's `trim`: the part of `s` between its leading and its
      trailing whitespace. It is empty exactly when `s` is whitespace only. */
  function Trim(s: string): (r: string)
    ensures r == [] <==> AllWhitespace(s)
    ensures r != [] ==> !IsWhitespace(r[0]) && !IsWhitespace(r[|r| - 1])
    ensures exists lo :: PaddedAt(s, lo, r)
  {
    var lo := SkipWhitespace(s, 0);
    var hi := SkipWhitespaceBack(s, lo, |s|);
    assert PaddedAt(s, lo, s[lo..hi]);
    s[lo..hi]
  }

  function LowerChar(c: char): char {
    if 'A' <= c <= 'Z' then (c as int + 32) as char else c
  }

  /** `toLowerCase`, restricted to the ASCII letters: no capital letter is
      left, and only capitals change, each to its small letter. */
  function ToLower(s: string): (r: string)
    ensures |r| == |s|
    ensures forall i :: 0 <= i < |r| ==> !('A' <= r[i] <= 'Z')
    ensures forall i :: 0 <= i < |s| ==>
      r[i] == s[i] || ('A' <= s[i] <= 'Z' && r[i] as int == s[i] as int + 32)
  {
    seq(|s|, i requires 0 <= i < |s| => LowerChar(s[i]))
  }

  /** `sub` occurs in `s` at position `i`. */
  ghost predicate OccursAt(s: string, sub: string, i: int) {
    0 <= i && i + |sub| <= |s| && s[i..i + |sub|] == sub
  }

  /** JavaScript's `includes`: scans `s` for `sub` from the left. It holds
      exactly when `sub` occurs somewhere in `s`; in particular the empty
      string is included in every string. */
  function Includes(s: string, sub: string): (b: bool)
    ensures b <==> exists i :: OccursAt(s, sub, i)
    decreases |s|
  {
    if |sub| > |s| then false
    else if s[..|sub|] == sub then
      assert OccursAt(s, sub, 0);
      true
    else
      var rest := Includes(s[1..], sub);
      assert rest <==> exists i :: OccursAt(s, sub, i) by {
        forall i | OccursAt(s, sub, i) ensures OccursAt(s[1..], sub, i - 1) {
          assert s[1..][i - 1..i - 1 + |sub|] == s[i..i + |sub|];
        }
        if rest {
          var j :| OccursAt(s[1..], sub, j);
          assert s[j + 1..j + 1 + |sub|] == s[1..][j..j + |sub|];
          assert OccursAt(s, sub, j + 1);
        }
      }
      rest
  }

  /** `replace(/c/g, '')`: every occurrence of `c` removed, the other
      characters kept with their multiplicities. */
  function RemoveChar(s: string, c: char): (r: string)
    ensures multiset(r) == multiset(s)[c := 0]
    ensures c !in r && |r| <= |s|
  {
    if s == [] then []
    else
      assert s == [s[0]] + s[1..];
      (if s[0] == c then [] else [s[0]]) + RemoveChar(s[1..], c)
  }

  /** Removal keeps the order of what stays: it works piece by piece. */
  lemma {:induction false} RemoveCharAppend(a: string, b: string, c: char)
    ensures RemoveChar(a + b, c) == RemoveChar(a, c) + RemoveChar(b, c)
  {
    if a == [] {
      assert a + b == b;
    } else {
      assert (a + b)[1..] == a[1..] + b;
      RemoveCharAppend(a[1..], b, c);
    }
  }

  /** Removing `c` leaves nothing exactly when `s` holds nothing but `c`. */
  lemma RemoveCharEmpty(s: string, c: char)
    ensures RemoveChar(s, c) == [] <==> forall d :: d in s ==> d == c
  {
    var r := RemoveChar(s, c);
    if r == [] {
      forall d | d in s ensures d == c {
        assert multiset(s)[d] > 0;
        assert multiset(r)[d] == 0;
      }
    } else {
      assert r[0] in multiset(r);
      assert multiset(s)[r[0]] > 0 && r[0] != c;
      assert r[0] in s;
    }
  }
}
