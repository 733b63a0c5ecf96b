/** Go's text helpers: strings.TrimSpace and the byte length of a string. */
module Text {

  // ----- Trimming -----

  /** Go's unicode.IsSpace. */
  predicate IsSpace(c: char) {
    c in {'\t', '\n', '\U{000B}', '\U{000C}', '\r', ' ', '\U{0085}', '\U{00A0}', '\U{1680}',
          '\U{2028}', '\U{2029}', '\U{202F}', '\U{205F}', '\U{3000}'}
    || '\U{2000}' <= c <= '\U{200A}'
  }

  /** These are the code points with Unicode's White_Space property. */
  lemma SpacesAreWhiteSpace(c: char)
    ensures var n := c as int;
            IsSpace(c) <==>
            || 0x09 <= n <= 0x0D || n == 0x20 || n == 0x85 || n == 0xA0 || n == 0x1680 || 0x2000 <= n <= 0x200A
            || 0x2028 <= n <= 0x2029 || n == 0x202F || n == 0x205F || n == 0x3000
  {
  }

  function TrimLeft(s: string): string {
    if s != "" && IsSpace(s[0]) then TrimLeft(s[1..]) else s
  }

  function TrimRight(s: string): string {
    if s != "" && IsSpace(s[|s| - 1]) then TrimRight(s[..|s| - 1]) else s
  }

  /** Go's strings.TrimSpace. */
  function TrimSpace(s: string): string {
    TrimRight(TrimLeft(s))
  }

  ghost predicate AllSpace(s: string) { forall i :: 0 <= i < |s| ==> IsSpace(s[i]) }

  /** `t` neither starts nor ends with white space. */
  predicate Edged(t: string) { t != "" ==> !IsSpace(t[0]) && !IsSpace(t[|t| - 1]) }

  /** `t` starts at position `i` of `s`, with nothing but white space around it. */
  ghost predicate TrimsAt(s: string, t: string, i: nat) {
    && i + |t| <= |s| && s[i..i + |t|] == t
    && (forall k :: 0 <= k < i ==> IsSpace(s[k]))
    && (forall k :: i + |t| <= k < |s| ==> IsSpace(s[k]))
  }

  /** `t` is `s` without its outer white space. */
  ghost predicate Trims(s: string, t: string) {
    Edged(t) && exists i: nat :: TrimsAt(s, t, i)
  }

  lemma {:induction false} TrimLeftAt(s: string) returns (i: nat)
    ensures i <= |s| && TrimLeft(s) == s[i..] && forall k :: 0 <= k < i ==> IsSpace(s[k])
    ensures TrimLeft(s) != "" ==> !IsSpace(TrimLeft(s)[0])
  {
    if s == "" || !IsSpace(s[0]) {
      i := 0;
    } else {
      var j := TrimLeftAt(s[1..]);
      i := j + 1;
      assert s[1..][j..] == s[i..];
      assert forall k :: 0 < k < i ==> s[k] == s[1..][k - 1];
    }
  }

  lemma {:induction false} TrimRightAt(s: string) returns (n: nat)
    ensures n <= |s| && TrimRight(s) == s[..n] && forall k :: n <= k < |s| ==> IsSpace(s[k])
    ensures n > 0 ==> !IsSpace(s[n - 1])
  {
    if s == "" || !IsSpace(s[|s| - 1]) {
      n := |s|;
    } else {
      n := TrimRightAt(s[..|s| - 1]);
      assert s[..|s| - 1][..n] == s[..n];
      assert forall k :: n <= k < |s| - 1 ==> s[k] == s[..|s| - 1][k];
    }
  }

  /** TrimSpace removes exactly the outer white space. */
  lemma TrimSpaceTrims(s: string)
    ensures Trims(s, TrimSpace(s))
  {
    var i := TrimLeftAt(s);
    var n := TrimRightAt(s[i..]);
    assert s[i..][..n] == s[i..i + n];
    assert forall k :: i + n <= k < |s| ==> s[k] == s[i..][k - i];
    assert TrimsAt(s, TrimSpace(s), i);
  }

  lemma NonSpaceInside(s: string, t: string, i: nat, k: nat)
    requires TrimsAt(s, t, i) && k < |s| && !IsSpace(s[k])
    ensures i <= k < i + |t|
  {
  }

  lemma TrimsWithin(s: string, t: string, u: string, i: nat, j: nat)
    requires Edged(t) && TrimsAt(s, t, i) && TrimsAt(s, u, j) && t != ""
    ensures j <= i && i + |t| <= j + |u|
  {
    assert s[i] == t[0] && s[i + |t| - 1] == t[|t| - 1];
    NonSpaceInside(s, u, j, i);
    NonSpaceInside(s, u, j, i + |t| - 1);
  }

  /** There is only one way to remove the outer white space. */
  lemma TrimsUnique(s: string, t: string, u: string)
    requires Trims(s, t) && Trims(s, u)
    ensures t == u
  {
    var i: nat :| TrimsAt(s, t, i);
    var j: nat :| TrimsAt(s, u, j);
    if t != "" { TrimsWithin(s, t, u, i, j); }
    if u != "" { TrimsWithin(s, u, t, j, i); }
  }

  /** Trimming is idempotent, and leaves nothing exactly of an all-blank text. */
  lemma TrimSpaceIdempotent(s: string)
    ensures TrimSpace(TrimSpace(s)) == TrimSpace(s)
    ensures TrimSpace(s) == "" <==> AllSpace(s)
  {
    TrimSpaceTrims(s);
    var t := TrimSpace(s);
    assert TrimsAt(t, t, 0);
    TrimSpaceTrims(t);
    TrimsUnique(t, TrimSpace(t), t);
    if AllSpace(s) {
      assert TrimsAt(s, "", 0);
      TrimsUnique(s, t, "");
    }
  }

  /** White space added on the outside does not show after trimming. */
  lemma TrimSpaceIgnoresPadding(l: string, s: string, r: string)
    requires AllSpace(l) && AllSpace(r)
    ensures TrimSpace(l + s + r) == TrimSpace(s)
  {
    TrimSpaceTrims(s);
    var t := TrimSpace(s);
    var i: nat :| TrimsAt(s, t, i);
    var p, j := l + s + r, |l| + i;
    assert p[j..j + |t|] == s[i..i + |t|];
    assert forall k :: 0 <= k < |l| ==> p[k] == l[k];
    assert forall k :: 0 <= k < |s| ==> p[|l| + k] == s[k];
    assert forall k :: 0 <= k < |r| ==> p[|l| + |s| + k] == r[k];
    assert forall k :: 0 <= k < j ==> IsSpace(p[k]) by {
      assert forall k :: |l| <= k < j ==> p[k] == s[k - |l|];
    }
    assert forall k :: j + |t| <= k < |p| ==> IsSpace(p[k]) by {
      assert forall k :: j + |t| <= k < |l| + |s| ==> p[k] == s[k - |l|];
      assert forall k :: |l| + |s| <= k < |p| ==> p[k] == r[k - |l| - |s|];
    }
    assert TrimsAt(p, t, j);
    TrimSpaceTrims(p);
    TrimsUnique(p, TrimSpace(p), t);
  }

  // ----- Byte length -----

  /** Go's len of a string counts UTF-8 bytes. */
  function ByteLen(s: string): nat {
    if s == "" then 0 else ByteWidth(s[0]) + ByteLen(s[1..])
  }

  function ByteWidth(c: char): nat {
    if c < '\U{0080}' then 1 else if c < '\U{0800}' then 2 else if c < '\U{10000}' then 3 else 4
  }

  /** The payload bits of an n-byte sequence, by the table in section 3 of RFC 3629. */
  function PayloadBits(n: nat): nat {
    if n <= 1 then 7 else 5 * n + 1
  }

  function Power2(n: nat): nat { if n == 0 then 1 else 2 * Power2(n - 1) }

  /** `n` bytes hold the code point of `c`, and fewer do not. */
  predicate Takes(c: char, n: nat) {
    n >= 1 && c as int < Power2(PayloadBits(n)) && (n > 1 ==> Power2(PayloadBits(n - 1)) <= c as int)
  }

  lemma WidthTakes(c: char)
    ensures 1 <= ByteWidth(c) <= 4 && Takes(c, ByteWidth(c))
  {
    assert Power2(7) == 0x80;
    assert Power2(11) == 16 * Power2(7);
    assert Power2(16) == 32 * Power2(11);
    assert Power2(21) == 32 * Power2(16);
  }

  lemma {:induction false} ByteLenAppend(a: string, b: string)
    ensures ByteLen(a + b) == ByteLen(a) + ByteLen(b)
  {
    if a == "" {
      assert a + b == b;
    } else {
      assert (a + b)[0] == a[0] && (a + b)[1..] == a[1..] + b;
      ByteLenAppend(a[1..], b);
    }
  }

  lemma {:induction false} ByteLenBounds(s: string)
    ensures |s| <= ByteLen(s) <= 4 * |s|
    ensures ByteLen(s) == |s| <==> forall i :: 0 <= i < |s| ==> s[i] < '\U{0080}'
  {
    if s == "" {
    } else {
      ByteLenBounds(s[1..]);
      assert forall i :: 0 < i < |s| ==> s[i] == s[1..][i - 1];
      assert forall i :: 0 <= i < |s| - 1 ==> s[1..][i] == s[i + 1];
    }
  }
}
