/** Trimming, as the Rust library does it. */
module Text {
  /** Unicode white space, which is what `trim` removes. */
  predicate IsSpace(c: char) {
    var n := c as int;
    || 0x09 <= n <= 0x0D || n == 0x20 || n == 0x85 || n == 0xA0 || n == 0x1680 || 0x2000 <= n <= 0x200A
    || n == 0x2028 || n == 0x2029 || n == 0x202F || n == 0x205F || n == 0x3000
  }

  function TrimStart(s: string): string {
    if s != "" && IsSpace(s[0]) then TrimStart(s[1..]) else s
  }

  function TrimEnd(s: string): string {
    if s != "" && IsSpace(s[|s| - 1]) then TrimEnd(s[..|s| - 1]) else s
  }

  function Trim(s: string): string {
    TrimStart(TrimEnd(s))
  }

  /** The characters with the Unicode property `White_Space`, one by one. */
  lemma SpacesAre(c: char)
    ensures IsSpace(c) <==>
            c as int in {9, 10, 11, 12, 13, 32, 133, 160, 5760, 8192, 8193, 8194, 8195, 8196, 8197, 8198, 8199, 8200,
                         8201, 8202, 8232, 8233, 8239, 8287, 12288}
  {
  }

  /** `t` is what is left of `s` between its first and its last character that is not a space. */
  ghost predicate IsTrimmed(s: string, t: string) {
    exists i, j :: 0 <= i <= j <= |s| && t == s[i..j] && IsInk(s, i, j)
  }

  /** Spaces outside `s[i..j]`, and none at its ends. */
  ghost predicate IsInk(s: string, i: nat, j: nat)
    requires i <= j <= |s|
  {
    && (forall k :: 0 <= k < i || j <= k < |s| ==> IsSpace(s[k]))
    && (i < j ==> !IsSpace(s[i]) && !IsSpace(s[j - 1]))
  }

  lemma {:induction false} TrimEndCuts(s: string) returns (j: nat)
    ensures j <= |s| && TrimEnd(s) == s[..j]
    ensures forall k :: j <= k < |s| ==> IsSpace(s[k])
    ensures j > 0 ==> !IsSpace(s[j - 1])
  {
    j := |s|;
    if s != "" && IsSpace(s[|s| - 1]) { j := TrimEndCuts(s[..|s| - 1]); }
  }

  lemma {:induction false} TrimStartCuts(s: string) returns (i: nat)
    ensures i <= |s| && TrimStart(s) == s[i..]
    ensures forall k :: 0 <= k < i ==> IsSpace(s[k])
    ensures i < |s| ==> !IsSpace(s[i])
  {
    i := 0;
    if s != "" && IsSpace(s[0]) {
      i := TrimStartCuts(s[1..]);
      i := i + 1;
    }
  }

  /** What trimming leaves, for every text. */
  lemma TrimCuts(s: string) returns (i: nat, j: nat)
    ensures i <= j <= |s| && Trim(s) == s[i..j] && IsInk(s, i, j)
  {
    hide TrimEnd, TrimStart, IsSpace;
    j := TrimEndCuts(s);
    i := TrimStartCuts(s[..j]);
    assert forall k :: 0 <= k < j ==> s[..j][k] == s[k];
    assert s[..j][i..] == s[i..j];
  }

  lemma OneInk(s: string, i: nat, j: nat, k: nat, l: nat)
    requires i <= j <= |s| && k <= l <= |s| && IsInk(s, i, j) && IsInk(s, k, l)
    ensures s[i..j] == s[k..l]
  {
  }

  /** Trimming leaves that, and nothing else is it. */
  lemma TrimIs(s: string, t: string)
    ensures Trim(s) == t <==> IsTrimmed(s, t)
  {
    hide Trim, IsInk;
    var i, j := TrimCuts(s);
    if k, l :| 0 <= k <= l <= |s| && t == s[k..l] && IsInk(s, k, l) { OneInk(s, i, j, k, l); }
  }

  ghost predicate AllSpace(s: string) {
    forall i :: 0 <= i < |s| ==> IsSpace(s[i])
  }

  /** Spaces around a text that has none at its ends are what trimming removes. */
  lemma TrimPadded(a: string, s: string, b: string)
    requires AllSpace(a) && AllSpace(b) && s != "" && !IsSpace(s[0]) && !IsSpace(s[|s| - 1])
    ensures Trim(a + s + b) == s
  {
    var t := a + s + b;
    assert s == t[|a|..|a| + |s|];
    assert IsInk(t, |a|, |a| + |s|);
    TrimIs(t, s);
  }

  lemma TrimAgain(s: string)
    ensures Trim(Trim(s)) == Trim(s)
  {
    hide Trim, IsSpace;
    var i, j := TrimCuts(s);
    var t := Trim(s);
    assert t[0..|t|] == t && IsInk(t, 0, |t|);
    TrimIs(t, t);
  }

  /** White space at an end is trimmed with the rest of it. */
  lemma TrimMore(c: char, s: string)
    requires IsSpace(c)
    ensures Trim([c] + s) == Trim(s) == Trim(s + [c])
  {
    hide Trim, IsSpace;
    var i, j := TrimCuts(s);
    var before, after := [c] + s, s + [c];
    assert before[i + 1..j + 1] == s[i..j] == after[i..j];
    assert IsInk(before, i + 1, j + 1) && IsInk(after, i, j);
    TrimIs(before, s[i..j]);
    TrimIs(after, s[i..j]);
  }
}
