/**
 * The string operations the inventory code relies on: Java's and JavaScript's
 * `toLowerCase` (read on ASCII letters only), Java's `equalsIgnoreCase`, `trim`,
 * `length` and `String.contains`.
 */
module Text {

  /** `toLowerCase` on one character: ASCII capitals become small letters, nothing else changes. */
  function LowerChar(c: char): (r: char)
    ensures 'A' <= c <= 'Z' ==> r as int == c as int + 32
    ensures !('A' <= c <= 'Z') ==> r == c
  {
    if 'A' <= c <= 'Z' then (c as int + 32) as char else c
  }

  function ToLower(s: string): (r: string)
    ensures |r| == |s|
    ensures forall i :: 0 <= i < |s| ==> r[i] == LowerChar(s[i])
  {
    seq(|s|, i requires 0 <= i < |s| => LowerChar(s[i]))
  }

  /** Lower-casing twice is lower-casing once. */
  lemma ToLowerIdempotent(s: string)
    ensures ToLower(ToLower(s)) == ToLower(s)
  {
  }

  /** Java `a.equalsIgnoreCase(b)`: same length and the same letters up to case. */
  predicate EqualsIgnoreCase(a: string, b: string) {
    ToLower(a) == ToLower(b)
  }

  /** A character above U+FFFF, which Java stores as a surrogate pair. */
  predicate Astral(c: char) {
    c as int > 0xFFFF
  }

  /** Java `s.length()`: the number of UTF-16 code units, two for each astral character. */
  function Utf16Length(s: string): (n: nat)
    ensures |s| <= n <= 2 * |s|
  {
    if s == [] then 0 else (if Astral(s[0]) then 2 else 1) + Utf16Length(s[1..])
  }

  /** The code-unit length equals the character count exactly when no character is astral, and doubles it exactly when all are. */
  lemma {:induction false} Utf16LengthBounds(s: string)
    ensures Utf16Length(s) == |s| <==> forall i :: 0 <= i < |s| ==> !Astral(s[i])
    ensures Utf16Length(s) == 2 * |s| <==> forall i :: 0 <= i < |s| ==> Astral(s[i])
  {
    if s != [] {
      Utf16LengthBounds(s[1..]);
      assert forall i :: 1 <= i < |s| ==> s[i] == s[1..][i - 1];
    }
  }

  /** `t` occurs in `s` starting at index `i`. */
  predicate OccursAt(s: string, t: string, i: int) {
    0 <= i && i + |t| <= |s| && s[i..i + |t|] == t
  }

  /** Java `s.contains(t)` and JavaScript `s.includes(t)`: some window of `s` equals `t`. */
  function Contains(s: string, t: string): (r: bool)
    ensures r <==> exists i :: OccursAt(s, t, i)
    decreases |s|
  {
    if |t| > |s| then
      false
    else if s[..|t|] == t then
      assert OccursAt(s, t, 0);
      true
    else
      var rest := Contains(s[1..], t);
      assert forall i :: OccursAt(s[1..], t, i) <==> OccursAt(s, t, i + 1) by {
        forall i ensures OccursAt(s[1..], t, i) <==> OccursAt(s, t, i + 1) {
          if 0 <= i && i + |t| <= |s| - 1 {
            assert s[1..][i..i + |t|] == s[i + 1..i + 1 + |t|];
          }
        }
      }
      assert rest ==> exists i :: OccursAt(s, t, i) by {
        if rest {
          var i :| OccursAt(s[1..], t, i);
          assert OccursAt(s, t, i + 1);
        }
      }
      assert (exists i :: OccursAt(s, t, i)) ==> rest by {
        if exists i :: OccursAt(s, t, i) {
          var i :| OccursAt(s, t, i);
          assert i != 0;
          assert OccursAt(s[1..], t, i - 1);
        }
      }
      rest
  }

  /** The empty string occurs in every string: an empty filter matches everything. */
  lemma {:induction false} ContainsEmpty(s: string)
    ensures Contains(s, "")
  {
    assert OccursAt(s, "", 0);
  }

  /** Every string contains itself. */
  lemma {:induction false} ContainsSelf(s: string)
    ensures Contains(s, s)
  {
    assert OccursAt(s, s, 0);
  }

  /** Java treats every character up to U+0020 as trimmable. */
  predicate Trimmable(c: char) {
    c <= ' '
  }

  /** Drops the leading trimmable characters. */
  function TrimStart(s: string): (r: string)
    ensures |r| <= |s| && r == s[|s| - |r|..]
    ensures forall j :: 0 <= j < |s| - |r| ==> Trimmable(s[j])
    ensures r != [] ==> !Trimmable(r[0])
  {
    if |s| > 0 && Trimmable(s[0]) then TrimStart(s[1..]) else s
  }

  /** Drops the trailing trimmable characters. */
  function TrimEnd(s: string): (r: string)
    ensures |r| <= |s| && r == s[..|r|]
    ensures forall j :: |r| <= j < |s| ==> Trimmable(s[j])
    ensures r != [] ==> !Trimmable(r[|r| - 1])
  {
    if |s| > 0 && Trimmable(s[|s| - 1]) then TrimEnd(s[..|s| - 1]) else s
  }

  /** `r` is what is left of `s` at index `k` once trimmable characters are removed before and after it. */
  predicate StrippedAt(s: string, r: string, k: int) {
    && OccursAt(s, r, k)
    && (forall j :: 0 <= j < k ==> Trimmable(s[j]))
    && (forall j :: k + |r| <= j < |s| ==> Trimmable(s[j]))
  }

  /**
   * Java `s.trim()`: the window of `s` left after removing trimmable characters
   * from both ends; it is empty exactly when `s` holds only trimmable characters.
   */
  function Trim(s: string): (r: string)
    ensures exists k :: StrippedAt(s, r, k)
    ensures r == [] <==> forall j :: 0 <= j < |s| ==> Trimmable(s[j])
    ensures r != [] ==> !Trimmable(r[0]) && !Trimmable(r[|r| - 1])
  {
    var front := TrimStart(s);
    var r := TrimEnd(front);
    TrimBothEnds(s, front, r);
    r
  }

  /** The facts about `trim` from those about its two halves. */
  lemma TrimBothEnds(s: string, front: string, r: string)
    requires |front| <= |s| && front == s[|s| - |front|..]
    requires forall j :: 0 <= j < |s| - |front| ==> Trimmable(s[j])
    requires front != [] ==> !Trimmable(front[0])
    requires |r| <= |front| && r == front[..|r|]
    requires forall j :: |r| <= j < |front| ==> Trimmable(front[j])
    requires r != [] ==> !Trimmable(r[|r| - 1])
    ensures StrippedAt(s, r, |s| - |front|)
    ensures r == [] <==> forall j :: 0 <= j < |s| ==> Trimmable(s[j])
    ensures r != [] ==> !Trimmable(r[0]) && !Trimmable(r[|r| - 1])
  {
    var k := |s| - |front|;
    assert s[k..k + |r|] == r;
    forall j | k + |r| <= j < |s|
      ensures Trimmable(s[j])
    {
      assert s[j] == front[j - k];
    }
    if r != [] {
      assert r[0] == front[0];
    }
  }

  /** The trimmed string is the only window with trimmable characters around it and none at its ends. */
  lemma TrimUnique(s: string, t: string, k: int)
    requires StrippedAt(s, t, k)
    requires t != [] ==> !Trimmable(t[0]) && !Trimmable(t[|t| - 1])
    ensures t == Trim(s)
  {
    var r := Trim(s);
    var m :| StrippedAt(s, r, m);
    StrippedUnique(s, t, k, r, m);
  }

  /** Two windows of `s` that are each `s` stripped at both ends are the same window. */
  lemma StrippedUnique(s: string, t: string, k: int, r: string, m: int)
    requires StrippedAt(s, t, k) && StrippedAt(s, r, m)
    requires t != [] ==> !Trimmable(t[0]) && !Trimmable(t[|t| - 1])
    requires r != [] ==> !Trimmable(r[0]) && !Trimmable(r[|r| - 1])
    ensures t == r
  {
    if t != [] && r != [] {
      assert s[k] == t[0] && s[k + |t| - 1] == t[|t| - 1];
      assert s[m] == r[0] && s[m + |r| - 1] == r[|r| - 1];
      assert k == m;
      assert |t| == |r|;
    }
  }
}
