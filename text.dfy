/** Searching strings for a separator character. */
module Text {

  /** The position of the first `c` in `s`, or `|s|` when there is none (Java's indexOf, with -1 read as `|s|`). */
  function IndexOf(s: string, c: char): (i: nat)
    ensures i <= |s|
    ensures i < |s| ==> s[i] == c
  {
    if s == [] then 0
    else if s[0] == c then 0
    else 1 + IndexOf(s[1..], c)
  }

  /** A separator right after a stretch free of it is the first one. */
  lemma {:induction false} IndexOfAfterPrefix(p: string, s: string, c: char)
    requires c !in p && |s| > 0 && s[0] == c
    ensures IndexOf(p + s, c) == |p|
    decreases |p|
  {
    if p != [] {
      assert p == [p[0]] + p[1..];
      assert (p + s)[1..] == p[1..] + s;
      IndexOfAfterPrefix(p[1..], s, c);
    }
  }

  lemma NotFound(s: string, c: char)
    requires c !in s
    ensures IndexOf(s, c) == |s|
  {
  }

  /** No `c` occurs before the position IndexOf reports. */
  lemma {:induction false} IndexOfIsFirst(s: string, c: char)
    ensures forall j :: 0 <= j < IndexOf(s, c) ==> s[j] != c
    decreases |s|
  {
    if s != [] && s[0] != c {
      IndexOfIsFirst(s[1..], c);
      forall j | 0 <= j < IndexOf(s, c) ensures s[j] != c {
        if j > 0 {
          assert s[j] == s[1..][j - 1];
        }
      }
    }
  }

  /** Splitting a string at any position and joining the halves gives it back. */
  lemma SplitJoin(s: string, k: nat)
    requires k <= |s|
    ensures s[..k] + s[k..] == s
  {
  }

  /** The two sides of a one-character separator can be sliced back out. */
  lemma AroundSeparator(a: string, c: char, b: string)
    ensures (a + ([c] + b))[..|a|] == a
    ensures (a + ([c] + b))[|a| + 1..] == b
  {
  }

  /** A three-character head followed by a space and a tail is recovered by slicing. */
  lemma HeadBeforeSpace(head: string, tail: string)
    requires |head| == 3
    ensures |head + " " + tail| == 4 + |tail| && (head + " " + tail)[3] == ' '
    ensures (head + " " + tail)[..3] == head
  {
  }
}
