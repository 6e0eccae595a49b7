/** Options and bounded C text, shared by every other module. */
module Text {

  datatype Option<+T> = None | Some(value: T) {
    function GetOr(default: T): T {
      match this
      case Some(v) => v
      case None => default
    }
  }

  /** What a copy of s into a zeroed buffer of n + 1 characters keeps. */
  function Truncated(s: string, n: nat): (r: string)
    ensures |r| <= n && r <= s
    ensures |s| <= n <==> r == s
  {
    if |s| <= n then s else s[..n]
  }

  /** A firmware version in NVS or in a static buffer has at most 31 bytes. */
  const VERSION_MAX: nat := 31

  /** nvs_get_str into a 32-byte buffer. */
  function Load(o: Option<string>): Option<string> {
    if o.Some? && |o.value| <= VERSION_MAX then o else None
  }

  /** Dropping a and k more from a + b drops k from b. */
  lemma DropAppend(a: string, b: string, k: nat)
    requires k <= |b|
    ensures (a + b)[|a| + k..] == b[k..]
  {
  }

  /** Dropping twice. */
  lemma DropDrop(s: string, i: nat, j: nat)
    requires i + j <= |s|
    ensures s[i..][j..] == s[i + j..]
  {
  }

  function Min(a: nat, b: nat): nat { if a < b then a else b }

  /** The first occurrence of marker in s at or after from that has something behind it. */
  function Find(s: string, from: nat, marker: string): Option<nat>
    decreases |s| - from
  {
    if from + |marker| >= |s| then None
    else if s[from..from + |marker|] == marker then Some(from)
    else Find(s, from + 1, marker)
  }

  /** marker stands at index i of s. */
  predicate Occurs(s: string, i: nat, marker: string) {
    i + |marker| <= |s| && s[i..i + |marker|] == marker
  }

  /** Find gives i exactly when marker is at i with something behind it, and at no place before i from from on. */
  lemma {:induction false} FindExactly(s: string, from: nat, marker: string, i: nat)
    ensures Find(s, from, marker) == Some(i) <==>
              && from <= i && i + |marker| < |s| && Occurs(s, i, marker)
              && forall j :: from <= j < i ==> !Occurs(s, j, marker)
    decreases |s| - from
  {
    if from + |marker| < |s| && !Occurs(s, from, marker) {
      FindExactly(s, from + 1, marker, i);
    }
  }

  lemma FindSkips(s: string, i: nat, marker: string)
    requires marker != [] && i + |marker| < |s| && s[i] != marker[0]
    ensures Find(s, i, marker) == Find(s, i + 1, marker)
  {
    assert s[i..i + |marker|][0] != marker[0];
  }

  /** Index of the first c in s, or |s|. */
  function IndexOf(s: string, c: char): (i: nat)
    ensures i <= |s| && c !in s[..i] && (i < |s| ==> s[i] == c)
  {
    if s == [] || s[0] == c then 0 else 1 + IndexOf(s[1..], c)
  }

  lemma {:induction false} IndexBefore(a: string, b: string, c: char)
    requires c in a
    ensures IndexOf(a + b, c) == IndexOf(a, c) < |a|
  {
    if a[0] != c {
      assert (a + b)[1..] == a[1..] + b;
      IndexBefore(a[1..], b, c);
    }
  }

  lemma {:induction false} IndexAfter(a: string, b: string, c: char)
    requires c !in a
    ensures IndexOf(a + b, c) == |a| + IndexOf(b, c)
  {
    if a == [] {
      assert a + b == b;
    } else {
      assert (a + b)[1..] == a[1..] + b;
      IndexAfter(a[1..], b, c);
    }
  }

  lemma IndexUnique(s: string, n: nat, c: char)
    requires n < |s| && s[n] == c && c !in s[..n]
    ensures IndexOf(s, c) == n
  {
    IndexAfter(s[..n], s[n..], c);
    assert s[..n] + s[n..] == s;
  }

  /** strcmp against a literal sees a buffer only up to its first zero byte. */
  function CString(s: string): string {
    s[..IndexOf(s, '\0')]
  }

  lemma {:induction false} IndexInPrefix(s: string, n: nat, c: char)
    requires n <= |s|
    ensures IndexOf(s[..n], c) == Min(IndexOf(s, c), n)
  {
    if n > 0 && s[0] != c {
      assert s[..n][1..] == s[1..][..n - 1];
      IndexInPrefix(s[1..], n - 1, c);
    }
  }

  /** Cutting a text to n characters cuts what strcmp sees of it to n characters. */
  lemma CStringCut(s: string, n: nat)
    ensures CString(Truncated(s, n)) == Truncated(CString(s), n)
  {
    if |s| > n {
      IndexInPrefix(s, n, '\0');
      var i := Min(IndexOf(s, '\0'), n);
      assert s[..n][..i] == s[..i];
    }
  }
}
