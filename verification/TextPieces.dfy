/** Texts put together from pieces: what stands where, what is blanked, what is mentioned. */
module TextPieces {
  import opened Lexis

  /** Blanks that keep line breaks. */
  function Blanking(text: string): (s: string)
    ensures |s| == |text| && forall k :: 0 <= k < |s| ==> s[k] == Blank(text[k])
  {
    seq(|text|, k requires 0 <= k < |text| => Blank(text[k]))
  }

  /** A block comment closes at its end and no earlier; of the opener only the slash is out of reach. */
  predicate InBlock(text: string) {
    (text != "" ==> text[0] == '*') && ClosesNowhere(text)
  }

  predicate ClosesNowhere(text: string) {
    forall k :: 0 <= k < |text| && text[k] == '*' ==> (text + "*/")[k + 1] != '/'
  }

  lemma ClosesNowhereBehind(text: string)
    requires ClosesNowhere(text) && text != ""
    ensures ClosesNowhere(text[1..]) && !(text[0] == '*' && (text + "*/")[1] == '/')
  {
    forall k | 0 <= k < |text[1..]| && text[1..][k] == '*' ensures (text[1..] + "*/")[k + 1] != '/' {
      assert (text + "*/")[k + 2] == (text[1..] + "*/")[k + 1];
    }
  }

  /** The text stands at i. */
  ghost predicate Stands(src: string, i: nat, text: string) {
    i + |text| <= |src| && forall k :: 0 <= k < |text| ==> src[i + k] == text[k]
  }

  /** The source at i begins as `next` does. */
  predicate Begins(src: string, i: nat, next: string) {
    if i >= |src| then next == "" else next != "" && next[0] == src[i]
  }

  lemma StandsConcat(src: string, i: nat, a: string, b: string)
    ensures Stands(src, i, a + b) <==> Stands(src, i, a) && Stands(src, i + |a|, b)
  {
    if Stands(src, i, a + b) {
      forall k | 0 <= k < |a| ensures src[i + k] == a[k] { assert (a + b)[k] == a[k]; }
      forall k | 0 <= k < |b| ensures src[i + |a| + k] == b[k] { assert (a + b)[|a| + k] == b[k]; }
    } else if Stands(src, i, a) && Stands(src, i + |a|, b) {
      forall k | 0 <= k < |a + b| ensures src[i + k] == (a + b)[k] {
        if k >= |a| { assert src[i + |a| + (k - |a|)] == b[k - |a|]; }
      }
    }
  }

  lemma NextConcat(src: string, i: nat, a: string, next: string)
    requires Stands(src, i, a) && Begins(src, i + |a|, next)
    ensures Begins(src, i, a + next)
  {
  }

  /** The first character, and the rest behind it. */
  lemma StandsHead(src: string, i: nat, text: string)
    requires Stands(src, i, text) && text != ""
    ensures i < |src| && src[i] == text[0] && Stands(src, i + 1, text[1..])
  {
    assert forall k :: 0 <= k < |text[1..]| ==> src[i + 1 + k] == text[1..][k];
  }

  lemma StandsBehind(src: string, i: nat, text: string, n: nat)
    requires Stands(src, i, text) && n <= |text|
    ensures i + n <= i + |text| <= |src| && Stands(src, i + n, text[n..])
  {
    forall k | 0 <= k < |text[n..]| ensures src[i + n + k] == text[n..][k] {
      assert src[i + (n + k)] == text[n + k];
    }
  }

  lemma StandsBegins(src: string, i: nat, text: string)
    requires Stands(src, i, text) && text != ""
    ensures Begins(src, i, text)
  {
    assert src[i + 0] == text[0];
  }

  lemma SplitAt<T>(s: seq<T>, k: nat)
    requires k < |s|
    ensures s == s[..k] + ([s[k]] + s[k + 1..])
  {
  }

  lemma CutAt<T>(s: seq<T>, i: nat, j: nat)
    requires i <= j <= |s|
    ensures s == s[..i] + (s[i..j] + s[j..]) && (i == 0 ==> s[..i] == []) && (j == |s| ==> s[j..] == [])
  {
  }

  lemma Regroup(a: string, b: string, c: string)
    ensures a + b + c == a + (b + c) && a + "" == a && "" + a == a
  {
  }

  lemma MentionsInside(t: CharTables, x: string, a: string, y: string, sym: string)
    requires Mentions(t, a, sym)
    requires (x != "" ==> !IsWord(t, x[|x| - 1])) && (y != "" ==> !IsWord(t, y[0]))
    ensures Mentions(t, x + a + y, sym)
  {
    hide IsWord, Boundary;
    var p: nat :| HitAt(t, a, sym, p);
    BoundaryInside(t, x, a, y, p);
    BoundaryInside(t, x, a, y, p + |sym|);
    PartInside(x, a, y, p, |sym|);
    assert HitAt(t, x + a + y, sym, |x| + p);
  }

  lemma PartInside(x: string, a: string, y: string, p: nat, n: nat)
    requires p + n <= |a|
    ensures |x| + p + n <= |x + a + y| && (x + a + y)[|x| + p..|x| + p + n] == a[p..p + n]
  {
  }

  lemma BoundaryInside(t: CharTables, x: string, a: string, y: string, k: nat)
    requires k <= |a| && Boundary(t, a, k)
    requires (x != "" ==> !IsWord(t, x[|x| - 1])) && (y != "" ==> !IsWord(t, y[0]))
    ensures Boundary(t, x + a + y, |x| + k)
  {
    hide IsWord;
  }
}
