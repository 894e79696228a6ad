/** Heredoc openers part by part, and which sources leave one behind when their literals are blanked. */
module PhpHeredocs {
  import opened Lexis
  import opened PhpStripper

  // ------------------------------------------------- heredoc openers, part by part

  predicate IsBlank(c: char) {
    c == ' ' || c == '\t'
  }

  predicate IsQuote(c: char) {
    c == '\'' || c == '"'
  }

  /** The parts of an opener at i: blanks up to q, an optional quote, the tag between from and to, the
      same quote, and blanks up to the line break at eol. */
  predicate Opens(a: string, i: nat, q: nat, from: nat, to: nat, eol: nat) {
    && i + 3 <= q <= from < to <= eol < |a| && a[i] == a[i + 1] == a[i + 2] == '<'
    && (forall k :: i + 3 <= k < q ==> IsBlank(a[k])) && !IsBlank(a[q])
    && from == (if IsQuote(a[q]) then q + 1 else q)
    && IdentStart(a[from]) && (forall k :: from <= k < to ==> IdentPart(a[k])) && !IdentPart(a[to])
    && (IsQuote(a[q]) ==> a[to] == a[q])
    && (forall k :: (if IsQuote(a[q]) then to + 1 else to) <= k < eol ==> IsBlank(a[k]))
    && a[eol] == '\n'
  }

  lemma {:induction false} BlanksEndIs(a: string, i: nat, q: nat)
    requires i <= q <= |a| && (forall k :: i <= k < q ==> IsBlank(a[k])) && (q < |a| ==> !IsBlank(a[q]))
    ensures BlanksEnd(a, i) == q
    decreases q - i
  {
    if i < q { BlanksEndIs(a, i + 1, q); }
  }

  lemma {:induction false} BlanksEndMeans(a: string, i: nat)
    requires i <= |a|
    ensures var q := BlanksEnd(a, i);
            && i <= q <= |a| && (forall k :: i <= k < q ==> IsBlank(a[k])) && (q < |a| ==> !IsBlank(a[q]))
    decreases |a| - i
  {
    if i < |a| && IsBlank(a[i]) { BlanksEndMeans(a, i + 1); }
  }

  lemma {:induction false} IdentEndIs(a: string, i: nat, q: nat)
    requires i <= q <= |a| && (forall k :: i <= k < q ==> IdentPart(a[k])) && (q < |a| ==> !IdentPart(a[q]))
    ensures IdentEnd(a, i) == q
    decreases q - i
  {
    if i < q { IdentEndIs(a, i + 1, q); }
  }

  lemma {:induction false} IdentEndMeans(a: string, i: nat)
    requires i <= |a|
    ensures var q := IdentEnd(a, i);
            && i <= q <= |a| && (forall k :: i <= k < q ==> IdentPart(a[k])) && (q < |a| ==> !IdentPart(a[q]))
    decreases |a| - i
  {
    if i < |a| && IdentPart(a[i]) { IdentEndMeans(a, i + 1); }
  }

  lemma ThreeAt(a: string, i: nat)
    ensures At(a, i, "<<<") <==> i + 3 <= |a| && a[i] == a[i + 1] == a[i + 2] == '<'
  {
    if i + 3 <= |a| {
      assert a[i..i + 3] == [a[i], a[i + 1], a[i + 2]];
    }
  }

  lemma OpenerHasParts(a: string, i: nat) returns (q: nat, from: nat, to: nat, eol: nat)
    requires HeredocOpener(a, i).Opener?
    ensures Opens(a, i, q, from, to, eol) && HeredocOpener(a, i).body == eol + 1
    ensures i + 3 <= eol < |a| && a[i] == '<'
  {
    hide BlanksEnd, IdentEnd, At;
    ThreeAt(a, i);
    q := BlanksEnd(a, i + 3);
    BlanksEndMeans(a, i + 3);
    var quoted := q < |a| && IsQuote(a[q]);
    from := if quoted then q + 1 else q;
    to := IdentEnd(a, from);
    IdentEndMeans(a, from);
    eol := BlanksEnd(a, if quoted then to + 1 else to);
    BlanksEndMeans(a, if quoted then to + 1 else to);
  }

  lemma PartsOpen(a: string, i: nat, q: nat, from: nat, to: nat, eol: nat)
    requires Opens(a, i, q, from, to, eol)
    ensures HeredocOpener(a, i).Opener? && HeredocOpener(a, i).body == eol + 1
    ensures HeredocOpener(a, i).tag == a[from..to]
  {
    hide BlanksEnd, IdentEnd, At;
    ThreeAt(a, i);
    BlanksEndIs(a, i + 3, q);
    IdentEndIs(a, from, to);
    BlanksEndIs(a, if IsQuote(a[q]) then to + 1 else to, eol);
  }

  /** Whether a heredoc opens depends on nothing but the opener itself. */
  lemma OpenerIsLocal(a: string, i: nat, b: string, j: nat)
    requires HeredocOpener(a, i).Opener?
    requires var n := HeredocOpener(a, i).body - i; j + n <= |b| && b[j..j + n] == a[i..i + n]
    ensures HeredocOpener(b, j).Opener? && HeredocOpener(b, j).body - j == HeredocOpener(a, i).body - i
  {
    hide HeredocOpener, IdentStart, IdentPart;
    var q, from, to, eol := OpenerHasParts(a, i);
    var n, d: int := eol + 1 - i, j - i;
    forall k | i <= k <= eol ensures b[k + d] == a[k] {
      assert b[j..j + n][k - i] == a[i..i + n][k - i];
    }
    ShiftParts(a, i, b, q, from, to, eol, d);
    PartsOpen(b, j, q + d, from + d, to + d, eol + d);
  }

  lemma ShiftParts(a: string, i: nat, b: string, q: nat, from: nat, to: nat, eol: nat, d: int)
    requires Opens(a, i, q, from, to, eol) && i + d >= 0 && eol + d < |b|
    requires forall k :: i <= k <= eol ==> b[k + d] == a[k]
    ensures Opens(b, i + d, q + d, from + d, to + d, eol + d)
  {
    hide IdentStart, IdentPart;
    forall k | i + d <= k <= eol + d ensures b[k] == a[k - d] {
      assert b[(k - d) + d] == a[k - d];
    }
  }

  lemma OpenerIsLiteral(t: CharTables, src: string, k: nat)
    requires k < |src| && HeredocOpener(src, k).Opener? && src[k] == '<'
    ensures LiteralEnd(t, src, k) > k
  {
    hide HeredocOpener, HeredocEnd;
    OneAt(src, k, '#');
    TwoAt(src, k, "//");
    TwoAt(src, k, "/*");
  }

  // ------------------------------------------------- what stripping reads as code

  /** The scan, now at i, comes by k outside of comments, strings and heredocs. */
  predicate IsCode(t: CharTables, src: string, i: nat, k: nat): (code: bool)
    ensures code ==> i <= k < |src| && LiteralEnd(t, src, k) == k
    decreases |src| - i
  {
    if i > k || i >= |src| then false
    else
      var j := LiteralEnd(t, src, i);
      if j > i then IsCode(t, src, j, k) else i == k || IsCode(t, src, i + 1, k)
  }

  lemma {:induction false} StripFromReads(t: CharTables, src: string, i: nat, out: string, k: nat)
    requires |out| == i <= k < |src|
    ensures var code := StripFrom(t, src, i, out);
            k < |code| && code[k] == if IsCode(t, src, i, k) then src[k] else Blank(src[k])
    decreases |src| - i
  {
    hide LiteralEnd, StripFrom;
    StripFromStep(t, src, i, out);
    var j := LiteralEnd(t, src, i);
    if j > i {
      var more := out + Blanks(src, i, j);
      if k < j {
        StripFromExtends(t, src, j, more);
        assert more[k] == Blanks(src, i, j)[k - i];
        assert !IsCode(t, src, j, k);
      } else {
        StripFromReads(t, src, j, more, k);
      }
    } else if k > i {
      StripFromReads(t, src, i + 1, out + [src[i]], k);
    } else {
      StripFromExtends(t, src, i + 1, out + [src[i]]);
      assert (out + [src[i]])[k] == src[i];
    }
  }

  /** Code is kept, everything else is blanked. */
  lemma OutputReads(t: CharTables, src: string, k: nat)
    requires k < |src|
    ensures var code := Strip(t, src);
            k < |code| && code[k] == if IsCode(t, src, 0, k) then src[k] else Blank(src[k])
  {
    StripFromReads(t, src, 0, "", k);
  }

  // ------------------------------------------------- openers that blanking leaves behind

  predicate CodeIs(t: CharTables, src: string, k: nat, c: char) {
    IsCode(t, src, 0, k) && src[k] == c
  }

  /** A blank, or any part of a literal that is not a line break. */
  predicate BlankOrLiteral(t: CharTables, src: string, k: nat)
    requires k < |src|
  {
    if IsCode(t, src, 0, k) then IsBlank(src[k]) else src[k] != '\n'
  }

  predicate CodeInTag(t: CharTables, src: string, k: nat) {
    IsCode(t, src, 0, k) && IdentPart(src[k])
  }

  /** The source holds `<<<` and a tag as code, with only blanks and literals before the tag, and only
      blanks and literals between the tag and the end of its line. */
  predicate LeavesOpener(t: CharTables, src: string, i: nat, from: nat, to: nat, eol: nat) {
    && i + 3 <= from < to <= eol < |src|
    && CodeIs(t, src, i, '<') && CodeIs(t, src, i + 1, '<') && CodeIs(t, src, i + 2, '<')
    && (forall k :: i + 3 <= k < from ==> BlankOrLiteral(t, src, k))
    && IdentStart(src[from]) && (forall k :: from <= k < to ==> CodeInTag(t, src, k)) && !CodeInTag(t, src, to)
    && (forall k :: to <= k < eol ==> BlankOrLiteral(t, src, k))
    && src[eol] == '\n'
  }

  lemma PartReads(t: CharTables, src: string, k: nat)
    requires k < |src|
    ensures var code := Strip(t, src);
            && k < |code| && (IsBlank(code[k]) <==> BlankOrLiteral(t, src, k))
            && (IdentPart(code[k]) <==> CodeInTag(t, src, k)) && (code[k] == '<' <==> CodeIs(t, src, k, '<'))
            && (CodeInTag(t, src, k) ==> code[k] == src[k]) && (code[k] == '\n' <==> src[k] == '\n')
  {
    hide Strip, IsCode;
    OutputReads(t, src, k);
  }

  lemma StartsTag(c: char)
    requires IdentStart(c)
    ensures IdentPart(c) && !IsBlank(c) && !IsQuote(c)
  {
  }

  lemma LeftOpenerOpens(t: CharTables, src: string, i: nat, from: nat, to: nat, eol: nat)
    requires LeavesOpener(t, src, i, from, to, eol)
    ensures Opens(Strip(t, src), i, from, from, to, eol)
  {
    hide Strip, CodeIs, BlankOrLiteral, CodeInTag, IsBlank, IsQuote, IdentStart, IdentPart;
    PartReads(t, src, i);
    PartReads(t, src, i + 1);
    PartReads(t, src, i + 2);
    forall k | i + 3 <= k < from ensures k < |Strip(t, src)| && IsBlank(Strip(t, src)[k]) {
      PartReads(t, src, k);
    }
    forall k | from <= k < to ensures k < |Strip(t, src)| && IdentPart(Strip(t, src)[k]) {
      PartReads(t, src, k);
    }
    forall k | to <= k < eol ensures k < |Strip(t, src)| && IsBlank(Strip(t, src)[k]) {
      PartReads(t, src, k);
    }
    PartReads(t, src, from);
    PartReads(t, src, to);
    PartReads(t, src, eol);
    StartsTag(src[from]);
  }

  lemma OpenerWasLeft(t: CharTables, src: string, i: nat, q: nat, from: nat, to: nat, eol: nat)
    requires Sane(t) && Opens(Strip(t, src), i, q, from, to, eol)
    ensures LeavesOpener(t, src, i, from, to, eol)
  {
    hide Strip, CodeIs, BlankOrLiteral, CodeInTag, IsBlank, IdentStart, IdentPart, StartsLineComment, HeredocOpener;
    OnlyHeredocsOpenInTheOutput(t, src, q);
    EndsInSource(t, src, eol);
    PartReads(t, src, i);
    PartReads(t, src, i + 1);
    PartReads(t, src, i + 2);
    forall k | i + 3 <= k < from ensures BlankOrLiteral(t, src, k) {
      PartReads(t, src, k);
    }
    forall k | from <= k < to ensures CodeInTag(t, src, k) {
      PartReads(t, src, k);
    }
    forall k | to <= k < eol ensures BlankOrLiteral(t, src, k) {
      PartReads(t, src, k);
    }
    PartReads(t, src, from);
    PartReads(t, src, to);
    PartReads(t, src, eol);
  }

  lemma EndsInSource(t: CharTables, src: string, k: nat)
    requires Sane(t) && k < |Strip(t, src)| && Strip(t, src)[k] == '\n'
    ensures k < |src|
  {
    hide Strip;
    StripOnlyBlanks(t, src);
  }

  /** Stripping twice is stripping once exactly when no heredoc's `<<<` and tag stand in the code with
      nothing but blanks and literals around the tag on its line. */
  lemma StripIsIdempotentExactly(t: CharTables, src: string)
    requires Sane(t)
    ensures Strip(t, Strip(t, src)) == Strip(t, src) <==>
            forall i, from, to, eol :: !LeavesOpener(t, src, i, from, to, eol)
  {
    hide Strip, HeredocOpener, LeavesOpener, Opens;
    var code := Strip(t, src);
    StripIsIdempotentExactlyWithoutHeredocs(t, src);
    if i: nat :| i < |code| && HeredocOpener(code, i).Opener? {
      var q, from, to, eol := OpenerHasParts(code, i);
      OpenerWasLeft(t, src, i, q, from, to, eol);
    }
    if i: nat, from: nat, to: nat, eol: nat :| LeavesOpener(t, src, i, from, to, eol) {
      LeftOpenerOpens(t, src, i, from, to, eol);
      PartsOpen(code, i, from, from, to, eol);
      OpenerIsInside(code, i, from, from, to, eol);
    }
  }

  lemma OpenerIsInside(a: string, i: nat, q: nat, from: nat, to: nat, eol: nat)
    requires Opens(a, i, q, from, to, eol)
    ensures i < |a|
  {
  }
}
