/**
  Where each scanning loop of the lexer stops. Every loop walks the cursor one
  character at a time; these lemmas pin down the index it stops on (the first
  character of the kind it looks for) and what it does when it runs out of input.
 */
module Scanning {
  import opened Options
  import opened Tokens
  import opened Lexer

  /** `f` is the first significant character at or after `pos`. */
  predicate SignificantAt(src: string, pos: nat, f: nat) {
    && pos <= f < |src|
    && (forall i :: pos <= i < f ==> IsWhitespace(src[i]))
    && !IsWhitespace(src[f])
  }

  lemma {:induction false} SkipWhitespaceStopsAt(src: string, pos: nat, f: nat)
    requires SignificantAt(src, pos, f)
    ensures SkipWhitespace(src, pos) == Scanned(Some(src[f]), f + 1)
    decreases f - pos
  {
    if pos < f {
      SkipWhitespaceStopsAt(src, pos + 1, f);
    }
  }

  lemma {:induction false} SkipWhitespaceSkipsOnlyWhitespace(src: string, pos: nat)
    ensures forall i :: pos <= i < SkipWhitespace(src, pos).pos - 1 ==> i < |src| && IsWhitespace(src[i])
    decreases |src| - pos
  {
    if pos < |src| && IsWhitespace(src[pos]) {
      var r := SkipWhitespace(src, pos + 1);
      assert SkipWhitespace(src, pos) == r;
      SkipWhitespaceSkipsOnlyWhitespace(src, pos + 1);
      assert forall i :: pos + 1 <= i < r.pos - 1 ==> i < |src| && IsWhitespace(src[i]);
    } else {
      assert SkipWhitespace(src, pos).pos == pos + 1;
    }
  }

  lemma {:induction false} SkipWhitespaceRunsOut(src: string, pos: nat)
    requires forall i :: pos <= i < |src| ==> IsWhitespace(src[i])
    ensures SkipWhitespace(src, pos).value.None?
    decreases |src| - pos
  {
    if pos < |src| {
      SkipWhitespaceRunsOut(src, pos + 1);
    }
  }

  /** From a cursor at or before a significant character, `get_filtered_chars`
      returns that character and its unfiltered-whitespace successor, and leaves
      the cursor just past it. */
  lemma FilteredCharsAt(src: string, pos: nat, f: nat)
    requires SignificantAt(src, pos, f)
    ensures GetFilteredChars(src, pos) == Scanned(Chars(Some(src[f]), NonBlankAt(src, f + 1)), f + 1)
  {
    SkipWhitespaceStopsAt(src, pos, f);
  }

  lemma {:induction false} SuffixScanStopsAt(src: string, pos: nat, q: nat)
    requires pos <= q < |src| && IsSuffix(src[q])
    requires forall k :: pos <= k < q ==> !IsSuffix(src[k])
    ensures SuffixScan(src, pos) == Scanned(Some(src[q]), q + 1)
    decreases q - pos
  {
    if pos < q {
      SuffixScanStopsAt(src, pos + 1, q);
    }
  }

  /** `process_numeric_literal` for a literal starting at index `f` (the cursor is
      just past it) and ending at the first suffix `q`: the value text is everything
      in between. */
  lemma NumericLiteralStopsAt(src: string, f: nat, q: nat)
    requires f < q < |src| && IsSuffix(src[q])
    requires forall k :: f < k < q ==> !IsSuffix(src[k])
    ensures NumericLiteral(src, f + 1) == Scanned(NumericValue(src[f..q], src[q]), q + 1)
  {
    SuffixScanStopsAt(src, f + 1, q);
    var scanned := SuffixScan(src, f + 1);
    assert scanned.value == Some(src[q]) && scanned.pos - 1 == q;
    assert src[(f + 1) - 1..scanned.pos - 1] == src[f..q];
    assert src[scanned.pos - 1] == src[q];
  }

  lemma {:induction false} SuffixScanRunsOut(src: string, pos: nat)
    requires forall k :: pos <= k < |src| ==> !IsSuffix(src[k])
    ensures SuffixScan(src, pos).value.None?
    decreases |src| - pos
  {
    if pos < |src| {
      SuffixScanRunsOut(src, pos + 1);
    }
  }

  lemma {:induction false} StringScanStopsAt(src: string, start: nat, pos: nat, q: nat)
    requires start <= pos <= q < |src| && src[q] == '"'
    requires forall k :: pos <= k < q ==> src[k] != '"'
    ensures StringScan(src, start, pos) == Scanned(Some(LITERAL(STRING(src[start..q]))), q + 1)
    decreases q - pos
  {
    if pos < q {
      StringScanStopsAt(src, start, pos + 1, q);
    }
  }

  lemma {:induction false} StringScanRunsOut(src: string, start: nat, pos: nat)
    requires start <= pos
    requires forall k :: pos <= k < |src| ==> src[k] != '"'
    ensures StringScan(src, start, pos).value.None?
    decreases |src| - pos
  {
    if pos < |src| {
      StringScanRunsOut(src, start, pos + 1);
    }
  }

  /** One turn of the identifier loop: stop on a terminator, otherwise move on. */
  lemma IdentifierScanStep(src: string, start: nat, pos: nat)
    requires 1 <= start <= pos < |src|
    ensures IdentifierScan(src, start, pos) ==
      if IsTerminator(src, pos) then Scanned(Some(Trim(src[start - 1..pos])), pos)
      else IdentifierScan(src, start, pos + 1)
  {
    LookaheadResolves(src[pos], CharAt(src, pos + 1), pos + 1);
  }

  lemma {:induction false} IdentifierScanStopsAt(src: string, start: nat, pos: nat, k: nat)
    requires 1 <= start <= pos <= k < |src| && IsTerminator(src, k)
    requires forall j :: pos <= j < k ==> !IsTerminator(src, j)
    ensures IdentifierScan(src, start, pos) == Scanned(Some(Trim(src[start - 1..k])), k)
    decreases k - pos
  {
    IdentifierScanStep(src, start, pos);
    if pos < k {
      assert !IsTerminator(src, pos);
      IdentifierScanStopsAt(src, start, pos + 1, k);
    }
  }

  lemma {:induction false} IdentifierScanRunsOut(src: string, start: nat, pos: nat)
    requires 1 <= start <= pos
    requires forall j :: pos <= j < |src| ==> !IsTerminator(src, j)
    ensures IdentifierScan(src, start, pos).value.None?
    decreases |src| - pos
  {
    if pos < |src| {
      IdentifierScanStep(src, start, pos);
      IdentifierScanRunsOut(src, start, pos + 1);
    }
  }

  /** Trimming leaves a word alone when neither end is trimmable; the scanner's own
      whitespace never is part of a word, so only a vertical tab or a form feed at
      either end of the span can be trimmed away. */
  lemma TrimKeepsUntrimmedEnds(s: string)
    requires |s| > 0 ==> !IsTrimmable(s[0]) && !IsTrimmable(s[|s| - 1])
    ensures Trim(s) == s
  {
  }
}
