/** Console text: line breaks, unfinished lines, stripping, and the tokens that survive arbitrary chunking. */
module Text {
  import opened Sequences

  const LF_ONLY: set<char> := {'\n'}
  const CR_OR_LF: set<char> := {'\r', '\n'}

  /** The characters `str.strip` removes. */
  predicate IsSpace(c: char) {
    || '\t' <= c <= '\r' || '\U{1C}' <= c <= ' ' || c == '\U{85}' || c == '\U{A0}' || c == '\U{1680}'
    || '\U{2000}' <= c <= '\U{200A}' || c == '\U{2028}' || c == '\U{2029}' || c == '\U{202F}'
    || c == '\U{205F}' || c == '\U{3000}'
  }

  function StripLeft(s: string): string {
    if s == "" || !IsSpace(s[0]) then s else StripLeft(s[1..])
  }

  function StripRight(s: string): string {
    if s == "" || !IsSpace(s[|s| - 1]) then s else StripRight(s[..|s| - 1])
  }

  function Strip(s: string): string {
    StripLeft(StripRight(s))
  }

  /** The pieces of `s` that a break character has closed. */
  function Complete(brk: set<char>, s: string): seq<string> {
    if s == "" then []
    else
      var t := s[..|s| - 1];
      if s[|s| - 1] in brk then Complete(brk, t) + [Open(brk, t)] else Complete(brk, t)
  }

  /** The unfinished piece: what follows the last break. */
  function Open(brk: set<char>, s: string): string {
    if s == "" || s[|s| - 1] in brk then "" else Open(brk, s[..|s| - 1]) + [s[|s| - 1]]
  }

  /** Python's `s.split('\n')`. */
  function SplitLf(s: string): seq<string> {
    Complete(LF_ONLY, s) + [Open(LF_ONLY, s)]
  }

  /** The stripped pieces, blank ones dropped. */
  function Clean(pieces: seq<string>): seq<string> {
    Gather(CleanOne, pieces)
  }

  function CleanOne(piece: string): seq<string> {
    if Strip(piece) == "" then [] else [Strip(piece)]
  }

  predicate Free(brk: set<char>, s: string) {
    forall i :: 0 <= i < |s| ==> s[i] !in brk
  }

  lemma CompleteSnoc(brk: set<char>, s: string, c: char)
    ensures Complete(brk, s + [c]) == if c in brk then Complete(brk, s) + [Open(brk, s)] else Complete(brk, s)
    ensures Open(brk, s + [c]) == if c in brk then "" else Open(brk, s) + [c]
  {
    assert (s + [c])[..|s|] == s;
  }

  /** Only the unfinished piece of the past matters for the future. */
  lemma {:induction false} CompleteConcat(brk: set<char>, s: string, t: string)
    ensures Complete(brk, s + t) == Complete(brk, s) + Complete(brk, Open(brk, s) + t)
    ensures Open(brk, s + t) == Open(brk, Open(brk, s) + t)
    decreases |t|
  {
    hide Complete, Open;
    var o := Open(brk, s);
    if t == "" {
      OpenIsFree(brk, s);
      FreeIsOpen(brk, o);
      assert s + t == s && o + t == o && Complete(brk, s) + [] == Complete(brk, s);
    } else {
      var t', c := t[..|t| - 1], t[|t| - 1];
      CompleteConcat(brk, s, t');
      assert t == t' + [c];
      Assoc(s, t', [c]);
      Assoc(o, t', [c]);
      CompleteSnoc(brk, s + t', c);
      CompleteSnoc(brk, o + t', c);
      Assoc(Complete(brk, s), Complete(brk, o + t'), [Open(brk, o + t')]);
    }
  }

  lemma {:induction false} FreeIsOpen(brk: set<char>, s: string)
    requires Free(brk, s)
    ensures Complete(brk, s) == [] && Open(brk, s) == s
  {
    if s != "" {
      FreeIsOpen(brk, s[..|s| - 1]);
      assert s == s[..|s| - 1] + [s[|s| - 1]];
    }
  }

  /** The unfinished piece is the part behind the last break. */
  lemma {:induction false} OpenIsFree(brk: set<char>, s: string)
    ensures var n := |s| - |Open(brk, s)|;
            && n >= 0 && s == s[..n] + Open(brk, s)
            && Free(brk, Open(brk, s))
            && (n > 0 ==> s[n - 1] in brk)
  {
    if s != "" && s[|s| - 1] !in brk {
      var t, c := s[..|s| - 1], s[|s| - 1];
      OpenIsFree(brk, t);
      var n := |t| - |Open(brk, t)|;
      assert s == t + [c];
      Assoc(t[..n], Open(brk, t), [c]);
      assert s[..n] == t[..n];
    }
  }

  /** No break, except possibly as the very last character. */
  predicate LineBound(brk: set<char>, tok: string) {
    forall i :: 0 <= i < |tok| - 1 ==> tok[i] !in brk
  }

  /** Nothing is lost by forgetting the finished lines: a new occurrence lies in unfinished line plus chunk. */
  lemma TokenStep(brk: set<char>, s: string, c: string, tok: string)
    requires LineBound(brk, tok)
    ensures Occurs(s + c, tok) <==> Occurs(s, tok) || Occurs(Open(brk, s) + c, tok)
  {
    OpenIsFree(brk, s);
    var o := Open(brk, s);
    var n := |s| - |o|;
    Assoc(s[..n], o, c);
    if Occurs(s, tok) {
      OccursInPrefix(s, c, tok);
    }
    if Occurs(o + c, tok) {
      OccursInSuffix(s[..n], o + c, tok);
    }
    if Occurs(s + c, tok) && !Occurs(s, tok) {
      var i :| 0 <= i <= |s + c| && OccursAt(s + c, tok, i);
      if i < n {
        EarlyOccurrenceEnds(brk, s, c, tok, i, n);
        assert s[i..i + |tok|] == (s + c)[i..i + |tok|];
        assert OccursAt(s, tok, i);
      }
      OccursAtShift(s[..n], o + c, [], tok, i - n);
      assert s[..n] + (o + c) + [] == s + c;
    }
  }

  /** An occurrence that starts in front of a break ends there at the latest. */
  lemma EarlyOccurrenceEnds(brk: set<char>, s: string, c: string, tok: string, i: int, n: int)
    requires LineBound(brk, tok) && OccursAt(s + c, tok, i)
    requires i < n <= |s| && s[n - 1] in brk
    ensures i + |tok| <= n
  {
    OccursAtByElement(s + c, tok, i);
    var j := n - 1 - i;
    assert j < |tok| ==> tok[j] == (s + c)[i + j];
  }

  /** A search that remembers only the unfinished line does not miss `tok` when `c` follows `s`. */
  predicate Retained(brk: set<char>, s: string, c: string, tok: string) {
    Occurs(s + c, tok) ==> Occurs(s, tok) || Occurs(Open(brk, s) + c, tok)
  }

  /** The exact class of tokens for which forgetting finished lines is harmless. */
  lemma LineBoundIsExact(brk: set<char>, tok: string)
    ensures LineBound(brk, tok) <==> forall s: string, c: string :: Retained(brk, s, c, tok)
  {
    if LineBound(brk, tok) {
      forall s: string, c: string ensures Retained(brk, s, c, tok) {
        TokenStep(brk, s, c, tok);
      }
    } else {
      var j :| 0 <= j < |tok| - 1 && tok[j] in brk;
      var s, c := tok[..j + 1], tok[j + 1..];
      assert s + c == tok && OccursAt(s + c, tok, 0);
      assert Open(brk, s) == "" && "" + c == c;
      assert !Occurs(s, tok) && !Occurs(c, tok);
      assert !Retained(brk, s, c, tok);
    }
  }

  function DropCr(s: string): string {
    if s != "" && s[|s| - 1] == '\r' then s[..|s| - 1] else s
  }

  /** `replace('\r\n', '\n')`. The pattern cannot overlap itself, so the scan direction does not matter. */
  function CrLfToLf(s: string): string
    decreases |s|
  {
    if s == "" then ""
    else if s[|s| - 1] == '\n' then CrLfToLf(DropCr(s[..|s| - 1])) + ['\n']
    else CrLfToLf(s[..|s| - 1]) + [s[|s| - 1]]
  }

  /** `replace('\r', '\n')`. */
  function CrToLf(s: string): string {
    if s == "" then "" else CrToLf(s[..|s| - 1]) + [if s[|s| - 1] == '\r' then '\n' else s[|s| - 1]]
  }

  lemma CrToLfSnoc(s: string, c: char)
    ensures CrToLf(s + [c]) == CrToLf(s) + [if c == '\r' then '\n' else c]
  {
    assert (s + [c])[..|s|] == s;
  }

  /** The pieces that are not the empty string. */
  function NonEmpty(pieces: seq<string>): seq<string> {
    Gather(NonEmptyOne, pieces)
  }

  function NonEmptyOne(piece: string): seq<string> {
    if piece == "" then [] else [piece]
  }

  lemma {:induction false} CleanNonEmpty(pieces: seq<string>)
    ensures Clean(NonEmpty(pieces)) == Clean(pieces)
  {
    if pieces != [] {
      var init, p := pieces[..|pieces| - 1], pieces[|pieces| - 1];
      CleanNonEmpty(init);
      if p == "" {
        assert CleanOne(p) == [] && Clean(init) + [] == Clean(init);
        assert NonEmpty(init) + [] == NonEmpty(init);
      } else {
        GatherSnoc(CleanOne, NonEmpty(init), p);
      }
    }
  }

  /** `m` split at LF and `t` split at CR or LF show the same non-empty pieces and the same unfinished one. */
  predicate SameLines(m: string, t: string) {
    && NonEmpty(Complete(LF_ONLY, m)) == NonEmpty(Complete(CR_OR_LF, t))
    && Open(LF_ONLY, m) == Open(CR_OR_LF, t)
  }

  lemma SameLinesSnoc(m: string, t: string, c: char)
    requires SameLines(m, t)
    ensures SameLines(m + [if c == '\r' then '\n' else c], t + [c])
  {
    CompleteSnoc(LF_ONLY, m, if c == '\r' then '\n' else c);
    CompleteSnoc(CR_OR_LF, t, c);
    GatherSnoc(NonEmptyOne, Complete(LF_ONLY, m), Open(LF_ONLY, m));
    GatherSnoc(NonEmptyOne, Complete(CR_OR_LF, t), Open(CR_OR_LF, t));
  }

  /** The LF behind a CR closes an empty piece, which is dropped. */
  lemma SameLinesAfterCr(m: string, t: string)
    requires SameLines(m, t + ['\r'])
    ensures SameLines(m, t + ['\r'] + ['\n'])
  {
    var u := t + ['\r'];
    CompleteSnoc(CR_OR_LF, t, '\r');
    CompleteSnoc(CR_OR_LF, u, '\n');
    GatherSnoc(NonEmptyOne, Complete(CR_OR_LF, u), "");
    assert NonEmpty(Complete(CR_OR_LF, u)) + [] == NonEmpty(Complete(CR_OR_LF, u));
  }

  /** What one more character adds to the normalised text: an LF right behind a CR adds nothing. */
  function NormaliseChar(t: string, c: char): string {
    if c == '\r' then "\n" else if c == '\n' && t != "" && t[|t| - 1] == '\r' then "" else [c]
  }

  /** Both replacements at once. */
  function Normalise(s: string): string {
    if s == "" then "" else Normalise(s[..|s| - 1]) + NormaliseChar(s[..|s| - 1], s[|s| - 1])
  }

  lemma NormaliseSnoc(t: string, c: char)
    ensures Normalise(t + [c]) == Normalise(t) + NormaliseChar(t, c)
  {
    assert (t + [c])[..|t|] == t;
  }

  lemma NormaliseLf(t: string)
    ensures Normalise(t + ['\n']) == Normalise(DropCr(t)) + ['\n']
  {
    NormaliseSnoc(t, '\n');
    if DropCr(t) != t {
      assert t == DropCr(t) + ['\r'];
      NormaliseSnoc(DropCr(t), '\r');
      assert Normalise(t) + "" == Normalise(t);
    }
  }

  lemma {:induction false} NormaliseIsReplace(s: string)
    ensures Normalise(s) == CrToLf(CrLfToLf(s))
    decreases |s|
  {
    if s != "" {
      var t, c := s[..|s| - 1], s[|s| - 1];
      assert s == t + [c];
      if c == '\n' {
        NormaliseIsReplace(DropCr(t));
        NormaliseLf(t);
        CrToLfSnoc(CrLfToLf(DropCr(t)), '\n');
      } else {
        NormaliseIsReplace(t);
        NormaliseSnoc(t, c);
        CrToLfSnoc(CrLfToLf(t), c);
      }
    }
  }

  lemma SameLinesStep(m: string, t: string, c: char)
    requires SameLines(m, t)
    ensures SameLines(m + NormaliseChar(t, c), t + [c])
  {
    if c == '\n' && t != "" && t[|t| - 1] == '\r' {
      var t' := t[..|t| - 1];
      assert t == t' + ['\r'] && m + "" == m;
      SameLinesAfterCr(m, t');
    } else {
      SameLinesSnoc(m, t, c);
    }
  }

  /** Normalising first and splitting at LF gives the non-empty pieces of splitting at every CR or LF. */
  lemma {:induction false} NormalisedPieces(s: string)
    ensures SameLines(Normalise(s), s)
    decreases |s|
  {
    if s != "" {
      var t, c := s[..|s| - 1], s[|s| - 1];
      NormalisedPieces(t);
      SameLinesStep(Normalise(t), t, c);
      assert s == t + [c];
    }
  }

  lemma NormalisedLines(s: string)
    ensures Clean(Complete(LF_ONLY, Normalise(s))) == Clean(Complete(CR_OR_LF, s))
    ensures Open(LF_ONLY, Normalise(s)) == Open(CR_OR_LF, s)
  {
    NormalisedPieces(s);
    CleanNonEmpty(Complete(LF_ONLY, Normalise(s)));
    CleanNonEmpty(Complete(CR_OR_LF, s));
  }

  /** The first break closes the first piece. */
  lemma SplitFirst(a: string, b: string)
    requires Free(LF_ONLY, a)
    ensures Complete(LF_ONLY, a + "\n" + b) == [a] + Complete(LF_ONLY, b)
    ensures Open(LF_ONLY, a + "\n" + b) == Open(LF_ONLY, b)
  {
    FreeIsOpen(LF_ONLY, a);
    CompleteSnoc(LF_ONLY, a, '\n');
    CompleteConcat(LF_ONLY, a + ['\n'], b);
    assert "" + b == b && [] + [a] == [a];
  }

  /** `s.split('\n', 1)` or `'\n' in s`: the index of the first LF, or the length of `s`. */
  method FirstLf(s: string) returns (i: nat)
    ensures i <= |s| && Free(LF_ONLY, s[..i])
    ensures i < |s| ==> s[i] == '\n'
  {
    i := 0;
    while i < |s| && s[i] != '\n'
      invariant i <= |s| && Free(LF_ONLY, s[..i])
    {
      i := i + 1;
    }
  }
}
