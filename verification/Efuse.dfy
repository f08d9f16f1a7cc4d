/** `NvmemEfuseValidator`: read-check-write-readback over one-time-programmable fuse memory. */
module Efuse {
  import opened Sequences

  // ---------------------------------------------------------------- hexadecimal text

  predicate IsHexDigit(c: char) {
    '0' <= c <= '9' || 'A' <= c <= 'F' || 'a' <= c <= 'f'
  }

  /** The white space `bytes.fromhex` skips between bytes. */
  predicate IsGap(c: char) {
    c == ' ' || '\t' <= c <= '\r'
  }

  function DigitValue(c: char): (v: int)
    requires IsHexDigit(c)
    ensures 0 <= v < 16
  {
    if c <= '9' then c as int - '0' as int
    else if c <= 'F' then c as int - 'A' as int + 10
    else c as int - 'a' as int + 10
  }

  function UpperDigit(v: int): (c: char)
    requires 0 <= v < 16
    ensures IsHexDigit(c) && DigitValue(c) == v && !('a' <= c <= 'f')
  {
    if v < 10 then ('0' as int + v) as char else ('A' as int + v - 10) as char
  }

  /** `"%02X"` for each byte. */
  function ToHex(b: seq<byte>): string {
    if b == [] then "" else [UpperDigit(b[0] / 16), UpperDigit(b[0] % 16)] + ToHex(b[1..])
  }

  /** Reads bytes from `s`; `high` is the first digit of a byte that is half read. White space may not split a byte. */
  function Scan(s: string, high: Option<int>): Option<seq<byte>>
    requires high.Some? ==> 0 <= high.value < 16
  {
    if s == "" then (if high.None? then Some([]) else None)
    else if high.None? && IsGap(s[0]) then Scan(s[1..], None)
    else if !IsHexDigit(s[0]) then None
    else if high.None? then Scan(s[1..], Some(DigitValue(s[0])))
    else
      var rest := Scan(s[1..], None);
      if rest.None? then None else Some([(high.value * 16 + DigitValue(s[0])) as byte] + rest.value)
  }

  /** `bytes.fromhex`; `None` is its `ValueError`. */
  function FromHex(s: string): Option<seq<byte>> {
    Scan(s, None)
  }

  function RemoveSpaces(s: string): string {
    if s == "" then "" else (if s[0] == ' ' then "" else [s[0]]) + RemoveSpaces(s[1..])
  }

  function RemovePrefixes(s: string): string {
    if s == "" then ""
    else if |s| >= 2 && s[0] == '0' && s[1] == 'x' then RemovePrefixes(s[2..])
    else [s[0]] + RemovePrefixes(s[1..])
  }

  function Upper(s: string): string {
    if s == "" then "" else [if 'a' <= s[0] <= 'z' then (s[0] as int - 32) as char else s[0]] + Upper(s[1..])
  }

  /** `hex_payload.replace(' ', '').replace('0x', '').upper()`. */
  function Normalised(payload: string): string {
    Upper(RemovePrefixes(RemoveSpaces(payload)))
  }

  predicate NoLower(s: string) {
    forall i :: 0 <= i < |s| ==> !('a' <= s[i] <= 'z')
  }

  predicate NoGap(s: string) {
    forall i :: 0 <= i < |s| ==> !IsGap(s[i])
  }

  lemma {:induction false} UpperHasNoLower(s: string)
    ensures NoLower(Upper(s))
  {
    if s != "" {
      UpperHasNoLower(s[1..]);
    }
  }

  lemma {:induction false} HexLength(b: seq<byte>)
    ensures |ToHex(b)| == 2 * |b|
  {
    if b != [] {
      HexLength(b[1..]);
    }
  }

  lemma {:induction false} HexRoundTrip(b: seq<byte>)
    ensures FromHex(ToHex(b)) == Some(b)
  {
    if b != [] {
      HexRoundTrip(b[1..]);
      var c, d, t := UpperDigit(b[0] / 16), UpperDigit(b[0] % 16), ToHex(b[1..]);
      ScanPair(c, d, t);
      Split1(b);
    }
  }

  lemma ScanPair(c: char, d: char, t: string)
    requires IsHexDigit(c) && IsHexDigit(d)
    ensures var rest := FromHex(t);
            FromHex([c, d] + t) ==
            if rest.None? then None else Some([(DigitValue(c) * 16 + DigitValue(d)) as byte] + rest.value)
  {
    var s := [c, d] + t;
    var u := [d] + t;
    assert s[0] == c && s[1..] == u && u[0] == d && u[1..] == t;
    assert Scan(s, None) == Scan(u, Some(DigitValue(c)));
  }

  lemma HexInjective(a: seq<byte>, b: seq<byte>)
    ensures ToHex(a) == ToHex(b) <==> a == b
  {
    HexRoundTrip(a);
    HexRoundTrip(b);
  }

  /** A readable text is empty, or starts with a gap, or starts with a whole byte. */
  lemma FirstByte(s: string)
    requires FromHex(s).Some? && s != "" && !IsGap(s[0])
    ensures |s| >= 2 && IsHexDigit(s[0]) && IsHexDigit(s[1]) && FromHex(s[2..]).Some?
    ensures FromHex(s).value == [(DigitValue(s[0]) * 16 + DigitValue(s[1])) as byte] + FromHex(s[2..]).value
    ensures s == [s[0], s[1]] + s[2..]
  {
    var t := s[1..];
    assert Scan(t, Some(DigitValue(s[0]))).Some?;
    assert t != "" && t[0] == s[1] && t[1..] == s[2..];
  }

  lemma NoGapSplit(s: string, n: nat)
    requires n <= |s|
    ensures NoGap(s) <==> NoGap(s[..n]) && NoGap(s[n..])
  {
    if NoGap(s[..n]) && NoGap(s[n..]) {
      forall i | 0 <= i < |s| ensures !IsGap(s[i]) {
        assert if i < n then s[i] == s[..n][i] else s[i] == s[n..][i - n];
      }
    }
  }

  lemma {:induction false} GapsOnlyShorten(s: string)
    requires FromHex(s).Some?
    ensures 2 * |FromHex(s).value| <= |s|
    ensures NoGap(s) <==> 2 * |FromHex(s).value| == |s|
    decreases |s|
  {
    if s == "" {
    } else if IsGap(s[0]) {
      GapsOnlyShorten(s[1..]);
    } else {
      FirstByte(s);
      GapsOnlyShorten(s[2..]);
      NoGapSplit(s, 2);
      assert s[..2] == [s[0], s[1]];
    }
  }

  lemma {:induction false} CanonicalText(s: string)
    requires FromHex(s).Some? && NoLower(s) && NoGap(s)
    ensures ToHex(FromHex(s).value) == s
    decreases |s|
  {
    if s != "" {
      FirstByte(s);
      NoGapSplit(s, 2);
      CanonicalText(s[2..]);
      PairDigits(s[0], s[1]);
      HexCons((DigitValue(s[0]) * 16 + DigitValue(s[1])) as byte, FromHex(s[2..]).value);
    }
  }

  lemma PairDigits(c: char, d: char)
    requires IsHexDigit(c) && IsHexDigit(d) && !('a' <= c <= 'z') && !('a' <= d <= 'z')
    ensures var v := DigitValue(c) * 16 + DigitValue(d); UpperDigit(v / 16) == c && UpperDigit(v % 16) == d
  {
    var v := DigitValue(c) * 16 + DigitValue(d);
    assert v / 16 == DigitValue(c) && v % 16 == DigitValue(d);
  }

  lemma HexCons(v: byte, rest: seq<byte>)
    ensures ToHex([v] + rest) == [UpperDigit(v / 16), UpperDigit(v % 16)] + ToHex(rest)
  {
    assert ([v] + rest)[1..] == rest;
  }

  /** Upper-case text is the dump of its own bytes exactly when no white space is left in it. */
  lemma CanonicalIffNoGap(s: string)
    requires FromHex(s).Some? && NoLower(s)
    ensures ToHex(FromHex(s).value) == s <==> NoGap(s)
  {
    GapsOnlyShorten(s);
    HexLength(FromHex(s).value);
    if NoGap(s) {
      CanonicalText(s);
    }
  }

  // ---------------------------------------------------------------- ways to write a payload

  const LOWER_DIGITS := "0123456789abcdef"
  const UPPER_DIGITS := "0123456789ABCDEF"

  /** A digit of either case. */
  predicate IsDigitOf(c: char, v: int) {
    0 <= v < 16 && (c == LOWER_DIGITS[v] || c == UPPER_DIGITS[v])
  }

  /** The two digits at the front of `s` are the byte. */
  predicate BeginsWith(s: string, b: byte) {
    |s| >= 2 && IsDigitOf(s[0], b / 16) && IsDigitOf(s[1], b % 16)
  }

  /** Each byte as two digits, with or without `0x` in front of it. */
  predicate Spells(s: string, p: seq<byte>)
    decreases p
  {
    if p == [] then s == ""
    else
      || (BeginsWith(s, p[0]) && Spells(s[2..], p[1..]))
      || ("0x" <= s && BeginsWith(s[2..], p[0]) && Spells(s[4..], p[1..]))
  }

  /** `text` is `s` with blanks put in anywhere. */
  predicate Spaced(text: string, s: string)
    decreases text
  {
    if text == "" then s == ""
    else if text[0] == ' ' then Spaced(text[1..], s)
    else s != "" && s[0] == text[0] && Spaced(text[1..], s[1..])
  }

  lemma {:induction false} BlanksRemoved(text: string, s: string)
    requires Spaced(text, s)
    ensures RemoveSpaces(text) == s
    decreases text
  {
    if text != "" {
      if text[0] == ' ' {
        BlanksRemoved(text[1..], s);
        assert "" + s == s;
      } else {
        BlanksRemoved(text[1..], s[1..]);
        Split1(s);
      }
    }
  }

  /** What a digit of either case becomes. */
  lemma DigitRaised(c: char, v: int)
    requires IsDigitOf(c, v)
    ensures Upper([c]) == [UpperDigit(v)] && c != 'x' && c != ' '
  {
  }

  lemma UpperPair(c: char, d: char, t: string)
    ensures Upper([c, d] + t) == Upper([c]) + Upper([d]) + Upper(t)
  {
    var s := [c, d] + t;
    assert s[0] == c && s[1..] == [d] + t && s[1..][0] == d && s[1..][1..] == t;
  }

  lemma NoPrefixInPair(c: char, d: char, t: string)
    requires d != 'x' && (t != "" ==> t[0] != 'x')
    ensures RemovePrefixes([c, d] + t) == [c, d] + RemovePrefixes(t)
  {
    var s, u := [c, d] + t, [d] + t;
    assert s[0] == c && s[1] == d && s[1..] == u && u[0] == d && u[1..] == t;
    assert RemovePrefixes(u) == [d] + RemovePrefixes(t);
    assert RemovePrefixes(s) == [c] + RemovePrefixes(u);
    assert [c] + ([d] + RemovePrefixes(t)) == [c, d] + RemovePrefixes(t);
  }

  /** No spelling begins with an `x`. */
  lemma NotAnX(s: string, p: seq<byte>)
    requires Spells(s, p)
    ensures s != "" ==> s[0] != 'x'
  {
    if p != [] && BeginsWith(s, p[0]) {
      DigitRaised(s[0], p[0] / 16);
    }
  }

  /** Every spelling normalises to the dump of the bytes. */
  lemma {:induction false} SpelledIsDump(s: string, p: seq<byte>)
    requires Spells(s, p)
    ensures Upper(RemovePrefixes(s)) == ToHex(p)
    decreases p
  {
    if p != [] {
      if BeginsWith(s, p[0]) && Spells(s[2..], p[1..]) {
        SpelledPair(s, p);
      } else {
        var t := s[2..];
        assert s[0] == '0' && s[1] == 'x' && t[2..] == s[4..];
        SpelledPair(t, p);
      }
    }
  }

  lemma {:induction false} SpelledPair(s: string, p: seq<byte>)
    requires p != [] && BeginsWith(s, p[0]) && Spells(s[2..], p[1..])
    ensures Upper(RemovePrefixes(s)) == ToHex(p)
    decreases p, 0
  {
    NotAnX(s[2..], p[1..]);
    DigitRaised(s[1], p[0] % 16);
    assert s == [s[0], s[1]] + s[2..];
    NoPrefixInPair(s[0], s[1], s[2..]);
    UpperPair(s[0], s[1], RemovePrefixes(s[2..]));
    DigitRaised(s[0], p[0] / 16);
    SpelledIsDump(s[2..], p[1..]);
    assert [UpperDigit(p[0] / 16)] + [UpperDigit(p[0] % 16)] == [UpperDigit(p[0] / 16), UpperDigit(p[0] % 16)];
  }

  lemma {:induction false} DumpHasNoGap(b: seq<byte>)
    ensures NoGap(ToHex(b))
  {
    if b != [] {
      DumpHasNoGap(b[1..]);
    }
  }

  /** Digits of either case, `0x` in front of any byte, blanks anywhere: the payload text means its bytes. */
  lemma PayloadMeansBytes(text: string, s: string, p: seq<byte>)
    requires Spaced(text, s) && Spells(s, p)
    ensures Normalised(text) == ToHex(p) && FromHex(Normalised(text)) == Some(p) && NoGap(Normalised(text))
  {
    BlanksRemoved(text, s);
    SpelledIsDump(s, p);
    HexRoundTrip(p);
    DumpHasNoGap(p);
  }

  // ---------------------------------------------------------------- the fuses

  predicate AllZero(s: seq<byte>) {
    forall i :: 0 <= i < |s| ==> s[i] == 0
  }

  /** What the board does in one burn: whether each read works, and what the silicon holds after the write. */
  datatype Board = Board(firstRead: bool, writeOk: bool, secondRead: bool, written: seq<byte>)

  datatype Verdict = Passed | ReadFailed | Dirty | WriteRejected | ReadbackFailed | Mismatch | BadText

  /** The region `offset..offset + n` exists. */
  predicate Fits(mem: seq<byte>, offset: nat, n: nat) {
    offset + n <= |mem|
  }

  /** What one burn of `p` claims and does; `clean` says the payload text has no white space but blanks. */
  predicate BurnSpec(before: seq<byte>, after: seq<byte>, offset: nat, p: seq<byte>, clean: bool, board: Board,
                     verdict: Verdict, wrote: bool)
  {
    if !(board.firstRead && Fits(before, offset, |p|)) then verdict.ReadFailed? && !wrote
    else
      var region := before[offset..offset + |p|];
      && !verdict.ReadFailed?
      && (verdict.Dirty? <==> !AllZero(region) && !(clean && region == p))
      && (wrote <==> AllZero(region) && !(clean && AllZero(p)))
      && (wrote ==> after == before[..offset] + board.written + before[offset + |p|..])
      && (verdict.Passed? <==>
            clean && (region == p || (wrote && board.writeOk && board.secondRead && board.written == p)))
      && (verdict.Passed? ==> Fits(after, offset, |p|) && after[offset..offset + |p|] == p)
  }

  /** The dump of a region is the payload text exactly when the bytes agree and the text is a dump itself. */
  lemma TextOfRegion(region: seq<byte>, p: seq<byte>, hex: string)
    requires FromHex(hex) == Some(p) && (ToHex(p) == hex <==> NoGap(hex)) && |region| == |p|
    ensures ToHex(region) == hex <==> NoGap(hex) && region == p
    ensures AllZero(region) && AllZero(p) ==> region == p
  {
    HexRoundTrip(region);
  }

  lemma WriteKeepsBurnt(before: seq<byte>, offset: nat, written: seq<byte>)
    requires Fits(before, offset, |written|) && AllZero(before[offset..offset + |written|])
    ensures var after := before[..offset] + written + before[offset + |written|..];
            KeepsBurnt(before, after) && after[offset..offset + |written|] == written
  {
    var region := before[offset..offset + |written|];
    assert forall i :: offset <= i < offset + |written| ==> before[i] == region[i - offset];
  }

  class FuseBank {
    var mem: seq<byte>

    constructor (n: nat)
      ensures |mem| == n && AllZero(mem)
    {
      mem := seq(n, _ => 0);
    }

    /** `hexdump`: the bytes of the region as upper-case text, or an error when the region is not all there. */
    method ReadEfuse(offset: nat, n: nat, works: bool) returns (val: Option<string>)
      ensures val.Some? <==> works && offset + n <= |mem|
      ensures val.Some? ==> val.value == ToHex(mem[offset..offset + n])
    {
      if !works || offset + n > |mem| {
        return None;
      }
      HexLength(mem[offset..offset + n]);
      val := Some(ToHex(mem[offset..offset + n]));
    }

    /** The write and the readback, once the region was found blank. */
    method WriteAndVerify(offset: nat, p: seq<byte>, hex: string, board: Board) returns (verdict: Verdict)
      requires FromHex(hex) == Some(p) && |board.written| == |p|
      requires Fits(mem, offset, |p|) && AllZero(mem[offset..offset + |p|])
      modifies this
      ensures mem == old(mem)[..offset] + board.written + old(mem)[offset + |p|..]
      ensures KeepsBurnt(old(mem), mem)
      ensures verdict.Passed? <==> board.writeOk && board.secondRead && ToHex(board.written) == hex
      ensures !verdict.ReadFailed? && !verdict.Dirty? && !verdict.BadText? && mem[offset..offset + |p|] == board.written
    {
      WriteKeepsBurnt(mem, offset, board.written);
      mem := mem[..offset] + board.written + mem[offset + |p|..];
      if !board.writeOk {
        return WriteRejected;
      }
      var readback := ReadEfuse(offset, |p|, board.secondRead);
      if readback.None? {
        return ReadbackFailed;
      }
      if readback.value != hex {
        return Mismatch;
      }
      verdict := Passed;
    }

    /** The checks in front of the write. */
    method Inspect(offset: nat, p: seq<byte>, hex: string, works: bool) returns (verdict: Option<Verdict>)
      requires FromHex(hex) == Some(p)
      ensures verdict == Some(ReadFailed) <==> !(works && Fits(mem, offset, |p|))
      ensures verdict != Some(ReadFailed) ==> var region := mem[offset..offset + |p|];
              && (verdict == Some(Passed) <==> ToHex(region) == hex)
              && (verdict == Some(Dirty) <==> ToHex(region) != hex && !AllZero(region))
              && (verdict.None? <==> ToHex(region) != hex && AllZero(region))
    {
      var current := ReadEfuse(offset, |p|, works);
      if current.None? {
        return Some(ReadFailed);
      }
      if current.value == hex {
        return Some(Passed);
      }
      var zeros := seq(|p|, _ => 0);
      HexInjective(mem[offset..offset + |p|], zeros);
      if current.value != ToHex(zeros) {
        assert mem[offset..offset + |p|] != zeros;
        return Some(Dirty);
      }
      return None;
    }

    /** The burn of a parsed payload. */
    method BurnBytes(offset: nat, p: seq<byte>, hex: string, board: Board) returns (verdict: Verdict, wrote: bool)
      requires FromHex(hex) == Some(p) && |board.written| == |p| && (ToHex(p) == hex <==> NoGap(hex))
      modifies this
      ensures KeepsBurnt(old(mem), mem)
      ensures !wrote ==> mem == old(mem)
      ensures !verdict.BadText? && BurnSpec(old(mem), mem, offset, p, NoGap(hex), board, verdict, wrote)
    {
      wrote := false;
      if Fits(mem, offset, |p|) {
        TextOfRegion(mem[offset..offset + |p|], p, hex);
      }
      var early := Inspect(offset, p, hex, board.firstRead);
      if early.Some? {
        return early.value, false;
      }
      TextOfRegion(board.written, p, hex);
      wrote := true;
      verdict := WriteAndVerify(offset, p, hex, board);
    }

    /** One burn request. The alignment rule only raises a warning; nothing is refused for it. */
    method BurnEfuse(offset: nat, payload: string, aligned32: bool, board: Board)
        returns (verdict: Verdict, wrote: bool, alignmentWarning: bool)
      requires FromHex(Normalised(payload)).Some? ==> |board.written| == |FromHex(Normalised(payload)).value|
      modifies this
      ensures KeepsBurnt(old(mem), mem)
      ensures !wrote ==> mem == old(mem)
      ensures (verdict.BadText? <==> FromHex(Normalised(payload)).None?) && (verdict.BadText? ==> !wrote)
      ensures !verdict.BadText? ==>
                BurnSpec(old(mem), mem, offset, FromHex(Normalised(payload)).value, NoGap(Normalised(payload)),
                         board, verdict, wrote)
      ensures !verdict.BadText? ==>
                (alignmentWarning <==> aligned32 && (offset % 4 != 0 || |FromHex(Normalised(payload)).value| % 4 != 0))
    {
      var hex := Normalised(payload);
      UpperHasNoLower(RemovePrefixes(RemoveSpaces(payload)));
      var bytes := FromHex(hex);
      if bytes.None? {
        return BadText, false, false;
      }
      CanonicalIffNoGap(hex);
      alignmentWarning := aligned32 && (offset % 4 != 0 || |bytes.value| % 4 != 0);
      verdict, wrote := BurnBytes(offset, bytes.value, hex, board);
    }

    /** A burn of the bytes `p`, however they are written: if it passes they are in the region, and on good blank silicon it does. */
    method BurnWritten(offset: nat, payload: string, ghost s: string, ghost p: seq<byte>, aligned32: bool, board: Board)
        returns (verdict: Verdict, wrote: bool, alignmentWarning: bool)
      requires Spaced(payload, s) && Spells(s, p) && |board.written| == |p|
      modifies this
      ensures KeepsBurnt(old(mem), mem) && (!wrote ==> mem == old(mem))
      ensures !verdict.BadText? && (verdict.Passed? ==> Fits(mem, offset, |p|) && mem[offset..offset + |p|] == p)
      ensures board == Board(true, true, true, p) && Fits(old(mem), offset, |p|) && AllZero(old(mem)[offset..offset + |p|]) ==>
                verdict.Passed? && mem == old(mem)[..offset] + p + old(mem)[offset + |p|..]
    {
      PayloadMeansBytes(payload, s, p);
      hide Normalised, FromHex, Spaced, Spells;
      verdict, wrote, alignmentWarning := BurnEfuse(offset, payload, aligned32, board);
      if !wrote && Fits(mem, offset, |p|) {
        assert mem == mem[..offset] + mem[offset..offset + |p|] + mem[offset + |p|..];
      }
    }

    method BurnOne(r: Request) returns (verdict: Verdict, wrote: bool)
      requires WellFormed(r)
      modifies this
      ensures KeepsBurnt(old(mem), mem) && (!wrote ==> mem == old(mem))
      ensures verdict.Passed? ==> Holds(mem, r) && Matches(mem, r) && NoGap(Normalised(r.payload))
      ensures Holds(old(mem), r) && NoGap(Normalised(r.payload)) ==>
                && !wrote
                && (verdict.Passed? <==> r.board.firstRead && Matches(old(mem), r))
                && (verdict.Dirty? <==> r.board.firstRead && !Matches(old(mem), r))
    {
      hide BurnSpec, Holds, Matches, KeepsBurnt, NoGap, Normalised, FromHex;
      ghost var before := mem;
      var warned;
      verdict, wrote, warned := BurnEfuse(r.offset, r.payload, r.aligned32, r.board);
      Outcome(before, mem, r, verdict, wrote);
    }

    /** A payload that passed is never written again, whatever else was burnt in between, overlapping or not. */
    method BurnAgain(r: Request, others: seq<Request>, again: Board)
        returns (first: Verdict, verdicts: seq<Verdict>, ghost between: seq<byte>, second: Verdict, wroteAgain: bool)
      requires WellFormed(r) && WellFormed(r.(board := again))
      requires forall o :: o in others ==> WellFormed(o)
      modifies this
      ensures |verdicts| == |others| && KeepsBurnt(old(mem), mem)
      ensures first.Passed? ==>
                && !wroteAgain && mem == between
                && (second.Passed? <==> again.firstRead && Matches(between, r))
                && (second.Dirty? <==> again.firstRead && !Matches(between, r))
      ensures first.Passed? && others == [] && again.firstRead ==> second.Passed?
    {
      var wrote;
      first, wrote := BurnOne(r);
      ghost var after := mem;
      verdicts := BurnAll(others);
      between := mem;
      if first.Passed? {
        HoldsOn(after, between, r);
      }
      second, wroteAgain := BurnOne(r.(board := again));
    }

    /** Any series of requests, overlapping or not: a burnt byte keeps its value for good, and so does a passed payload. */
    method BurnAll(requests: seq<Request>) returns (verdicts: seq<Verdict>)
      requires forall r :: r in requests ==> WellFormed(r)
      modifies this
      ensures KeepsBurnt(old(mem), mem) && |verdicts| == |requests|
      ensures forall k :: 0 <= k < |verdicts| && verdicts[k].Passed? ==> Holds(mem, requests[k])
      ensures requests == [] ==> mem == old(mem)
    {
      verdicts := [];
      for k := 0 to |requests|
        invariant KeepsBurnt(old(mem), mem) && |verdicts| == k
        invariant forall j :: 0 <= j < k && verdicts[j].Passed? ==> Holds(mem, requests[j])
        invariant k == 0 ==> mem == old(mem)
      {
        ghost var before := mem;
        var verdict, wrote := BurnOne(requests[k]);
        forall j | 0 <= j < k && verdicts[j].Passed? ensures Holds(mem, requests[j]) {
          HoldsOn(before, mem, requests[j]);
        }
        verdicts := verdicts + [verdict];
      }
    }
  }

  /** No byte that was burnt has changed. */
  predicate KeepsBurnt(before: seq<byte>, after: seq<byte>) {
    |after| == |before| && forall i :: 0 <= i < |before| && before[i] != 0 ==> after[i] == before[i]
  }

  datatype Request = Request(offset: nat, payload: string, aligned32: bool, board: Board)

  /** Every non-zero byte of the payload is in its place. A zero byte is a blank fuse that a later request may burn. */
  predicate Holds(mem: seq<byte>, r: Request) {
    var p := FromHex(Normalised(r.payload));
    p.Some? && Fits(mem, r.offset, |p.value|)
    && forall i :: 0 <= i < |p.value| && p.value[i] != 0 ==> mem[r.offset + i] == p.value[i]
  }

  /** The region holds the payload and nothing else. */
  predicate Matches(mem: seq<byte>, r: Request) {
    var p := FromHex(Normalised(r.payload));
    p.Some? && Fits(mem, r.offset, |p.value|) && mem[r.offset..r.offset + |p.value|] == p.value
  }

  /** A region that holds a payload is blank only if the payload is. */
  lemma HeldIsNotBlank(mem: seq<byte>, r: Request)
    requires Holds(mem, r)
    ensures var p := FromHex(Normalised(r.payload)).value;
            AllZero(mem[r.offset..r.offset + |p|]) ==> AllZero(p) && Matches(mem, r)
  {
    var p := FromHex(Normalised(r.payload)).value;
    var region := mem[r.offset..r.offset + |p|];
    if AllZero(region) {
      forall i | 0 <= i < |p| ensures p[i] == region[i] {
        assert region[i] == mem[r.offset + i];
      }
    }
  }

  /** What the verdict of one burn says about its request. */
  lemma Outcome(before: seq<byte>, after: seq<byte>, r: Request, verdict: Verdict, wrote: bool)
    requires var p := FromHex(Normalised(r.payload));
             && (verdict.BadText? <==> p.None?) && (verdict.BadText? ==> !wrote)
             && (p.Some? ==> BurnSpec(before, after, r.offset, p.value, NoGap(Normalised(r.payload)), r.board,
                                      verdict, wrote))
    ensures verdict.Passed? ==> Holds(after, r) && Matches(after, r) && NoGap(Normalised(r.payload))
    ensures Holds(before, r) && NoGap(Normalised(r.payload)) ==>
              && !wrote
              && (verdict.Passed? <==> r.board.firstRead && Matches(before, r))
              && (verdict.Dirty? <==> r.board.firstRead && !Matches(before, r))
  {
    hide NoGap, Normalised, FromHex;
    if verdict.Passed? {
      HoldsAtOnce(after, r);
    }
    if Holds(before, r) {
      HeldIsNotBlank(before, r);
    }
  }

  lemma HoldsOn(before: seq<byte>, after: seq<byte>, r: Request)
    requires Holds(before, r) && KeepsBurnt(before, after)
    ensures Holds(after, r)
  {
    var p := FromHex(Normalised(r.payload)).value;
    forall i | 0 <= i < |p| && p[i] != 0 ensures after[r.offset + i] == p[i] {
      assert before[r.offset + i] == p[i];
    }
  }

  lemma HoldsAtOnce(mem: seq<byte>, r: Request)
    requires Matches(mem, r)
    ensures Holds(mem, r)
  {
    var p := FromHex(Normalised(r.payload)).value;
    assert forall i :: 0 <= i < |p| ==> p[i] == mem[r.offset + i];
  }

  /** The silicon answers for as many bytes as were written. */
  predicate WellFormed(r: Request) {
    FromHex(Normalised(r.payload)).Some? ==> |r.board.written| == |FromHex(Normalised(r.payload)).value|
  }

  const TABBED := "AB\tCD"

  lemma TabbedText()
    ensures Normalised(TABBED) == TABBED && FromHex(TABBED) == Some([0xAB, 0xCD]) && !NoGap(TABBED)
  {
    assert TABBED == ['A', 'B', '\t', 'C', 'D'];
    assert RemoveSpaces(TABBED) == TABBED;
    assert RemovePrefixes(TABBED) == TABBED;
    assert Upper(TABBED) == TABBED;
    var tail := ['\t', 'C', 'D'];
    assert TABBED == ['A', 'B'] + tail && tail[1..] == ['C', 'D'] + "";
    ScanPair('A', 'B', tail);
    ScanPair('C', 'D', "");
    assert DigitValue('A') == 10 && DigitValue('B') == 11 && DigitValue('C') == 12 && DigitValue('D') == 13;
    assert FromHex("") == Some([]) && FromHex(tail[1..]) == Some([0xCD] + []);
    assert FromHex(tail) == FromHex(tail[1..]);
    assert FromHex(TABBED) == Some([0xAB] + ([0xCD] + []));
    assert [0xAB] + ([0xCD] + []) == [0xAB, 0xCD];
    assert IsGap(TABBED[2]);
  }

  /** A tab between two bytes: good silicon takes the payload, and the burn is reported as failed. */
  method TabbedPayloadFails() returns (bank: FuseBank, verdict: Verdict, wrote: bool)
    ensures wrote && bank.mem == [0xAB, 0xCD] && !verdict.Passed? && !verdict.BadText?
  {
    TabbedText();
    bank := new FuseBank(2);
    assert bank.mem[0..2] == bank.mem;
    var warned;
    verdict, wrote, warned := bank.BurnEfuse(0, TABBED, false, Board(true, true, true, [0xAB, 0xCD]));
  }
}
