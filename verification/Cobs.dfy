/**
 Consistent Overhead Byte Stuffing as `CobsFramer` does it: an encoder that back-patches
 each block's code byte, and its decoder.
 */
module Cobs {
  import opened Sequences

  const FULL_BLOCK := 254

  predicate NoZero(s: seq<byte>) {
    forall i :: 0 <= i < |s| ==> s[i] != 0
  }

  /** The frame without its delimiter, given the non-zero bytes `block` waiting for their code byte. */
  function Body(block: seq<byte>, d: seq<byte>): (r: seq<byte>)
    requires |block| < FULL_BLOCK
    ensures r != []
    decreases |d|
  {
    if d == [] then
      [(|block| + 1) as byte] + block
    else if d[0] == 0 then
      [(|block| + 1) as byte] + block + Body([], d[1..])
    else if |block| + 1 == FULL_BLOCK then
      [255 as byte] + (block + [d[0]]) + Body([], d[1..])
    else
      Body(block + [d[0]], d[1..])
  }

  function Encode(d: seq<byte>): seq<byte> {
    Body([], d) + [0]
  }

  /** How many bytes the decoder copies for the block that starts `f`. */
  function Run(f: seq<byte>): (n: nat)
    requires f != [] && f[0] != 0
    ensures n < |f| && n < f[0]
  {
    if f[0] <= |f| then f[0] - 1 else |f| - 1
  }

  function Decode(f: seq<byte>): seq<byte>
    decreases |f|
  {
    if f == [] || f[0] == 0 then
      []
    else
      var n := Run(f);
      f[1..n + 1] + (if f[0] < 255 && n + 1 < |f| then [0] else []) + Decode(f[n + 1..])
  }

  /** Frames the encoder can produce: blocks that end exactly at the end, none of them the 255 code last. */
  predicate WellFormed(f: seq<byte>)
    decreases |f|
  {
    && f != [] && f[0] != 0 && f[0] <= |f| && NoZero(f[1..f[0]])
    && (if f[0] == |f| then f[0] < 255 else WellFormed(f[f[0]..]))
  }

  /** One block in front of a decodable rest. */
  lemma DecodeBlock(code: byte, block: seq<byte>, rest: seq<byte>)
    requires code == |block| + 1
    ensures Decode([code] + block + rest) ==
            block + (if code < 255 && rest != [] then [0] else []) + Decode(rest)
  {
    var f := [code] + block + rest;
    assert f[0] == code && Run(f) == |block|;
    assert f[1..|block| + 1] == block;
    assert f[|block| + 1..] == rest;
  }

  /** A block closed by a data zero. */
  lemma DecodeClosed(block: seq<byte>, rest: seq<byte>, d: seq<byte>, t: seq<byte>)
    requires |block| < FULL_BLOCK && rest != []
    requires Decode(rest) == d + t
    ensures Decode([(|block| + 1) as byte] + block + rest) == block + ([0] + d) + t
  {
    DecodeBlock((|block| + 1) as byte, block, rest);
    Assoc(block, [0], d + t);
    Assoc([0], d, t);
    Assoc(block, [0] + d, t);
  }

  /** The last block, with or without the delimiter behind it. */
  lemma DecodeOpen(block: seq<byte>, t: seq<byte>)
    requires |block| < FULL_BLOCK
    requires t == [] || t == [0]
    ensures Decode([(|block| + 1) as byte] + block + t) == block + t
  {
    DecodeBlock((|block| + 1) as byte, block, t);
    assert block + t + [] == block + t;
  }

  /** A full block, closed without a data zero. */
  lemma DecodeFull(block: seq<byte>, rest: seq<byte>, d: seq<byte>, t: seq<byte>)
    requires |block| == FULL_BLOCK
    requires Decode(rest) == d + t
    ensures Decode([255 as byte] + block + rest) == block + d + t
  {
    DecodeBlock(255, block, rest);
    assert block + [] == block;
    Assoc(block, d, t);
  }

  lemma {:induction false} DecodeBody(block: seq<byte>, d: seq<byte>, t: seq<byte>)
    requires |block| < FULL_BLOCK
    requires t == [] || t == [0]
    ensures Decode(Body(block, d) + t) == block + d + t
    decreases |d|
  {
    if d == [] {
      DecodeOpen(block, t);
      assert block + d == block;
    } else {
      var b, d' := d[0], d[1..];
      Split1(d);
      Assoc(block, [b], d');
      if b == 0 {
        DecodeBody([], d', t);
        assert [] + d' == d';
        DecodeClosed(block, Body([], d') + t, d', t);
        Assoc([(|block| + 1) as byte] + block, Body([], d'), t);
      } else if |block| + 1 == FULL_BLOCK {
        DecodeBody([], d', t);
        assert [] + d' == d';
        DecodeFull(block + [b], Body([], d') + t, d', t);
        Assoc([255 as byte] + (block + [b]), Body([], d'), t);
      } else {
        DecodeBody(block + [b], d', t);
      }
    }
  }

  /** The client strips the delimiter before it decodes; left on, it decodes to one extra zero. */
  lemma RoundTrip(d: seq<byte>)
    ensures Decode(Encode(d)[..|Encode(d)| - 1]) == d
    ensures Decode(Encode(d)) == d + [0]
  {
    DecodeBody([], d, []);
    DecodeBody([], d, [0]);
    assert Encode(d)[..|Encode(d)| - 1] == Body([], d) + [];
    assert [] + d + [] == d;
    assert [] + d + [0] == d + [0];
  }

  lemma {:induction false} BodyNoZero(block: seq<byte>, d: seq<byte>)
    requires |block| < FULL_BLOCK && NoZero(block)
    ensures NoZero(Body(block, d)) && WellFormed(Body(block, d))
    decreases |d|
  {
    var code := (|block| + 1) as byte;
    if d == [] {
      assert Body(block, d)[1..code] == block;
    } else if d[0] == 0 {
      var rest := Body([], d[1..]);
      BodyNoZero([], d[1..]);
      assert Body(block, d)[1..code] == block;
      assert Body(block, d)[code..] == rest;
    } else if |block| + 1 == FULL_BLOCK {
      var rest := Body([], d[1..]);
      BodyNoZero([], d[1..]);
      assert Body(block, d)[1..255] == block + [d[0]];
      assert Body(block, d)[255..] == rest;
    } else {
      BodyNoZero(block + [d[0]], d[1..]);
    }
  }

  /** A frame holds exactly one zero byte: its last. */
  lemma OnlyZeroIsLast(d: seq<byte>)
    ensures Encode(d) != [] && Encode(d)[|Encode(d)| - 1] == 0
    ensures NoZero(Encode(d)[..|Encode(d)| - 1])
  {
    BodyNoZero([], d);
    assert Encode(d)[..|Encode(d)| - 1] == Body([], d);
  }

  lemma {:induction false} BodyLength(block: seq<byte>, d: seq<byte>)
    requires |block| < FULL_BLOCK && NoZero(block)
    ensures |block| + |d| + 1 <= |Body(block, d)| <= |block| + |d| + 1 + (|block| + |d|) / FULL_BLOCK
    ensures NoZero(d) ==> |Body(block, d)| == |block| + |d| + 1 + (|block| + |d|) / FULL_BLOCK
    decreases |d|
  {
    if d == [] {
    } else if d[0] == 0 {
      BodyLength([], d[1..]);
    } else if |block| + 1 == FULL_BLOCK {
      BodyLength([], d[1..]);
      assert NoZero(d) ==> NoZero(d[1..]);
    } else {
      BodyLength(block + [d[0]], d[1..]);
      assert NoZero(d) ==> NoZero(d[1..]);
    }
  }

  /** At most one byte of overhead per 254, and exactly that when the data has no zero. */
  lemma FrameLength(d: seq<byte>)
    ensures |d| + 2 <= |Encode(d)| <= |d| + |d| / FULL_BLOCK + 2
    ensures NoZero(d) ==> |Encode(d)| == |d| + |d| / FULL_BLOCK + 2
  {
    BodyLength([], d);
  }

  lemma {:induction false} BodyAbsorbs(block: seq<byte>, more: seq<byte>, d: seq<byte>)
    requires |block| + |more| < FULL_BLOCK && NoZero(more)
    ensures Body(block, more + d) == Body(block + more, d)
    decreases |more|
  {
    if more == [] {
      assert more + d == d && block + more == block;
    } else {
      assert (more + d)[1..] == more[1..] + d;
      BodyAbsorbs(block + [more[0]], more[1..], d);
      assert (block + [more[0]]) + more[1..] == block + more;
    }
  }

  lemma {:induction false} EncodeDecoded(f: seq<byte>)
    requires WellFormed(f)
    ensures Body([], Decode(f)) == f
    decreases |f|
  {
    var code := f[0];
    var block, rest := f[1..code], f[code..];
    assert f == [code] + block + rest;
    DecodeBlock(code, block, rest);
    if rest == [] {
      assert block + [] + [] == block + [];
      BodyAbsorbs([], block, []);
      assert [] + block == block;
    } else {
      EncodeDecoded(rest);
      BodyOfBlock(code, block, Decode(rest));
    }
  }

  lemma BodyOfBlock(code: byte, block: seq<byte>, d: seq<byte>)
    requires code == |block| + 1 && NoZero(block)
    ensures Body([], block + (if code < 255 then [0] else []) + d) == [code] + block + Body([], d)
  {
    if code < 255 {
      var more := [0] + d;
      Assoc(block, [0], d);
      BodyAbsorbs([], block, more);
      assert [] + block == block && more[1..] == d;
    } else {
      var front, more := block[..253], [block[253]] + d;
      assert block + [] == front + [block[253]];
      Assoc(front, [block[253]], d);
      BodyAbsorbs([], front, more);
      assert [] + front == front && more[1..] == d;
    }
  }

  /** Decoding is undone by encoding exactly on the frames the encoder can produce. */
  lemma CanonicalFrames(f: seq<byte>)
    ensures WellFormed(f) <==> Encode(Decode(f)) == f + [0]
  {
    if WellFormed(f) {
      EncodeDecoded(f);
    }
    if Encode(Decode(f)) == f + [0] {
      BodyNoZero([], Decode(f));
      assert f == (f + [0])[..|f|] == Body([], Decode(f));
    }
  }

  lemma PatchCode(done: seq<byte>, block: seq<byte>, code: byte)
    ensures (done + [0] + block)[|done| := code] == done + ([code] + block)
  {
  }

  /** What the next byte does to the frame behind `done`. */
  lemma BodyStep(done: seq<byte>, block: seq<byte>, rest: seq<byte>)
    requires |block| < FULL_BLOCK && rest != []
    ensures var closed := if rest[0] == 0 then [(|block| + 1) as byte] + block else [255 as byte] + (block + [rest[0]]);
            done + Body(block, rest) ==
            if rest[0] == 0 || |block| + 1 == FULL_BLOCK then done + closed + Body([], rest[1..])
            else done + Body(block + [rest[0]], rest[1..])
  {
  }

  lemma BodyEnd(block: seq<byte>)
    requires |block| < FULL_BLOCK
    ensures Body(block, []) == [(|block| + 1) as byte] + block
  {
  }

  /** The encoder's loop: every code byte is first appended as a placeholder, then patched. */
  method EncodeFrame(data: seq<byte>) returns (encoded: seq<byte>)
    ensures encoded == Encode(data)
  {
    hide Body;
    encoded := [];
    var code := 1;
    var codeIdx := 0;
    encoded := encoded + [0];
    ghost var done, block: seq<byte> := [], [];
    assert data[0..] == data;
    for k := 0 to |data|
      invariant 1 <= code <= FULL_BLOCK
      invariant codeIdx == |done| && code == |block| + 1
      invariant encoded == done + [0] + block
      invariant done + Body(block, data[k..]) == Body([], data)
    {
      var b := data[k];
      ghost var rest := data[k..];
      assert rest[0] == b && rest[1..] == data[k + 1..];
      BodyStep(done, block, rest);
      if b == 0 {
        PatchCode(done, block, code as byte);
        encoded := encoded[codeIdx := code as byte];
        done, block := done + ([code as byte] + block), [];
        code := 1;
        codeIdx := |encoded|;
        encoded := encoded + [0];
      } else {
        encoded := encoded + [b];
        block := block + [b];
        code := code + 1;
        if code == 255 {
          PatchCode(done, block, 255);
          encoded := encoded[codeIdx := code as byte];
          done, block := done + ([255 as byte] + block), [];
          code := 1;
          codeIdx := |encoded|;
          encoded := encoded + [0];
        }
      }
    }
    PatchCode(done, block, code as byte);
    BodyEnd(block);
    encoded := encoded[codeIdx := code as byte];
    encoded := encoded + [0];
  }

  /** The inner copy: `code - 1` bytes, or what is left. */
  method CopyRun(data: seq<byte>, start: nat, code: byte) returns (run: seq<byte>)
    requires 1 <= start <= |data| && code != 0 && data[start - 1] == code
    ensures run == data[start..start + Run(data[start - 1..])]
  {
    run := [];
    var i := start;
    ghost var n := Run(data[start - 1..]);
    for j := 1 to code
      invariant start <= i <= |data|
      invariant i - start == if j - 1 <= n then j - 1 else n
      invariant run == data[start..i]
    {
      if i < |data| {
        run := run + [data[i]];
        i := i + 1;
      }
    }
  }

  /** One turn of the decoder's loop, seen from the bytes still unread at `i`. */
  lemma DecodeTurn(data: seq<byte>, i: nat, run: seq<byte>, zero: seq<byte>, before: seq<byte>)
    requires i < |data| && data[i] != 0 && run == data[i + 1..i + 1 + Run(data[i..])]
    requires zero == if data[i] < 255 && i + 1 + |run| < |data| then [0] else []
    ensures before + Decode(data[i..]) == (before + run + zero) + Decode(data[i + 1 + |run|..])
  {
    var f, rest := data[i..], data[i + 1 + |run|..];
    assert f[1..Run(f) + 1] == run;
    assert f[Run(f) + 1..] == rest;
    Assoc(before, run, zero);
    Assoc(before, run + zero, Decode(rest));
  }

  /** The decoder's loop. */
  method DecodeFrame(data: seq<byte>) returns (decoded: seq<byte>)
    ensures decoded == Decode(data)
  {
    decoded := [];
    var i := 0;
    assert data[0..] == data;
    while i < |data|
      invariant 0 <= i <= |data|
      invariant decoded + Decode(data[i..]) == Decode(data)
    {
      var code := data[i];
      if code == 0 {
        break;
      }
      ghost var i0, before := i, decoded;
      i := i + 1;
      var run := CopyRun(data, i, code);
      i := i + |run|;
      decoded := decoded + run;
      if code < 255 && i < |data| {
        DecodeTurn(data, i0, run, [0], before);
        decoded := decoded + [0];
      } else {
        DecodeTurn(data, i0, run, [], before);
        assert decoded + [] == decoded;
      }
    }
    assert Decode(data[i..]) == [];
  }
}
