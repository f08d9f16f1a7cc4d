/** `UartKernelWatchdog`: panic detection over a 1024-byte rolling window, with mute and unmute. */
module Watchdog {
  import opened Sequences

  const WINDOW := 1024

  datatype Op = Chunk(bytes: seq<byte>) | Mute | Unmute

  /** The last mute switch was `Mute`. */
  predicate Muted(ops: seq<Op>) {
    ops != [] && (match ops[|ops| - 1] case Chunk(_) => Muted(ops[..|ops| - 1]) case Mute => true case Unmute => false)
  }

  /** The chunks received since the last mute switch. */
  function Since(ops: seq<Op>): seq<seq<byte>> {
    if ops == [] then []
    else match ops[|ops| - 1]
      case Chunk(c) => Since(ops[..|ops| - 1]) + [c]
      case _ => []
  }

  lemma HistorySnoc(ops: seq<Op>, op: Op)
    ensures Since(ops + [op]) == if op.Chunk? then Since(ops) + [op.bytes] else []
    ensures Muted(ops + [op]) == if op.Chunk? then Muted(ops) else op.Mute?
  {
    assert (ops + [op])[..|ops|] == ops;
  }

  /** Some unmuted chunk brought a token into the window. */
  predicate Reported(ops: seq<Op>, tokens: seq<seq<byte>>) {
    ops != [] && (|| Reported(ops[..|ops| - 1], tokens)
                  || (Listens(ops) && AnyOccurs(Newest(Flat(Since(ops)), WINDOW), tokens)))
  }

  /** Some unmuted chunk completed a token in all the bytes received since the last mute switch. */
  predicate Arrived(ops: seq<Op>, tokens: seq<seq<byte>>) {
    ops != [] && (|| Arrived(ops[..|ops| - 1], tokens)
                  || (Listens(ops) && AnyOccurs(Flat(Since(ops)), tokens)))
  }

  /** The newest op is a chunk that is not muted. */
  predicate Listens(ops: seq<Op>) {
    ops != [] && ops[|ops| - 1].Chunk? && !Muted(ops)
  }

  lemma ReportedSnoc(ops: seq<Op>, op: Op, tokens: seq<seq<byte>>)
    ensures Reported(ops + [op], tokens) <==>
            || Reported(ops, tokens)
            || (op.Chunk? && !Muted(ops) && AnyOccurs(Newest(Flat(Since(ops) + [op.bytes]), WINDOW), tokens))
  {
    HistorySnoc(ops, op);
    assert (ops + [op])[..|ops|] == ops;
  }

  class UartKernelWatchdog {
    const tokens: seq<seq<byte>>
    var rollingWindow: seq<byte>
    var muted: bool
    var panicEventSet: bool
    ghost var ops: seq<Op>

    ghost predicate Valid()
      reads this
    {
      && (muted <==> Muted(ops))
      && (!muted ==> rollingWindow == Newest(Flat(Since(ops)), WINDOW))
      && (panicEventSet <==> Reported(ops, tokens))
    }

    constructor (tokens: seq<seq<byte>>)
      ensures Valid() && this.tokens == tokens && ops == [] && !panicEventSet
    {
      this.tokens := tokens;
      rollingWindow, muted, panicEventSet, ops := [], false, false, [];
    }

    method SetMute()
      requires Valid()
      modifies this
      ensures Valid() && ops == old(ops) + [Mute] && panicEventSet == old(panicEventSet)
    {
      HistorySnoc(ops, Mute);
      ReportedSnoc(ops, Mute, tokens);
      muted := true;
      rollingWindow := [];
      ops := ops + [Mute];
    }

    method SetUnmute()
      requires Valid()
      modifies this
      ensures Valid() && ops == old(ops) + [Unmute] && panicEventSet == old(panicEventSet)
    {
      HistorySnoc(ops, Unmute);
      ReportedSnoc(ops, Unmute, tokens);
      rollingWindow := [];
      muted := false;
      ops := ops + [Unmute];
    }

    /** One cleaned chunk. The window is cut before it is searched, and stays as it is after a report. */
    method OnChunk(c: seq<byte>) returns (reported: bool)
      requires Valid()
      modifies this
      ensures Valid() && ops == old(ops) + [Chunk(c)]
      ensures reported <==> !Muted(old(ops)) && AnyOccurs(Newest(Flat(Since(old(ops)) + [c]), WINDOW), tokens)
      ensures panicEventSet == (old(panicEventSet) || reported)
    {
      HistorySnoc(ops, Chunk(c));
      ReportedSnoc(ops, Chunk(c), tokens);
      FlatAppend(Since(ops), c);
      NewestOfNewest(Flat(Since(ops)), c, WINDOW);
      reported := false;
      rollingWindow := rollingWindow + c;
      if |rollingWindow| > WINDOW {
        rollingWindow := rollingWindow[|rollingWindow| - WINDOW..];
      }
      if AnyOccurs(rollingWindow, tokens) {
        if muted {
          rollingWindow := [];
        } else {
          panicEventSet := true;
          reported := true;
        }
      }
      ops := ops + [Chunk(c)];
    }

    /** A panic that is reported did arrive; and under the chunk bound one that arrived, in any run, is reported. */
    method IsPanicked() returns (yes: bool)
      requires Valid()
      ensures yes ==> Arrived(ops, tokens)
      ensures SmallChunks(ops, tokens) ==> (yes <==> Arrived(ops, tokens))
    {
      yes := panicEventSet;
      if yes {
        RunIsSound(ops, tokens);
      }
      if SmallChunks(ops, tokens) {
        RunIsExact(ops, tokens);
      }
    }
  }

  /** Every chunk is small enough for every token. */
  predicate SmallChunks(ops: seq<Op>, tokens: seq<seq<byte>>) {
    forall i, k :: 0 <= i < |ops| && ops[i].Chunk? && 0 <= k < |tokens| ==> |ops[i].bytes| + |tokens[k]| <= WINDOW + 1
  }

  lemma {:induction false} RunIsSound(ops: seq<Op>, tokens: seq<seq<byte>>)
    requires Reported(ops, tokens)
    ensures Arrived(ops, tokens)
    decreases |ops|
  {
    if Reported(ops[..|ops| - 1], tokens) {
      RunIsSound(ops[..|ops| - 1], tokens);
    } else {
      WindowIsSound(Flat(Since(ops)), tokens);
    }
  }

  /** Under the chunk bound the window reports a panic in every run of chunks and switches in which one arrives. */
  lemma {:induction false} RunIsExact(ops: seq<Op>, tokens: seq<seq<byte>>)
    requires SmallChunks(ops, tokens)
    ensures Reported(ops, tokens) <==> Arrived(ops, tokens)
    decreases |ops|
  {
    if Reported(ops, tokens) {
      RunIsSound(ops, tokens);
    }
    if Arrived(ops, tokens) {
      var init := ops[..|ops| - 1];
      assert forall i :: 0 <= i < |init| ==> init[i] == ops[i];
      RunIsExact(init, tokens);
      if !Arrived(init, tokens) {
        NewArrival(ops, tokens);
      }
    }
  }

  /** The chunk that completes a token under the bound has it in the window. */
  lemma NewArrival(ops: seq<Op>, tokens: seq<seq<byte>>)
    requires SmallChunks(ops, tokens) && Listens(ops) && AnyOccurs(Flat(Since(ops)), tokens)
    requires !Arrived(ops[..|ops| - 1], tokens)
    ensures AnyOccurs(Newest(Flat(Since(ops)), WINDOW), tokens)
  {
    var init, c := ops[..|ops| - 1], ops[|ops| - 1].bytes;
    var s := Flat(Since(init));
    FlatAppend(Since(init), c);
    var k :| 0 <= k < |tokens| && Occurs(Flat(Since(ops)), tokens[k]);
    SmallChunkCaught(s, c, tokens[k]);
    if Occurs(s, tokens[k]) {
      if Since(init) == [] {
        assert OccursAt(Newest(Flat(Since(ops)), WINDOW), tokens[k], 0);
      } else {
        assert Listens(init) && AnyOccurs(s, tokens);
      }
    }
  }

  /** An unmuted watchdog only knows chunks that were all received unmuted, since the last switch or the start. */
  lemma {:induction false} OnlyUnmutedBytes(ops: seq<Op>) returns (j: nat)
    requires !Muted(ops)
    ensures j <= |ops| && |Since(ops)| == |ops| - j
    ensures forall k :: j <= k < |ops| ==> ops[k] == Chunk(Since(ops)[k - j]) && !Muted(ops[..k])
    decreases |ops|
  {
    if ops == [] || !ops[|ops| - 1].Chunk? {
      j := |ops|;
    } else {
      var init := ops[..|ops| - 1];
      j := OnlyUnmutedBytes(init);
      assert forall k :: 0 <= k < |init| ==> init[k] == ops[k] && init[..k] == ops[..k];
      assert ops[..|ops| - 1] == init;
    }
  }

  /** What the window shows is in all the bytes. */
  lemma WindowIsSound(s: seq<byte>, tokens: seq<seq<byte>>)
    requires AnyOccurs(Newest(s, WINDOW), tokens)
    ensures AnyOccurs(s, tokens)
  {
    var k :| 0 <= k < |tokens| && Occurs(Newest(s, WINDOW), tokens[k]);
    if |s| > WINDOW {
      assert s == s[..|s| - WINDOW] + s[|s| - WINDOW..];
      OccursInSuffix(s[..|s| - WINDOW], s[|s| - WINDOW..], tokens[k]);
    }
  }

  /** A bounded search does not miss `tok` when `c` follows `s`. */
  predicate Caught(s: seq<byte>, c: seq<byte>, tok: seq<byte>) {
    Occurs(s + c, tok) ==> Occurs(s, tok) || Occurs(Newest(s + c, WINDOW), tok)
  }

  lemma SmallChunkCaught(s: seq<byte>, c: seq<byte>, tok: seq<byte>)
    requires |c| + |tok| <= WINDOW + 1
    ensures Caught(s, c, tok)
  {
    var t := s + c;
    if Occurs(t, tok) && !Occurs(s, tok) {
      var i :| 0 <= i <= |t| && OccursAt(t, tok, i);
      if i + |tok| <= |s| {
        OccursAtFront(s, c, tok, i);
      }
      if |t| > WINDOW {
        var n := |t| - WINDOW;
        OccursAtTail(t, n, tok, i);
        assert OccursAt(Newest(t, WINDOW), tok, i - n);
      }
    }
  }

  lemma TailOfConcat(a: seq<byte>, b: seq<byte>)
    requires a != [] && |a + b| == WINDOW + 1
    ensures Newest(a + b, WINDOW) == a[1..] + b
  {
    assert (a + b)[1..] == a[1..] + b;
  }

  /** The chunk that loses a token: its first byte completes it, the rest pushes its head out of the window. */
  lemma BigChunkMissed(tok: seq<byte>, pad: byte) returns (s: seq<byte>, c: seq<byte>)
    requires tok != [] && pad != tok[|tok| - 1]
    ensures s == tok[..|tok| - 1] && |c| == if |tok| <= WINDOW then WINDOW + 2 - |tok| else 1
    ensures Occurs(s + c, tok) && !Occurs(s, tok) && !Occurs(Newest(s + c, WINDOW), tok)
  {
    var m := |tok|;
    var filler := seq(if m <= WINDOW then WINDOW + 1 - m else 0, i => pad);
    s, c := tok[..m - 1], [tok[m - 1]] + filler;
    assert tok == s + [tok[m - 1]];
    Assoc(s, [tok[m - 1]], filler);
    OccursAtFront(tok, filler, tok, 0);
    assert tok[0..m] == tok && s + c == tok + filler;
    assert OccursAt(s + c, tok, 0);
    var w := Newest(s + c, WINDOW);
    if m <= WINDOW {
      TailOfConcat(tok, filler);
      forall i ensures !OccursAt(w, tok, i) {
        if 0 <= i && i + m <= |w| {
          OccursAtByElement(w, tok, i);
          assert w[i + (m - 1)] == pad != tok[m - 1];
        }
      }
    }
  }

  function Unlike(x: byte): byte {
    if x == 0 then 1 else 0
  }

  /** Chunks of up to `b` bytes leave no token unseen. */
  predicate Suffices(b: nat, tok: seq<byte>) {
    tok == [] || b == 0 || b + |tok| <= WINDOW + 1
  }

  /** The exact bound for one chunk: chunks of up to `b` bytes never hide a token iff `b + |tok| <= 1025`, if any byte comes. */
  lemma ChunkBoundIsExact(b: nat, tok: seq<byte>)
    ensures Suffices(b, tok) <==> forall s: seq<byte>, c: seq<byte> :: |c| <= b ==> Caught(s, c, tok)
  {
    if Suffices(b, tok) {
      forall s: seq<byte>, c: seq<byte> | |c| <= b ensures Caught(s, c, tok) {
        if tok == [] {
          assert OccursAt(s, tok, 0);
        } else if b == 0 {
          assert s + c == s;
        } else {
          SmallChunkCaught(s, c, tok);
        }
      }
    } else {
      var s, c := BigChunkMissed(tok, Unlike(tok[|tok| - 1]));
      assert |c| <= b && !Caught(s, c, tok);
    }
  }

  /** No chunk of the run is longer than `b`. */
  predicate Within(ops: seq<Op>, b: nat) {
    forall i :: 0 <= i < |ops| && ops[i].Chunk? ==> |ops[i].bytes| <= b
  }

  predicate Agrees(ops: seq<Op>, tok: seq<byte>) {
    Reported(ops, [tok]) <==> Arrived(ops, [tok])
  }

  /** One byte at a time. */
  function Bytewise(s: seq<byte>): seq<Op> {
    if s == [] then [] else Bytewise(s[..|s| - 1]) + [Chunk([s[|s| - 1]])]
  }

  lemma TooShort(s: seq<byte>, tok: seq<byte>)
    requires |s| < |tok|
    ensures !AnyOccurs(Newest(s, WINDOW), [tok])
  {
  }

  lemma {:induction false} BytewiseIsWhole(s: seq<byte>, tok: seq<byte>)
    requires |s| < |tok|
    ensures Flat(Since(Bytewise(s))) == s && !Muted(Bytewise(s)) && Within(Bytewise(s), 1)
    ensures !Reported(Bytewise(s), [tok])
  {
    hide Reported, AnyOccurs, Newest, Since, Muted, Flat, Within;
    if s == [] {
      NothingYet([tok]);
    } else {
      var init, x := s[..|s| - 1], s[|s| - 1];
      var front := Bytewise(init);
      BytewiseIsWhole(init, tok);
      HistorySnoc(front, Chunk([x]));
      FlatAppend(Since(front), [x]);
      ReportedSnoc(front, Chunk([x]), [tok]);
      WithinSnoc(front, [x], 1);
      assert init + [x] == s;
      TooShort(s, tok);
    }
  }

  lemma NothingYet(tokens: seq<seq<byte>>)
    ensures !Reported([], tokens) && !Arrived([], tokens) && Flat(Since([])) == [] && !Muted([]) && Within([], 1)
  {
  }

  lemma WithinSnoc(ops: seq<Op>, c: seq<byte>, b: nat)
    requires Within(ops, b) && |c| <= b
    ensures Within(ops + [Chunk(c)], b)
  {
  }

  lemma {:induction false} NothingToSee(ops: seq<Op>, tok: seq<byte>)
    requires Within(ops, 0) && tok != []
    ensures Flat(Since(ops)) == [] && !Arrived(ops, [tok])
    decreases |ops|
  {
    if ops != [] {
      var init := ops[..|ops| - 1];
      assert forall i :: 0 <= i < |init| ==> init[i] == ops[i];
      NothingToSee(init, tok);
    }
  }

  lemma {:induction false} EmptyTokenAgrees(ops: seq<Op>)
    ensures Agrees(ops, [])
    decreases |ops|
  {
    if ops != [] {
      EmptyTokenAgrees(ops[..|ops| - 1]);
      var s := Flat(Since(ops));
      assert OccursAt(s, [], 0) && OccursAt(Newest(s, WINDOW), [], 0);
      var toks: seq<seq<byte>> := [[]];
      assert Occurs(s, toks[0]) && Occurs(Newest(s, WINDOW), toks[0]);
    }
  }

  /** The run in which the watchdog misses the token. */
  lemma RunMissed(b: nat, tok: seq<byte>) returns (ops: seq<Op>)
    requires !Suffices(b, tok)
    ensures Within(ops, b) && Arrived(ops, [tok]) && !Reported(ops, [tok])
  {
    hide Reported, Newest, Flat, Bytewise, Muted, Since, Within, Occurs;
    var s, c := BigChunkMissed(tok, Unlike(tok[|tok| - 1]));
    var front := Bytewise(s);
    BytewiseIsWhole(s, tok);
    ops := front + [Chunk(c)];
    HistorySnoc(front, Chunk(c));
    FlatAppend(Since(front), c);
    ReportedSnoc(front, Chunk(c), [tok]);
    assert Occurs(Flat(Since(ops)), [tok][0]);
    Widened(front, 1, b);
    WithinSnoc(front, c, b);
  }

  lemma Widened(ops: seq<Op>, a: nat, b: nat)
    requires Within(ops, a) && a <= b
    ensures Within(ops, b)
  {
  }

  /**
   The exact bound over whole runs, mute switches included: with chunks of up to `b` bytes the window reports a panic
   exactly in the runs in which an unbounded search would find one, if and only if `b` suffices.
   */
  lemma RunBoundIsExact(b: nat, tok: seq<byte>)
    ensures Suffices(b, tok) <==> forall ops :: Within(ops, b) ==> Agrees(ops, tok)
  {
    if Suffices(b, tok) {
      forall ops | Within(ops, b) ensures Agrees(ops, tok) {
        if tok == [] {
          EmptyTokenAgrees(ops);
        } else if b == 0 {
          NothingToSee(ops, tok);
          if Reported(ops, [tok]) {
            RunIsSound(ops, [tok]);
          }
        } else {
          RunIsExact(ops, [tok]);
        }
      }
    } else {
      var ops := RunMissed(b, tok);
      assert Within(ops, b) && !Agrees(ops, tok);
    }
  }
}
