/** The bare-metal RPC packet, its additive checksum, and the client's read-to-delimiter receive loop. */
module McuRpc {
  import opened Sequences
  import opened Cobs

  const MODULUS := 65536

  function Le16(n: int): (r: seq<byte>)
    requires 0 <= n < MODULUS
    ensures |r| == 2
  {
    [(n % 256) as byte, (n / 256) as byte]
  }

  function From16(lo: byte, hi: byte): int {
    lo + 256 * hi
  }

  function Sum(s: seq<byte>): nat {
    if s == [] then 0 else Sum(s[..|s| - 1]) + s[|s| - 1]
  }

  /** The unframed request; `None` where `struct.pack` refuses a field that is not an unsigned short. */
  function Packet(methodId: int, payload: seq<byte>): Option<seq<byte>> {
    if 0 <= methodId < MODULUS && |payload| < MODULUS then
      var body := Le16(methodId) + Le16(|payload|) + payload;
      Some(body + Le16(Sum(body) % MODULUS))
    else
      None
  }

  predicate ChecksumHolds(u: seq<byte>)
    requires |u| >= 2
  {
    From16(u[|u| - 2], u[|u| - 1]) == Sum(u[..|u| - 2]) % MODULUS
  }

  /** What the client makes of an unframed reply. The length field is read but never compared. */
  function Accept(methodId: int, u: seq<byte>): Option<seq<byte>> {
    if |u| < 6 then None
    else if !ChecksumHolds(u) then None
    else if From16(u[0], u[1]) != methodId then None
    else Some(u[4..|u| - 2])
  }

  /** One `rx_func(1)`: nothing yet, or one byte. */
  datatype Read = Silence | Got(b: byte)

  function Bytes(rx: seq<Read>): seq<byte> {
    if rx == [] then []
    else (match rx[0] case Silence => [] case Got(b) => [b]) + Bytes(rx[1..])
  }

  datatype Received = Received(frame: seq<byte>, used: nat)

  /** The bytes up to and including the first delimiter, and how many reads they took. */
  function ReadFrame(rx: seq<Read>): (r: Option<Received>)
    ensures r.Some? ==> 0 < r.value.used <= |rx| && r.value.frame != []
  {
    if rx == [] then None
    else if rx[0] == Got(0) then Some(Received([0], 1))
    else
      var r := ReadFrame(rx[1..]);
      if r.None? then None
      else
        var head := match rx[0] case Silence => [] case Got(b) => [b];
        Some(Received(head + r.value.frame, r.value.used + 1))
  }

  /** Successive receptions on one line, each unframed as the client does. */
  function ReceiveAll(rx: seq<Read>): seq<seq<byte>>
    decreases |rx|
  {
    var r := ReadFrame(rx);
    if r.None? then []
    else [Decode(r.value.frame[..|r.value.frame| - 1])] + ReceiveAll(rx[r.value.used..])
  }

  /** The frames of `msgs`, back to back. */
  function Wire(msgs: seq<seq<byte>>): seq<byte> {
    if msgs == [] then [] else Encode(msgs[0]) + Wire(msgs[1..])
  }

  lemma {:induction false} ReadFrameFinds(rx: seq<Read>, f: seq<byte>, more: seq<byte>)
    requires NoZero(f) && Bytes(rx) == f + [0] + more
    ensures var r := ReadFrame(rx);
            r.Some? && r.value.frame == f + [0] && Bytes(rx[r.value.used..]) == more
    decreases |rx|
  {
    var rest := rx[1..];
    match rx[0]
    case Silence =>
      assert Bytes(rx) == Bytes(rest);
      ReadFrameFinds(rest, f, more);
      assert rest[ReadFrame(rest).value.used..] == rx[ReadFrame(rx).value.used..];
    case Got(b) =>
      assert Bytes(rx) == [b] + Bytes(rest);
      assert Bytes(rest) == (f + [0] + more)[1..];
      assert b == (f + [0] + more)[0];
      if f == [] {
        assert Bytes(rest) == more;
      } else {
        assert (f + [0] + more)[1..] == f[1..] + [0] + more;
        ReadFrameFinds(rest, f[1..], more);
        assert rest[ReadFrame(rest).value.used..] == rx[ReadFrame(rx).value.used..];
        assert [f[0]] + (f[1..] + [0]) == f + [0];
      }
  }

  lemma {:induction false} NothingLeft(rx: seq<Read>)
    requires Bytes(rx) == []
    ensures ReadFrame(rx).None?
  {
    if rx != [] {
      assert Bytes(rx) == (match rx[0] case Silence => [] case Got(b) => [b]) + Bytes(rx[1..]);
      NothingLeft(rx[1..]);
    }
  }

  /** Frames are self-delimiting: any message list survives the wire, wherever the line falls silent. */
  lemma {:induction false} StreamRoundTrip(msgs: seq<seq<byte>>, rx: seq<Read>)
    requires Bytes(rx) == Wire(msgs)
    ensures ReceiveAll(rx) == msgs
    decreases |msgs|
  {
    if msgs == [] {
      NothingLeft(rx);
    } else {
      var frame := Encode(msgs[0]);
      var f := frame[..|frame| - 1];
      OnlyZeroIsLast(msgs[0]);
      RoundTrip(msgs[0]);
      assert frame == f + [0];
      ReadFrameFinds(rx, f, Wire(msgs[1..]));
      var r := ReadFrame(rx).value;
      assert r.frame[..|r.frame| - 1] == f;
      StreamRoundTrip(msgs[1..], rx[r.used..]);
      Split1(msgs);
    }
  }

  /** A reply with the client's own packet layout comes back payload-exact. */
  lemma AcceptsOwnLayout(methodId: int, payload: seq<byte>)
    requires Packet(methodId, payload).Some?
    ensures Accept(methodId, Packet(methodId, payload).value) == Some(payload)
  {
    var body := Le16(methodId) + Le16(|payload|) + payload;
    var u := Packet(methodId, payload).value;
    assert u[..|u| - 2] == body;
    assert u[4..|u| - 2] == payload;
    assert u[0] == Le16(methodId)[0] && u[1] == Le16(methodId)[1];
    assert u[|u| - 2] == Le16(Sum(body) % MODULUS)[0] && u[|u| - 1] == Le16(Sum(body) % MODULUS)[1];
  }

  /** The packet on the wire: method, length, payload and checksum, each field with its low byte first. */
  lemma PacketLayout(methodId: int, payload: seq<byte>)
    requires 0 <= methodId < 65536 && |payload| < 65536
    ensures var u := Packet(methodId, payload);
            && u.Some? && |u.value| == |payload| + 6
            && u.value[0] as int + 256 * u.value[1] as int == methodId && u.value[2] as int + 256 * u.value[3] as int == |payload|
            && u.value[4..|u.value| - 2] == payload && ChecksumHolds(u.value)
  {
    var body := Le16(methodId) + Le16(|payload|) + payload;
    var u := Packet(methodId, payload).value;
    assert u[..|u| - 2] == body && u[4..|u| - 2] == payload;
    assert u[0] == Le16(methodId)[0] && u[1] == Le16(methodId)[1];
    assert u[2] == Le16(|payload|)[0] && u[3] == Le16(|payload|)[1];
  }

  /** The answer to another method is refused, valid as it is. */
  lemma OtherMethodRefused(asked: int, answered: int, payload: seq<byte>)
    requires Packet(answered, payload).Some? && asked != answered
    ensures Accept(asked, Packet(answered, payload).value) == None
  {
    PacketLayout(answered, payload);
  }

  /** What is accepted with a true length field is the packet itself, and nothing else is. */
  lemma AcceptedIffPacket(methodId: int, u: seq<byte>, payload: seq<byte>)
    ensures Packet(methodId, payload) == Some(u) <==>
            Accept(methodId, u) == Some(payload) && u[2] as int + 256 * u[3] as int == |payload|
  {
    if Packet(methodId, payload) == Some(u) {
      PacketLayout(methodId, payload);
    }
    if Accept(methodId, u) == Some(payload) && u[2] as int + 256 * u[3] as int == |payload| {
      PacketLayout(methodId, payload);
      var v := Packet(methodId, payload).value;
      SameField(u[0], u[1], v[0], v[1]);
      SameField(u[2], u[3], v[2], v[3]);
      assert u[..|u| - 2] == [u[0], u[1], u[2], u[3]] + u[4..|u| - 2];
      assert v[..|v| - 2] == [v[0], v[1], v[2], v[3]] + v[4..|v| - 2];
      SameField(u[|u| - 2], u[|u| - 1], v[|v| - 2], v[|v| - 1]);
      assert u == u[..|u| - 2] + [u[|u| - 2], u[|u| - 1]] && v == v[..|v| - 2] + [v[|v| - 2], v[|v| - 1]];
    }
  }

  lemma SameField(a: byte, b: byte, c: byte, d: byte)
    requires a as int + 256 * b as int == c as int + 256 * d as int
    ensures a == c && b == d
  {
  }

  lemma {:induction false} SumUpdate(s: seq<byte>, i: nat, b: byte)
    requires i < |s|
    ensures Sum(s[i := b]) == Sum(s) - s[i] + b
  {
    var t := s[i := b];
    if i == |s| - 1 {
      assert t[..|s| - 1] == s[..|s| - 1];
    } else {
      assert t[..|s| - 1] == s[..|s| - 1][i := b];
      SumUpdate(s[..|s| - 1], i, b);
    }
  }

  /** Any single wrong byte, in the header, the payload or the checksum, is rejected for every method. */
  lemma SingleByteErrorRejected(u: seq<byte>, i: nat, b: byte, methodId: int)
    requires |u| >= 6 && ChecksumHolds(u) && i < |u| && b != u[i]
    ensures Accept(methodId, u[i := b]) == None
  {
    var v, n := u[i := b], |u| - 2;
    if i < n {
      assert v[..n] == u[..n][i := b];
      SumUpdate(u[..n], i, b);
      var s := Sum(u[..n]);
      assert Sum(v[..n]) == s - u[i] + b;
      assert (s - u[i] + b) % MODULUS != s % MODULUS by {
        Shifted(s, b - u[i]);
      }
    } else {
      assert v[..n] == u[..n];
    }
  }

  lemma Shifted(s: nat, delta: int)
    requires 0 <= s + delta && delta != 0 && -256 < delta < 256
    ensures (s + delta) % MODULUS != s % MODULUS
  {
    var q := s / MODULUS;
    assert s == q * MODULUS + s % MODULUS;
    var q' := (s + delta) / MODULUS;
    assert s + delta == q' * MODULUS + (s + delta) % MODULUS;
    assert (s + delta) % MODULUS == s % MODULUS ==> delta == (q' - q) * MODULUS;
  }

  /** The limit of an additive checksum: exchanging two bytes in front of it always goes unnoticed. */
  lemma TranspositionAccepted(u: seq<byte>, i: nat, j: nat)
    requires |u| >= 6 && ChecksumHolds(u) && i < j < |u| - 2
    ensures ChecksumHolds(u[i := u[j]][j := u[i]])
  {
    var n := |u| - 2;
    var w: seq<byte> := u[..n];
    var half: seq<byte> := w[i := u[j]];
    SumUpdate(w, i, u[j]);
    SumUpdate(half, j, u[i]);
    assert u[i := u[j]][j := u[i]][..n] == half[j := u[i]];
  }

  /** A reception that starts after `head` was already read in `k` reads. */
  function Resume(head: seq<byte>, k: nat, r: Option<Received>): Option<Received> {
    if r.None? then None else Some(Received(head + r.value.frame, k + r.value.used))
  }

  lemma ResumeAt(rx: seq<Read>, k: nat, head: seq<byte>)
    requires k < |rx| && rx[k] != Got(0)
    ensures var head' := head + (match rx[k] case Silence => [] case Got(b) => [b]);
            && head + Bytes(rx[k..]) == head' + Bytes(rx[k + 1..])
            && Resume(head, k, ReadFrame(rx[k..])) == Resume(head', k + 1, ReadFrame(rx[k + 1..]))
  {
    var rest := rx[k..];
    var got := match rx[k] case Silence => [] case Got(b) => [b];
    assert rest[1..] == rx[k + 1..];
    Assoc(head, got, Bytes(rest[1..]));
    if ReadFrame(rest[1..]).Some? {
      Assoc(head, got, ReadFrame(rest[1..]).value.frame);
    }
  }

  /** The receive loop: keep every byte, stop at the delimiter. `rx` ends where the deadline passes. */
  method Receive(rx: seq<Read>) returns (buffer: seq<byte>, used: nat, delimited: bool)
    ensures delimited <==> ReadFrame(rx).Some?
    ensures delimited ==> ReadFrame(rx).value == Received(buffer, used)
    ensures !delimited ==> buffer == Bytes(rx)
  {
    buffer, used, delimited := [], 0, false;
    assert rx[0..] == rx && [] + Bytes(rx) == Bytes(rx);
    assert ReadFrame(rx).Some? ==> [] + ReadFrame(rx).value.frame == ReadFrame(rx).value.frame;
    while used < |rx|
      invariant used <= |rx| && !delimited
      invariant Bytes(rx) == buffer + Bytes(rx[used..])
      invariant ReadFrame(rx) == Resume(buffer, used, ReadFrame(rx[used..]))
    {
      var chunk := rx[used];
      if chunk == Got(0) {
        assert ReadFrame(rx[used..]) == Some(Received([0], 1));
        buffer, used, delimited := buffer + [0], used + 1, true;
        return;
      }
      ResumeAt(rx, used, buffer);
      used := used + 1;
      match chunk
      case Silence =>
        assert buffer + [] == buffer;
      case Got(b) =>
        buffer := buffer + [b];
    }
    assert Bytes(rx[used..]) == [] && buffer + [] == buffer;
  }

  /** A call: the framed request, then the reply. `late` is the second look at the clock, after the loop. */
  method CallRaw(methodId: int, payload: seq<byte>, rx: seq<Read>, late: bool)
      returns (sent: Option<seq<byte>>, reply: Option<seq<byte>>)
    ensures sent.Some? <==> Packet(methodId, payload).Some?
    ensures sent.Some? ==> sent.value == Encode(Packet(methodId, payload).value)
    ensures sent.None? || late || ReadFrame(rx).None? ==> reply == None
    ensures sent.Some? && !late && ReadFrame(rx).Some? ==>
              var frame := ReadFrame(rx).value.frame;
              reply == Accept(methodId, Decode(frame[..|frame| - 1]))
  {
    sent, reply := None, None;
    var packet := Packet(methodId, payload);
    if packet.None? {
      return;
    }
    var framed := EncodeFrame(packet.value);
    sent := Some(framed);
    var buffer, used, delimited := Receive(rx);
    if late || !delimited {
      return;
    }
    var unframed := DecodeFrame(buffer[..|buffer| - 1]);
    reply := Accept(methodId, unframed);
  }

  /** A faithful peer's answer, arriving with any silences and followed by anything, is returned exactly. */
  method CallAnswered(methodId: int, payload: seq<byte>, answer: seq<byte>, rx: seq<Read>, more: seq<byte>)
      returns (reply: Option<seq<byte>>)
    requires Packet(methodId, payload).Some? && Packet(methodId, answer).Some?
    requires Bytes(rx) == Encode(Packet(methodId, answer).value) + more
    ensures reply == Some(answer)
  {
    ghost var packet := Packet(methodId, answer).value;
    ghost var frame := Encode(packet);
    ghost var f := frame[..|frame| - 1];
    OnlyZeroIsLast(packet);
    RoundTrip(packet);
    assert frame == f + [0];
    ReadFrameFinds(rx, f, more);
    AcceptsOwnLayout(methodId, answer);
    assert (f + [0])[..|f|] == f;
    var _, r := CallRaw(methodId, payload, rx, false);
    reply := r;
  }
}
