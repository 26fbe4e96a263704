/** KITL frames over a serial line: the encoder, and a receiver that keeps what it has between polls. */
module KitlSerial {

  const HEADER: nat := 10
  const PACKET_TYPE: nat := 0xAA

  type Byte = b: nat | b < 256 witness 0

  // ---------------------------------------------------------------- frames

  function Sum(s: seq<Byte>): nat {
    if s == [] then 0 else Sum(s[..|s| - 1]) + s[|s| - 1]
  }

  /** `ChkSum`: the sum in eight bits. */
  function ChkSum(s: seq<Byte>): Byte {
    Sum(s) % 256
  }

  lemma {:induction false} SumAdds(s: seq<Byte>, t: seq<Byte>)
    ensures Sum(s + t) == Sum(s) + Sum(t)
    decreases |t|
  {
    if t == [] {
      assert s + t == s;
    } else {
      SumAdds(s, t[..|t| - 1]);
      assert (s + t)[..|s + t| - 1] == s + t[..|t| - 1];
    }
  }

  lemma {:induction false} InEightBits(a: nat, b: nat)
    ensures (a + b) % 256 == (a % 256 + b % 256) % 256
  {
  }

  /** The checksum adds up bytes in eight bits, however they are grouped. */
  lemma {:induction false} ChkSumAdds(s: seq<Byte>, t: seq<Byte>)
    ensures ChkSum(s + t) == (ChkSum(s) as nat + ChkSum(t) as nat) % 256
  {
    SumAdds(s, t);
    InEightBits(Sum(s), Sum(t));
  }

  /** It starts from nothing. */
  lemma {:induction false} ChkSumOfOne(b: Byte)
    ensures ChkSum([b]) == b && ChkSum([]) == 0
  {
    assert [b][..|[b]| - 1] == [];
    assert Sum([b]) == Sum([]) + b;
  }

  /** The change of any single byte changes the checksum. */
  lemma {:induction false} ChkSumTells(s: seq<Byte>, i: nat, b: Byte)
    requires i < |s|
    ensures ChkSum(s[i := b]) == ChkSum(s) <==> b == s[i]
  {
    assert s == s[..i] + ([s[i]] + s[i + 1..]) && s[i := b] == s[..i] + ([b] + s[i + 1..]);
    ChkSumAdds(s[..i], [s[i]] + s[i + 1..]);
    ChkSumAdds([s[i]], s[i + 1..]);
    ChkSumAdds(s[..i], [b] + s[i + 1..]);
    ChkSumAdds([b], s[i + 1..]);
    ChkSumOfOne(s[i]);
    ChkSumOfOne(b);
    DifferentSums(ChkSum(s[..i]), s[i], b, ChkSum(s[i + 1..]));
  }

  lemma {:induction false} DifferentSums(a: nat, b: nat, c: nat, d: nat)
    requires a < 256 && b < 256 && c < 256 && d < 256
    ensures (a + (b + d) % 256) % 256 == (a + (c + d) % 256) % 256 <==> b == c
  {
  }

  function PayloadSize(buf: seq<Byte>): nat
    requires |buf| >= HEADER
  {
    buf[6] as nat + 256 * (buf[7] as nat)
  }

  /** The header test of `SerialRecv`; the signature is not looked at. */
  predicate HeaderOk(buf: seq<Byte>, mtu: nat)
    requires |buf| >= HEADER && mtu >= HEADER
  {
    buf[4] == PACKET_TYPE && buf[9] == ChkSum(buf[..9]) && PayloadSize(buf) <= mtu - HEADER
  }

  /** The header `SerialEncode` puts before a payload; it leaves the reserved byte as it is. */
  function Header(payload: seq<Byte>, reserved: Byte): (h: seq<Byte>)
    requires |payload| < 0x1_0000
    ensures |h| == HEADER
  {
    var h := ['k' as nat, 'I' as nat, 'T' as nat, 'L' as nat, PACKET_TYPE, reserved,
              |payload| % 256, |payload| / 256, ChkSum(payload)];
    h + [ChkSum(h)]
  }

  function Encode(payload: seq<Byte>, reserved: Byte): (f: seq<Byte>)
    requires |payload| < 0x1_0000
    ensures |f| == HEADER + |payload|
  {
    Header(payload, reserved) + payload
  }

  /** `SerialDecode`. */
  function Decode(f: seq<Byte>): seq<Byte>
    requires |f| >= HEADER
  {
    f[HEADER..]
  }

  // ---------------------------------------------------------------- the receiver

  datatype Outcome = More | Reject | Accept(frame: seq<Byte>)

  /** One call of `SerialRecv` with `buf` kept from before, `fifo` waiting on the line and room for `limit`
      bytes at the caller: the outcome, what is kept, and what stays on the line. */
  function Recv(buf: seq<Byte>, fifo: seq<Byte>, mtu: nat, limit: nat): (Outcome, seq<Byte>, seq<Byte>)
    requires mtu >= HEADER
    decreases |fifo|
  {
    if |buf| < HEADER then
      if fifo == [] then (More, buf, []) else Recv(buf + [fifo[0]], fifo[1..], mtu, limit)
    else if !HeaderOk(buf, mtu) then (Reject, [], fifo)
    else if |buf| < HEADER + PayloadSize(buf) then
      if fifo == [] then (More, buf, []) else Recv(buf + [fifo[0]], fifo[1..], mtu, limit)
    else if buf[8] != ChkSum(buf[HEADER..HEADER + PayloadSize(buf)]) || |buf| > limit then (Reject, [], fifo)
    else (Accept(buf), [], fifo)
  }

  /** What the receiver may hold between polls: no more than a frame that it still accepts could have. */
  predicate Kept(buf: seq<Byte>, mtu: nat)
    requires mtu >= HEADER
  {
    |buf| < HEADER || (HeaderOk(buf, mtu) && |buf| < HEADER + PayloadSize(buf))
  }

  /** Between polls the receiver holds less than the MTU, and it is empty after every accept or reject. */
  lemma {:induction false} RecvIsBounded(buf: seq<Byte>, fifo: seq<Byte>, mtu: nat, limit: nat)
    requires mtu >= HEADER && (Kept(buf, mtu) || |buf| == HEADER || (HeaderOk(buf, mtu) && |buf| == HEADER + PayloadSize(buf)))
    ensures var (out, buf', _) := Recv(buf, fifo, mtu, limit);
            && Kept(buf', mtu) && |buf'| < mtu && (!out.More? ==> buf' == [])
            && (out.Accept? ==> |out.frame| <= mtu)
    decreases |fifo|
  {
    if |buf| < HEADER {
      if fifo != [] {
        RecvIsBounded(buf + [fifo[0]], fifo[1..], mtu, limit);
      }
    } else if HeaderOk(buf, mtu) && |buf| < HEADER + PayloadSize(buf) && fifo != [] {
      assert (buf + [fifo[0]])[..9] == buf[..9];
      RecvIsBounded(buf + [fifo[0]], fifo[1..], mtu, limit);
    }
  }

  /** A frame the receiver takes. */
  predicate ValidFrame(f: seq<Byte>, mtu: nat)
    requires mtu >= HEADER
  {
    && |f| >= HEADER && HeaderOk(f, mtu) && |f| == HEADER + PayloadSize(f)
    && f[8] == ChkSum(f[HEADER..])
  }

  /** What that means byte by byte: the packet type, the payload's size low byte first, the payload's checksum, and
      the checksum of the nine bytes before it. */
  lemma {:induction false} ValidFrameLayout(f: seq<Byte>, mtu: nat)
    requires mtu >= HEADER
    ensures ValidFrame(f, mtu) <==>
              && 10 <= |f| <= mtu && f[4] == 0xAA && f[6] as nat + 256 * (f[7] as nat) == |f| - 10
              && f[8] == ChkSum(f[10..]) && f[9] == ChkSum(f[..9])
  {
  }

  /** Nothing else is taken: an accepted frame is valid, fits the caller's room, and is what was kept and what the
      poll has read, in order. */
  lemma {:induction false} OnlyValidFrames(buf: seq<Byte>, fifo: seq<Byte>, mtu: nat, limit: nat)
    requires mtu >= HEADER && (Kept(buf, mtu) || |buf| == HEADER || (HeaderOk(buf, mtu) && |buf| == HEADER + PayloadSize(buf)))
    ensures var (out, _, rest) := Recv(buf, fifo, mtu, limit);
            out.Accept? ==> ValidFrame(out.frame, mtu) && |out.frame| <= limit && buf + fifo == out.frame + rest
    decreases |fifo|
  {
    if |buf| < HEADER {
      if fifo != [] {
        OnlyValidFrames(buf + [fifo[0]], fifo[1..], mtu, limit);
        assert buf + fifo == buf + [fifo[0]] + fifo[1..];
      }
    } else if HeaderOk(buf, mtu) && |buf| < HEADER + PayloadSize(buf) && fifo != [] {
      assert (buf + [fifo[0]])[..9] == buf[..9];
      assert buf + fifo == buf + [fifo[0]] + fifo[1..];
      OnlyValidFrames(buf + [fifo[0]], fifo[1..], mtu, limit);
    } else if HeaderOk(buf, mtu) && |buf| == HEADER + PayloadSize(buf) {
      assert buf[HEADER..HEADER + PayloadSize(buf)] == buf[HEADER..];
    }
  }

  /** The frame of a payload, byte by byte. */
  lemma {:induction false} EncodeLayout(payload: seq<Byte>, reserved: Byte)
    requires |payload| < 0x1_0000
    ensures var f := Encode(payload, reserved);
            && |f| == 10 + |payload| && f[..4] == ['k' as nat, 'I' as nat, 'T' as nat, 'L' as nat]
            && f[4] == 0xAA && f[5] == reserved && f[6] as nat + 256 * (f[7] as nat) == |payload|
            && f[8] == ChkSum(payload) && f[9] == ChkSum(f[..9]) && f[10..] == payload
  {
    var f := Encode(payload, reserved);
    assert f[..9] == Header(payload, reserved)[..9];
  }

  lemma {:induction false} EncodeIsValid(payload: seq<Byte>, reserved: Byte, mtu: nat)
    requires |payload| < 0x1_0000 && mtu >= HEADER && |payload| <= mtu - HEADER
    ensures ValidFrame(Encode(payload, reserved), mtu) && Decode(Encode(payload, reserved)) == payload
  {
    var f := Encode(payload, reserved);
    assert f[HEADER..] == payload;
    assert f[..9] == Header(payload, reserved)[..9];
  }

  /** One poll while the line carries frame `f`, of which `buf` was taken before: the receiver keeps
      everything until the frame is whole, then returns it and leaves what follows on the line. */
  lemma {:induction false} PollOfFrame(f: seq<Byte>, buf: seq<Byte>, fifo: seq<Byte>, mtu: nat, limit: nat)
    requires mtu >= HEADER && ValidFrame(f, mtu) && |f| <= limit && buf <= f
    requires (buf + fifo <= f) || (f <= buf + fifo)
    ensures var n := |f| - |buf|;
            Recv(buf, fifo, mtu, limit)
            == if |fifo| < n then (More, buf + fifo, []) else (Accept(f), [], fifo[n..])
    decreases |fifo|
  {
    if |buf| < |f| {
      HeaderAhead(f, buf, mtu);
      if fifo == [] {
        assert buf + fifo == buf;
      } else {
        NextByte(f, buf, fifo);
        PollOfFrame(f, buf + [fifo[0]], fifo[1..], mtu, limit);
        assert buf + [fifo[0]] + fifo[1..] == buf + fifo;
      }
    } else {
      assert buf == f && fifo[0..] == fifo;
      assert f[HEADER..HEADER + PayloadSize(f)] == f[HEADER..];
    }
  }

  lemma {:induction false} HeaderAhead(f: seq<Byte>, buf: seq<Byte>, mtu: nat)
    requires mtu >= HEADER && ValidFrame(f, mtu) && buf <= f && |buf| < |f|
    ensures |buf| >= HEADER ==> HeaderOk(buf, mtu) && PayloadSize(buf) == PayloadSize(f)
  {
    if |buf| >= HEADER {
      assert buf[..9] == f[..9];
    }
  }

  lemma {:induction false} NextByte(f: seq<Byte>, buf: seq<Byte>, fifo: seq<Byte>)
    requires buf <= f && |buf| < |f| && fifo != []
    requires (buf + fifo <= f) || (f <= buf + fifo)
    ensures buf + [fifo[0]] <= f
    ensures (buf + [fifo[0]] + fifo[1..] <= f) || (f <= buf + [fifo[0]] + fifo[1..])
  {
    assert buf + [fifo[0]] + fifo[1..] == buf + fifo;
    assert (buf + fifo)[|buf|] == fifo[0];
  }

  // ---------------------------------------------------------------- streams

  function Concat(parts: seq<seq<Byte>>): seq<Byte> {
    if parts == [] then [] else parts[0] + Concat(parts[1..])
  }

  /** One poll per entry of `arrivals`, which is what reached the line since the poll before: the frames
      returned, what is kept, and what is left on the line. */
  function Polls(buf: seq<Byte>, line: seq<Byte>, arrivals: seq<seq<Byte>>, mtu: nat, limit: nat):
    (seq<seq<Byte>>, seq<Byte>, seq<Byte>)
    requires mtu >= HEADER
    decreases |arrivals|
  {
    if arrivals == [] then ([], buf, line)
    else
      var (out, buf1, line1) := Recv(buf, line + arrivals[0], mtu, limit);
      var (frames, buf2, line2) := Polls(buf1, line1, arrivals[1..], mtu, limit);
      ((if out.Accept? then [out.frame] else []) + frames, buf2, line2)
  }

  ghost predicate AllValid(frames: seq<seq<Byte>>, mtu: nat, limit: nat)
    requires mtu >= HEADER
  {
    forall i :: 0 <= i < |frames| ==> ValidFrame(frames[i], mtu) && |frames[i]| <= limit
  }

  /** `buf` is the beginning of the first frame and not all of it. */
  predicate Begun(buf: seq<Byte>, frames: seq<seq<Byte>>) {
    if frames == [] then buf == [] else buf <= frames[0] && |buf| < |frames[0]|
  }

  lemma {:induction false} FirstFrame(f: seq<Byte>, buf: seq<Byte>, line: seq<Byte>, later: seq<Byte>, rest: seq<Byte>)
    requires buf <= f && buf + line + later == f + rest
    ensures (buf + line <= f) || (f <= buf + line)
    ensures |line| >= |f| - |buf| ==> line[|f| - |buf|..] + later == rest
  {
    var all := f + rest;
    assert buf + line == all[..|buf + line|];
    assert f == all[..|f|];
    if |line| >= |f| - |buf| {
      assert all[|f|..] == rest;
      assert (buf + line + later)[|f|..] == line[|f| - |buf|..] + later;
    }
  }

  /** However the bytes of a list of frames are split over polls: the frames returned are the first ones
      of the list in order, each once, and nothing of the others is lost. */
  lemma {:induction false} StreamKeepsFrames(frames: seq<seq<Byte>>, buf: seq<Byte>, line: seq<Byte>,
                                             arrivals: seq<seq<Byte>>, mtu: nat, limit: nat)
    requires mtu >= HEADER && AllValid(frames, mtu, limit) && Begun(buf, frames)
    requires buf + line + Concat(arrivals) == Concat(frames)
    ensures var (got, buf', line') := Polls(buf, line, arrivals, mtu, limit);
            && got <= frames && Begun(buf', frames[|got|..]) && buf' + line' == Concat(frames[|got|..])
    decreases |arrivals|, 0
  {
    if arrivals == [] {
      assert frames[0..] == frames;
      assert buf + line + [] == buf + line;
    } else {
      var now, later := line + arrivals[0], Concat(arrivals[1..]);
      assert buf + now + later == Concat(frames) by {
        assert buf + (line + arrivals[0]) + later == buf + line + (arrivals[0] + later);
      }
      if frames == [] {
        assert now == [] && later == [];
        EmptyPoll(mtu, limit);
        assert [] + [] + later == Concat(frames);
        StreamKeepsFrames(frames, [], [], arrivals[1..], mtu, limit);
      } else {
        StreamStep(frames, buf, now, arrivals[1..], mtu, limit);
      }
    }
  }

  lemma {:induction false} EmptyPoll(mtu: nat, limit: nat)
    requires mtu >= HEADER
    ensures Recv([], [], mtu, limit) == (More, [], [])
  {
  }

  lemma {:induction false} StreamStep(frames: seq<seq<Byte>>, buf: seq<Byte>, now: seq<Byte>,
                                      arrivals: seq<seq<Byte>>, mtu: nat, limit: nat)
    requires mtu >= HEADER && AllValid(frames, mtu, limit) && frames != [] && Begun(buf, frames)
    requires buf + now + Concat(arrivals) == Concat(frames)
    ensures var (out, buf1, line1) := Recv(buf, now, mtu, limit);
            var (more, buf2, line2) := Polls(buf1, line1, arrivals, mtu, limit);
            var got := (if out.Accept? then [out.frame] else []) + more;
            && got <= frames && Begun(buf2, frames[|got|..]) && buf2 + line2 == Concat(frames[|got|..])
    decreases |arrivals|, 1
  {
    var f, rest, n := frames[0], frames[1..], |frames[0]| - |buf|;
    FirstFrame(f, buf, now, Concat(arrivals), Concat(rest));
    PollOfFrame(f, buf, now, mtu, limit);
    if |now| < n {
      assert buf + now + [] == buf + now;
      StreamKeepsFrames(frames, buf + now, [], arrivals, mtu, limit);
      var (more, buf2, line2) := Polls(buf + now, [], arrivals, mtu, limit);
      assert [] + more == more;
    } else {
      assert [] + now[n..] + Concat(arrivals) == Concat(rest);
      StreamKeepsFrames(rest, [], now[n..], arrivals, mtu, limit);
      FrameInFront(frames, Polls([], now[n..], arrivals, mtu, limit).0);
    }
  }

  lemma {:induction false} FrameInFront(frames: seq<seq<Byte>>, more: seq<seq<Byte>>)
    requires frames != [] && more <= frames[1..]
    ensures [frames[0]] + more <= frames && frames[|[frames[0]] + more|..] == frames[1..][|more|..]
  {
    assert frames == [frames[0]] + frames[1..];
  }

  function Quiet(n: nat): (a: seq<seq<Byte>>)
    ensures |a| == n
  {
    if n == 0 then [] else [[]] + Quiet(n - 1)
  }

  /** One poll when everything is on the line. */
  lemma {:induction false} QuietPoll(frames: seq<seq<Byte>>, buf: seq<Byte>, line: seq<Byte>, mtu: nat, limit: nat)
    requires mtu >= HEADER && AllValid(frames, mtu, limit) && frames != [] && Begun(buf, frames)
    requires buf + line == Concat(frames)
    ensures var k := |frames[0]| - |buf|;
            && k <= |line| && Recv(buf, line, mtu, limit) == (Accept(frames[0]), [], line[k..])
            && line[k..] == Concat(frames[1..])
  {
    var f, rest, k := frames[0], frames[1..], |frames[0]| - |buf|;
    assert buf + line + [] == f + Concat(rest);
    assert |buf + line| == |f| + |Concat(rest)|;
    FirstFrame(f, buf, line, [], Concat(rest));
    PollOfFrame(f, buf, line, mtu, limit);
    assert line[k..] + [] == line[k..];
  }

  /** Once everything has reached the line, one poll per frame brings them all. */
  lemma {:induction false} QuietPollsDrain(frames: seq<seq<Byte>>, buf: seq<Byte>, line: seq<Byte>, n: nat, mtu: nat, limit: nat)
    requires mtu >= HEADER && AllValid(frames, mtu, limit) && Begun(buf, frames)
    requires buf + line == Concat(frames) && |frames| <= n
    ensures Polls(buf, line, Quiet(n), mtu, limit) == (frames, [], [])
    decreases n
  {
    if n > 0 {
      assert Quiet(n)[0] == [] && Quiet(n)[1..] == Quiet(n - 1);
      assert line + [] == line;
      if frames == [] {
        EmptyPoll(mtu, limit);
        QuietPollsDrain(frames, [], [], n - 1, mtu, limit);
      } else {
        var f, k := frames[0], |frames[0]| - |buf|;
        QuietPoll(frames, buf, line, mtu, limit);
        QuietPollsDrain(frames[1..], [], line[k..], n - 1, mtu, limit);
        assert frames == [f] + frames[1..];
      }
    } else {
      assert buf == [] && line == [];
    }
  }

  lemma {:induction false} PollsAppend(buf: seq<Byte>, line: seq<Byte>, a: seq<seq<Byte>>, b: seq<seq<Byte>>, mtu: nat, limit: nat)
    requires mtu >= HEADER
    ensures var (f1, buf1, line1) := Polls(buf, line, a, mtu, limit);
            var (f2, buf2, line2) := Polls(buf1, line1, b, mtu, limit);
            Polls(buf, line, a + b, mtu, limit) == (f1 + f2, buf2, line2)
    decreases |a|
  {
    if a == [] {
      assert a + b == b;
      var (f2, buf2, line2) := Polls(buf, line, b, mtu, limit);
      assert [] + f2 == f2;
    } else {
      assert (a + b)[0] == a[0] && (a + b)[1..] == a[1..] + b;
      var (out, buf1, line1) := Recv(buf, line + a[0], mtu, limit);
      PollsAppend(buf1, line1, a[1..], b, mtu, limit);
      var first: seq<seq<Byte>> := if out.Accept? then [out.frame] else [];
      var (f1, buf2, line2) := Polls(buf1, line1, a[1..], mtu, limit);
      var (f2, buf3, line3) := Polls(buf2, line2, b, mtu, limit);
      assert first + (f1 + f2) == (first + f1) + f2;
    }
  }

  /** A list of frames sent over the line in whatever portions: the receiver returns exactly these frames,
      in order, each once, and is back in its start state. */
  lemma {:induction false} FramesArrive(frames: seq<seq<Byte>>, arrivals: seq<seq<Byte>>, mtu: nat, limit: nat)
    requires mtu >= HEADER && AllValid(frames, mtu, limit) && Concat(arrivals) == Concat(frames)
    ensures Polls([], [], arrivals + Quiet(|frames|), mtu, limit) == (frames, [], [])
  {
    assert [] + [] + Concat(arrivals) == Concat(frames);
    StreamKeepsFrames(frames, [], [], arrivals, mtu, limit);
    var (got, buf, line) := Polls([], [], arrivals, mtu, limit);
    var rest := frames[|got|..];
    QuietPollsDrain(rest, buf, line, |frames|, mtu, limit);
    PollsAppend([], [], arrivals, Quiet(|frames|), mtu, limit);
    assert got + rest == frames;
  }

  /** The round trip of one payload over any split of its frame. */
  lemma {:induction false} PayloadRoundTrip(payload: seq<Byte>, reserved: Byte, arrivals: seq<seq<Byte>>, mtu: nat, limit: nat)
    requires |payload| < 0x1_0000 && mtu >= HEADER && HEADER + |payload| <= mtu && HEADER + |payload| <= limit
    requires Concat(arrivals) == Encode(payload, reserved)
    ensures var f := Encode(payload, reserved);
            Polls([], [], arrivals + Quiet(1), mtu, limit) == ([f], [], []) && Decode(f) == payload
  {
    var f := Encode(payload, reserved);
    EncodeIsValid(payload, reserved, mtu);
    var one: seq<seq<Byte>> := [f];
    assert one[1..] == [];
    assert Concat(one) == f + Concat(one[1..]);
    FramesArrive(one, arrivals, mtu, limit);
  }

  // ---------------------------------------------------------------- the driver

  /** `kitlState`. */
  class KitlState {
    const mtu: nat
    const buf: array<Byte>
    var count: nat

    ghost predicate Valid()
      reads this, buf
    {
      HEADER <= mtu == buf.Length && count <= mtu && Kept(buf[..count], mtu)
    }

    constructor (mtu: nat)
      requires HEADER <= mtu
      ensures Valid() && this.mtu == mtu && buf[..count] == [] && fresh(buf)
    {
      this.mtu, count := mtu, 0;
      buf := new Byte[mtu](_ => 0);
    }

    /** Reads bytes from the line until `goal` bytes are there or the line is empty. */
    method Fill(fifo: seq<Byte>, goal: nat) returns (rest: seq<Byte>)
      requires count <= goal <= buf.Length == mtu
      modifies this`count, buf
      ensures old(count) <= count <= goal && (count < goal ==> rest == [])
      ensures count - old(count) <= |fifo| && rest == fifo[count - old(count)..]
      ensures buf[..count] == old(buf[..count]) + fifo[..count - old(count)]
    {
      rest := fifo;
      while count < goal && rest != []
        invariant old(count) <= count <= goal && count - old(count) <= |fifo|
        invariant rest == fifo[count - old(count)..]
        invariant buf[..count] == old(buf[..count]) + fifo[..count - old(count)]
      {
        buf[count] := rest[0];
        count := count + 1;
        rest := rest[1..];
      }
    }

    /** `SerialRecv`, given what waits on the line and the room at the caller. */
    method SerialRecv(fifo: seq<Byte>, limit: nat) returns (out: Outcome, rest: seq<Byte>)
      requires Valid()
      modifies this`count, buf
      ensures Valid()
      ensures (out, buf[..count], rest) == Recv(old(buf[..count]), fifo, mtu, limit)
    {
      ghost var kept := buf[..count];
      RecvIsBounded(kept, fifo, mtu, limit);
      rest := fifo;
      if count < HEADER {
        RecvReadsHeader(kept, fifo, mtu, limit);
        rest := Fill(fifo, HEADER);
        assert buf[..count] == kept + fifo[..count - |kept|];
        if count < HEADER {
          return More, [];
        }
      }
      out, rest := RecvBody(rest, limit);
    }

    /** `SerialRecv` once the header is there. */
    method RecvBody(fifo: seq<Byte>, limit: nat) returns (out: Outcome, rest: seq<Byte>)
      requires HEADER <= count <= mtu == buf.Length
      requires HeaderOk(buf[..count], mtu) ==> count <= HEADER + PayloadSize(buf[..count])
      modifies this`count, buf
      ensures count <= mtu
      ensures (out, buf[..count], rest) == Recv(old(buf[..count]), fifo, mtu, limit)
    {
      ghost var kept := buf[..count];
      assert kept[..9] == buf[0..9];
      var sum := Check(buf, 0, 9);
      var size := buf[6] as nat + 256 * (buf[7] as nat);
      assert HeaderOk(kept, mtu) <==> buf[4] == PACKET_TYPE && buf[9] == sum && size <= mtu - HEADER;
      if buf[4] != PACKET_TYPE || buf[9] != sum || size > mtu - HEADER {
        count := 0;
        assert buf[..count] == [];
        return Reject, fifo;
      }
      out, rest := RecvPayload(size, fifo, limit);
    }

    /** `SerialRecv` once the header is accepted. */
    method RecvPayload(size: nat, fifo: seq<Byte>, limit: nat) returns (out: Outcome, rest: seq<Byte>)
      requires HEADER <= count <= mtu == buf.Length && HeaderOk(buf[..count], mtu)
      requires size == PayloadSize(buf[..count]) && count <= HEADER + size
      modifies this`count, buf
      ensures count <= mtu
      ensures (out, buf[..count], rest) == Recv(old(buf[..count]), fifo, mtu, limit)
    {
      ghost var kept := buf[..count];
      rest := fifo;
      if count < HEADER + size {
        RecvReadsBody(kept, fifo, mtu, limit);
        rest := Fill(fifo, HEADER + size);
        assert buf[..count] == kept + fifo[..count - |kept|];
        if count < HEADER + size {
          return More, [];
        }
      }
      ghost var whole := buf[..count];
      assert whole[..|kept|] == kept && whole[..9] == kept[..9];
      RecvEnds(whole, rest, mtu, limit);
      out := Finish(size, limit);
      if out.Reject? {
        assert buf[..count] == [];
      }
    }

    /** The data checksum and the caller's room decide about a whole frame. */
    method Finish(size: nat, limit: nat) returns (out: Outcome)
      requires count == HEADER + size <= buf.Length
      modifies this`count
      ensures count == 0
      ensures var whole := old(buf[..count]);
              out == if whole[8] != ChkSum(whole[HEADER..]) || |whole| > limit then Reject else Accept(whole)
    {
      var data := Check(buf, HEADER, HEADER + size);
      assert buf[..count][HEADER..] == buf[HEADER..HEADER + size];
      if buf[8] != data || count > limit {
        out := Reject;
      } else {
        out := Accept(buf[..count]);
      }
      count := 0;
    }
  }

  lemma {:induction false} RecvEnds(whole: seq<Byte>, fifo: seq<Byte>, mtu: nat, limit: nat)
    requires mtu >= HEADER && |whole| >= HEADER && HeaderOk(whole, mtu) && |whole| == HEADER + PayloadSize(whole)
    ensures Recv(whole, fifo, mtu, limit)
         == (if whole[8] != ChkSum(whole[HEADER..]) || |whole| > limit then Reject else Accept(whole), [], fifo)
  {
    assert whole[HEADER..HEADER + PayloadSize(whole)] == whole[HEADER..];
  }

  lemma {:induction false} SumOne(s: seq<Byte>, b: Byte)
    ensures ChkSum(s + [b]) == (ChkSum(s) + b) % 256
  {
    assert (s + [b])[..|s|] == s;
  }

  lemma {:induction false} RecvReads(buf: seq<Byte>, fifo: seq<Byte>, k: nat, mtu: nat, limit: nat)
    requires mtu >= HEADER && k <= |fifo|
    requires |buf| + k <= HEADER || (|buf| >= HEADER && HeaderOk(buf, mtu) && |buf| + k <= HEADER + PayloadSize(buf))
    ensures Recv(buf, fifo, mtu, limit) == Recv(buf + fifo[..k], fifo[k..], mtu, limit)
    decreases k
  {
    if k == 0 {
      assert buf + fifo[..0] == buf && fifo[0..] == fifo;
    } else {
      var next := buf + [fifo[0]];
      if |buf| >= HEADER {
        assert next[..9] == buf[..9];
      }
      RecvReads(next, fifo[1..], k - 1, mtu, limit);
      assert next + fifo[1..][..k - 1] == buf + fifo[..k];
      assert fifo[1..][k - 1..] == fifo[k..];
    }
  }

  lemma {:induction false} RecvReadsHeader(buf: seq<Byte>, fifo: seq<Byte>, mtu: nat, limit: nat)
    requires mtu >= HEADER && |buf| < HEADER
    ensures var k := if |fifo| < HEADER - |buf| then |fifo| else HEADER - |buf|;
            && Recv(buf, fifo, mtu, limit) == Recv(buf + fifo[..k], fifo[k..], mtu, limit)
            && (|buf| + k < HEADER ==> Recv(buf, fifo, mtu, limit) == (More, buf + fifo[..k], []))
  {
    var k := if |fifo| < HEADER - |buf| then |fifo| else HEADER - |buf|;
    RecvReads(buf, fifo, k, mtu, limit);
  }

  lemma {:induction false} RecvReadsBody(buf: seq<Byte>, fifo: seq<Byte>, mtu: nat, limit: nat)
    requires mtu >= HEADER && |buf| >= HEADER && HeaderOk(buf, mtu) && |buf| < HEADER + PayloadSize(buf)
    ensures var goal := HEADER + PayloadSize(buf);
            var k := if |fifo| < goal - |buf| then |fifo| else goal - |buf|;
            && Recv(buf, fifo, mtu, limit) == Recv(buf + fifo[..k], fifo[k..], mtu, limit)
            && (|buf| + k < goal ==> Recv(buf, fifo, mtu, limit) == (More, buf + fifo[..k], []))
  {
    var goal := HEADER + PayloadSize(buf);
    var k := if |fifo| < goal - |buf| then |fifo| else goal - |buf|;
    RecvReads(buf, fifo, k, mtu, limit);
    assert (buf + fifo[..k])[..9] == buf[..9];
  }

  /** `SerialEncode` on a frame whose payload is already in place. */
  method SerialEncode(frame: array<Byte>, size: nat)
    requires size < 0x1_0000 && HEADER + size <= frame.Length
    modifies frame
    ensures frame[..HEADER + size] == Encode(old(frame[HEADER..HEADER + size]), old(frame[5]))
    ensures frame[0] == 'k' as nat && frame[1] == 'I' as nat && frame[2] == 'T' as nat && frame[3] == 'L' as nat
    ensures frame[4] == 0xAA && frame[5] == old(frame[5]) && frame[6] == size % 256 && frame[7] == size / 256
    ensures frame[8] == ChkSum(old(frame[10..10 + size])) && frame[9] == ChkSum(frame[..9])
    ensures frame[10..10 + size] == old(frame[10..10 + size])
    ensures frame[HEADER + size..] == old(frame[HEADER + size..])
  {
    ghost var payload := frame[HEADER..HEADER + size];
    var data := Check(frame, HEADER, HEADER + size);
    frame[0], frame[1], frame[2], frame[3] := 'k' as nat, 'I' as nat, 'T' as nat, 'L' as nat;
    frame[4] := PACKET_TYPE;
    frame[6], frame[7] := size % 256, size / 256;
    frame[8] := data;
    assert frame[..9] == Header(payload, frame[5])[..9];
    var head := Check(frame, 0, 9);
    frame[9] := head;
    assert frame[..HEADER] == Header(payload, frame[5]);
    assert frame[HEADER..HEADER + size] == payload;
    assert frame[..HEADER + size] == frame[..HEADER] + frame[HEADER..HEADER + size];
  }

  /** `ChkSum` over part of a frame. */
  method Check(frame: array<Byte>, lo: nat, hi: nat) returns (sum: Byte)
    requires lo <= hi <= frame.Length
    ensures sum == ChkSum(frame[lo..hi])
  {
    sum := 0;
    for i := lo to hi
      invariant sum == ChkSum(frame[lo..i])
    {
      SumOne(frame[lo..i], frame[i]);
      assert frame[lo..i + 1] == frame[lo..i] + [frame[i]];
      sum := (sum + frame[i]) % 256;
    }
  }
}
