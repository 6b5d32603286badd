/** Streaming a file to clamd: length-prefixed chunks, a zero length at the end,
    and nothing beyond the scanner's size limit. */
module Framing {
  import opened Collections

  type Byte = b: int | 0 <= b < 256 witness 0

  const CHUNK := 64 * 1024
  const MAX_STREAM := 64 * 1024 * 1024

  /** The bytes of the command, "zINSTREAM" and a zero. */
  const COMMAND: seq<Byte> := [122, 73, 78, 83, 84, 82, 69, 65, 77, 0]

  /** `struct.pack("!L", n)`: four bytes, most significant first. */
  function Big(n: nat): (r: seq<Byte>)
    requires n < 0x1_0000_0000
    ensures |r| == 4
  {
    [n / 0x100_0000, n / 0x1_0000 % 0x100, n / 0x100 % 0x100, n % 0x100]
  }

  function Length(b: seq<Byte>): nat
    requires |b| == 4
  {
    b[0] as int * 0x100_0000 + b[1] as int * 0x1_0000 + b[2] as int * 0x100 + b[3] as int
  }

  lemma LengthFaithful(n: nat)
    requires n < 0x1_0000_0000
    ensures Length(Big(n)) == n
  {
    assert n / 0x1_0000 == n / 0x100_0000 * 0x100 + n / 0x1_0000 % 0x100;
    assert n / 0x100 == n / 0x1_0000 * 0x100 + n / 0x100 % 0x100;
  }

  function First(data: seq<Byte>, n: nat): seq<Byte> {
    if |data| <= n then data else data[..n]
  }

  function Rest(data: seq<Byte>, n: nat): seq<Byte> {
    if |data| <= n then [] else data[n..]
  }

  function Frame(chunk: seq<Byte>): seq<Byte>
    requires |chunk| < 0x1_0000_0000
  {
    Big(|chunk|) + chunk
  }

  function Frames(data: seq<Byte>): seq<Byte>
    decreases |data|
  {
    if data == [] then [] else Frame(First(data, CHUNK)) + Frames(Rest(data, CHUNK))
  }

  const END := Big(0)

  /** What clamd reads: frames up to the first zero length. None when the bytes
      stop before it. */
  function Decode(wire: seq<Byte>): Option<seq<Byte>>
    decreases |wire|
  {
    if |wire| < 4 then None
    else
      var n := Length(wire[..4]);
      if n == 0 then Some([])
      else if |wire| < 4 + n then None
      else
        match Decode(wire[4 + n..])
        case None => None
        case Some(rest) => Some(wire[4..4 + n] + rest)
  }

  lemma DecodeFrame(chunk: seq<Byte>, rest: seq<Byte>)
    requires 0 < |chunk| < 0x1_0000_0000
    ensures Decode(Frame(chunk) + rest) == match Decode(rest)
      case None => None
      case Some(data) => Some(chunk + data)
  {
    var wire, n := Frame(chunk) + rest, |chunk|;
    LengthFaithful(n);
    assert wire[..4] == Big(n) && wire[4..4 + n] == chunk && wire[4 + n..] == rest;
  }

  lemma Regroup(a: seq<Byte>, b: seq<Byte>, c: seq<Byte>, d: seq<Byte>)
    ensures a + b + c + d == a + (b + c + d)
  {
  }

  /** Decoding the frames of any data gives the data back, whatever follows. */
  lemma {:induction false} RoundTrip(data: seq<Byte>, after: seq<Byte>)
    ensures Decode(Frames(data) + END + after) == Some(data)
    decreases |data|
  {
    if data == [] {
      LengthFaithful(0);
      assert Frames(data) + END + after == END + after;
      assert (END + after)[..4] == END;
    } else {
      var chunk, rest := First(data, CHUNK), Rest(data, CHUNK);
      assert Frames(data) == Frame(chunk) + Frames(rest);
      hide Frames, Decode, Frame;
      RoundTrip(rest, after);
      DecodeFrame(chunk, Frames(rest) + END + after);
      Regroup(Frame(chunk), Frames(rest), END, after);
      assert chunk + rest == data;
    }
  }

  /** No proper prefix decodes: the scanner acts only on the whole stream. */
  lemma {:induction false} NoEarlyEnd(data: seq<Byte>, n: nat)
    requires n < |Frames(data) + END|
    ensures Decode((Frames(data) + END)[..n]) == None
    decreases |data|
  {
    if data == [] {
      assert Frames(data) + END == END;
    } else if n >= 4 {
      var chunk, rest := First(data, CHUNK), Rest(data, CHUNK);
      var k := |chunk|;
      var part := (Frames(data) + END)[..n];
      assert Frames(data) + END == Frame(chunk) + (Frames(rest) + END);
      LengthFaithful(k);
      assert part[..4] == Big(k);
      if n >= 4 + k {
        NoEarlyEnd(rest, n - 4 - k);
        assert part == Frame(chunk) + (Frames(rest) + END)[..n - 4 - k];
        DecodeFrame(chunk, (Frames(rest) + END)[..n - 4 - k]);
      }
    }
  }

  lemma {:induction false} FramesSnoc(data: seq<Byte>, chunk: seq<Byte>)
    requires |data| % CHUNK == 0 && 0 < |chunk| <= CHUNK
    ensures Frames(data + chunk) == Frames(data) + Frame(chunk)
    decreases |data|
  {
    if data == [] {
      assert data + chunk == chunk;
      assert Frames([]) == [];
      assert First(chunk, CHUNK) == chunk && Rest(chunk, CHUNK) == [];
      assert Frame(chunk) + [] == Frame(chunk);
    } else {
      var rest := Rest(data, CHUNK);
      assert |data| >= CHUNK;
      assert First(data + chunk, CHUNK) == First(data, CHUNK);
      assert Rest(data + chunk, CHUNK) == rest + chunk;
      FramesSnoc(rest, chunk);
    }
  }

  /** The bytes of one scan: the command, the frames of the first 64 MiB and the
      terminator. */
  function Wire(file: seq<Byte>): seq<Byte> {
    COMMAND + Frames(First(file, MAX_STREAM)) + END
  }

  /** What the scanner receives is the whole file, or exactly its first 64 MiB. */
  lemma ScannerSees(file: seq<Byte>)
    ensures COMMAND <= Wire(file)
    ensures Decode(Wire(file)[|COMMAND|..]) == Some(First(file, MAX_STREAM))
    ensures Decode(Wire(file)[|COMMAND|..]) == Some(file) <==> |file| <= MAX_STREAM
  {
    var data := First(file, MAX_STREAM);
    RoundTrip(data, []);
    assert Wire(file)[|COMMAND|..] == Frames(data) + END + [];
  }

  /** The first frame carries as much as fits into 64 KiB. */
  lemma FirstFrame(data: seq<Byte>)
    requires data != []
    ensures var n := if |data| < 65_536 then |data| else 65_536;
      |Frames(data)| >= 4 + n && Length(Frames(data)[..4]) == n && Frames(data)[4..4 + n] == data[..n]
  {
    var chunk := First(data, CHUNK);
    var rest := Frames(Rest(data, CHUNK));
    var all := Frame(chunk) + rest;
    assert Frames(data) == all;
    LengthFaithful(|chunk|);
    assert all[..4] == Big(|chunk|) && all[4..4 + |chunk|] == chunk;
  }

  /** The wire in bytes: "zINSTREAM" and a zero, then the first frame. */
  lemma WireStarts(file: seq<Byte>)
    ensures |Wire(file)| >= 14 && Wire(file)[..10] == [122, 73, 78, 83, 84, 82, 69, 65, 77, 0]
    ensures Length(Wire(file)[10..14]) == if |file| < 65_536 then |file| else 65_536
  {
    var data := First(file, MAX_STREAM);
    var wire := Wire(file);
    assert wire == COMMAND + (Frames(data) + END);
    if file == [] {
      LengthFaithful(0);
      assert Frames(data) == [] && wire[10..14] == END;
    } else {
      FirstFrame(data);
      assert wire[10..14] == Frames(data)[..4];
    }
  }

  lemma NoFrames()
    ensures Frames([]) == []
  {
  }

  /** The sending loop of `clamav_scan`; `tooLong` is its size error. */
  method Send(file: seq<Byte>) returns (wire: seq<Byte>, tooLong: bool)
    ensures wire == Wire(file)
    ensures tooLong <==> |file| > 67_108_864
  {
    hide Frames, Frame;
    wire, tooLong := COMMAND, false;
    var sent, position := 0, 0;
    NoFrames();
    assert COMMAND + [] == COMMAND;
    while true
      invariant 0 <= position <= |file| && sent == position <= MAX_STREAM && !tooLong
      invariant position % CHUNK == 0 || position == |file|
      invariant wire == COMMAND + Frames(file[..position])
      decreases |file| - position
    {
      var chunk := First(file[position..], CHUNK);
      if chunk == [] {
        assert file[..position] == file == First(file, MAX_STREAM);
        break;
      }
      sent := sent + |chunk|;
      if sent > MAX_STREAM {
        assert position == MAX_STREAM;
        tooLong := true;
        break;
      }
      FramesSnoc(file[..position], chunk);
      assert file[..position + |chunk|] == file[..position] + chunk;
      wire := wire + Frame(chunk);
      position := position + |chunk|;
    }
    wire := wire + END;
  }
}
