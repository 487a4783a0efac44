/** The bus servo's packets (gripper.cpp:138-263). */
module ServoFrame {
  import opened Basics

  type Byte = b: int | 0 <= b < 256

  function Sum(s: seq<Byte>): nat {
    if s == [] then 0 else Sum(s[..|s| - 1]) + s[|s| - 1]
  }

  /** The complement of the low byte of the sum. */
  function Checksum(id: Byte, length: Byte, instruction: Byte, params: seq<Byte>): Byte {
    255 - (id + length + instruction + Sum(params)) % 256
  }

  function Packet(id: Byte, length: Byte, instruction: Byte, params: seq<Byte>, checksum: Byte): seq<Byte> {
    [0xFF, 0xFF, id, length, instruction] + params + [checksum]
  }

  /** What `send_packet_` writes; the length byte is the low byte of the parameter count plus two. */
  function Frame(id: Byte, instruction: Byte, params: seq<Byte>): seq<Byte> {
    var length := (|params| + 2) % 256;
    Packet(id, length, instruction, params, Checksum(id, length, instruction, params))
  }

  /** `Undefined`: a length byte of 0, after which the source reads outside its vector. */
  datatype Resp = Timeout | HeaderError | ChecksumError | Undefined | Ok(error: Byte, params: seq<Byte>)

  function Receive(rx: seq<Byte>): (Resp, seq<Byte>) {
    if |rx| < 2 then (Timeout, [])
    else if rx[0] != 0xFF || rx[1] != 0xFF then (HeaderError, rx[2..])
    else if |rx| < 4 then (Timeout, [])
    else
      var length: int := rx[3];
      if |rx| < 4 + length then (Timeout, [])
      else if length == 0 then (Undefined, rx[4..])
      else
        var remain, rest := rx[4..4 + length], rx[4 + length..];
        var params := if length >= 2 then remain[1..length - 1] else [];
        if Checksum(rx[2], length, remain[0], params) != remain[length - 1] then (ChecksumError, rest)
        else (Ok(remain[0], params), rest)
  }

  class BusServo {
    var rx: seq<Byte>    // bytes that will arrive before the timeout
    var tx: seq<Byte>

    constructor ()
      ensures rx == [] && tx == []
    {
      rx, tx := [], [];
    }

    /** A read that times out has consumed what there was. */
    method ReadExact(n: nat) returns (out: Option<seq<Byte>>)
      modifies this`rx
      ensures if |old(rx)| >= n then out == Some(old(rx)[..n]) && rx == old(rx)[n..] else out == None && rx == []
    {
      if |rx| < n {
        rx := [];
        return None;
      }
      out := Some(rx[..n]);
      rx := rx[n..];
    }

    /** The accumulator is 32 bits wide. */
    method CalcChecksum(id: Byte, length: Byte, instruction: Byte, params: seq<Byte>) returns (c: Byte)
      ensures c == Checksum(id, length, instruction, params)
    {
      var total := id + length + instruction;
      for i := 0 to |params|
        invariant 0 <= total < 0x1_0000_0000
        invariant total % 256 == (id + length + instruction + Sum(params[..i])) % 256
      {
        assert params[..i + 1][..i] == params[..i];
        ghost var before := total;
        total := (total + params[i]) % 0x1_0000_0000;
        Wraps(before + params[i]);
        SameResidue(before, id + length + instruction + Sum(params[..i]), params[i]);
      }
      assert params[..|params|] == params;
      c := (0xFFFF_FFFF - total) % 256;
      ComplementByte(total);
    }

    method SendPacket(id: Byte, instruction: Byte, params: seq<Byte>) returns (pkt: seq<Byte>)
      modifies this
      ensures pkt == Frame(id, instruction, params)
      ensures rx == [] && tx == old(tx) + pkt
    {
      var length := (|params| + 2) % 256;
      var checksum := CalcChecksum(id, length, instruction, params);
      pkt := [];
      pkt := pkt + [0xFF];
      pkt := pkt + [0xFF];
      pkt := pkt + [id];
      pkt := pkt + [length];
      pkt := pkt + [instruction];
      pkt := pkt + params;
      pkt := pkt + [checksum];
      rx := [];
      tx := tx + pkt;
    }

    method ReceivePacket() returns (r: Resp)
      modifies this`rx
      ensures (r, rx) == Receive(old(rx))
    {
      ghost var all := rx;
      var hdr := ReadExact(2);
      if hdr.None? {
        return Timeout;
      }
      if hdr.value[0] != 0xFF || hdr.value[1] != 0xFF {
        return HeaderError;
      }
      var idb := ReadExact(1);
      if idb.None? {
        return Timeout;
      }
      var lenb := ReadExact(1);
      if lenb.None? {
        return Timeout;
      }
      assert rx == all[4..];
      var length := lenb.value[0];
      var remain := ReadExact(length);
      if remain.None? {
        return Timeout;
      }
      assert rx == all[4 + length..] && remain.value == all[4..4 + length];
      if length == 0 {
        return Undefined;
      }
      var error, received := remain.value[0], remain.value[length - 1];
      var params: seq<Byte> := [];
      if length >= 2 {
        params := remain.value[1..length - 1];
      }
      var computed := CalcChecksum(idb.value[0], length, error, params);
      if computed != received {
        return ChecksumError;
      }
      return Ok(error, params);
    }
  }

  // ---------------------------------------------------------------- byte arithmetic

  lemma Wraps(x: int)
    requires x >= 0
    ensures (x % 0x1_0000_0000) % 256 == x % 256
  {
    var q, r := x / 0x1_0000_0000, x % 0x1_0000_0000;
    assert x == (q * 0x100_0000) * 256 + r;
    MultipleVanishes(q * 0x100_0000, r);
  }

  lemma MultipleVanishes(k: int, r: int)
    ensures (k * 256 + r) % 256 == r % 256
  {
  }

  lemma SameResidue(a: int, b: int, d: int)
    requires a % 256 == b % 256
    ensures (a + d) % 256 == (b + d) % 256
  {
  }

  lemma ComplementByte(total: int)
    requires 0 <= total < 0x1_0000_0000
    ensures (0xFFFF_FFFF - total) % 256 == 255 - total % 256
  {
    var q, r := total / 256, total % 256;
    assert 0xFFFF_FFFF - total == (0xFF_FFFF - q) * 256 + (255 - r);
  }

  // ---------------------------------------------------------------- round trip

  lemma {:induction false} SumAppends(a: seq<Byte>, b: seq<Byte>)
    ensures Sum(a + b) == Sum(a) + Sum(b)
    decreases |b|
  {
    if b == [] {
      assert a + b == a;
    } else {
      var n := |b| - 1;
      SumAppends(a, b[..n]);
      assert (a + b)[..|a| + n] == a + b[..n];
    }
  }

  lemma SumOfThree(x: Byte, y: Byte, z: Byte)
    ensures Sum([x, y, z]) == x + y + z
  {
    assert [x, y, z][..2] == [x, y] && [x, y][..1] == [x] && [x][..0] == [];
    assert Sum([x]) == x && Sum([x, y]) == x + y;
  }

  /** The bytes of a frame in the servo's order; those from the id on add up to 255 in their low byte. */
  lemma FrameLayout(id: Byte, instruction: Byte, params: seq<Byte>)
    ensures var f, n := Frame(id, instruction, params), |params|;
            && |f| == n + 6 && f[0] == 255 && f[1] == 255 && f[2] == id && f[3] == (n + 2) % 256
            && f[4] == instruction && f[5..5 + n] == params && Sum(f[2..]) % 256 == 255
  {
    var f, n := Frame(id, instruction, params), |params|;
    var c := Checksum(id, f[3], instruction, params);
    assert f[2..] == ([id, f[3], instruction] + params) + [c];
    SumAppends([id, f[3], instruction] + params, [c]);
    SumAppends([id, f[3], instruction], params);
    SumOfThree(id, f[3], instruction);
    assert [c][..0] == [];
    var s := id + f[3] + instruction + Sum(params);
    assert s + c == s / 256 * 256 + 255;
  }

  lemma PacketIsReceived(id: Byte, instruction: Byte, params: seq<Byte>, checksum: Byte, rest: seq<Byte>)
    requires |params| <= 253
    ensures Receive(Packet(id, |params| + 2, instruction, params, checksum) + rest)
         == (if checksum == Checksum(id, |params| + 2, instruction, params) then Ok(instruction, params)
             else ChecksumError,
             rest)
  {
    var n := |params|;
    var rx := Packet(id, n + 2, instruction, params, checksum) + rest;
    assert rx[4..4 + (n + 2)] == [instruction] + params + [checksum];
    assert rx[4..4 + (n + 2)][1..n + 1] == params;
    assert rx[4 + (n + 2)..] == rest;
  }

  /** A frame of at most 253 parameters, followed by anything, is received as it was sent, and only
      its own bytes are consumed; a longer parameter list never comes back. */
  lemma FrameReadsBack(id: Byte, instruction: Byte, params: seq<Byte>, rest: seq<Byte>)
    ensures |params| <= 253 ==> Receive(Frame(id, instruction, params) + rest) == (Ok(instruction, params), rest)
    ensures Receive(Frame(id, instruction, params) + rest).0 == Ok(instruction, params) ==> |params| <= 253
  {
    if |params| <= 253 {
      FrameIsPacket(id, instruction, params);
      PacketIsReceived(id, instruction, params, Checksum(id, |params| + 2, instruction, params), rest);
    } else {
      ReceivedIsShort(Frame(id, instruction, params) + rest);
    }
  }

  /** A frame that breaks off is a timeout, wherever it does, and nothing of it is left behind. */
  lemma TruncatedFrameTimesOut(id: Byte, instruction: Byte, params: seq<Byte>, k: nat)
    requires |params| <= 253 && k < |Frame(id, instruction, params)|
    ensures Receive(Frame(id, instruction, params)[..k]) == (Timeout, [])
  {
  }

  lemma FrameIsPacket(id: Byte, instruction: Byte, params: seq<Byte>)
    requires |params| <= 253
    ensures Frame(id, instruction, params)
         == Packet(id, |params| + 2, instruction, params, Checksum(id, |params| + 2, instruction, params))
  {
  }

  /** The packet with one of its bytes replaced. */
  lemma PacketUpdated(id: Byte, length: Byte, instruction: Byte, params: seq<Byte>, c: Byte, x: Byte)
    ensures Packet(id, length, instruction, params, c)[2 := x] == Packet(x, length, instruction, params, c)
    ensures Packet(id, length, instruction, params, c)[4 := x] == Packet(id, length, x, params, c)
    ensures Packet(id, length, instruction, params, c)[|params| + 5 := x] == Packet(id, length, instruction, params, x)
  {
  }

  lemma ParameterUpdated(id: Byte, length: Byte, instruction: Byte, params: seq<Byte>, c: Byte, j: nat, x: Byte)
    requires j < |params|
    ensures Packet(id, length, instruction, params, c)[5 + j := x] == Packet(id, length, instruction, params[j := x], c)
  {
  }

  lemma ReceivedIsShort(rx: seq<Byte>)
    ensures var r := Receive(rx).0; r.Ok? ==> |r.params| <= 253
  {
  }

  lemma {:induction false} SumUpdated(s: seq<Byte>, i: nat, x: Byte)
    requires i < |s|
    ensures Sum(s[i := x]) == Sum(s) - s[i] + x
    decreases |s|
  {
    var n := |s| - 1;
    if i == n {
      assert s[i := x][..n] == s[..n];
    } else {
      assert s[i := x][..n] == s[..n][i := x];
      SumUpdated(s[..n], i, x);
    }
  }

  lemma ResidueMoves(a: int, d: int)
    requires d != 0 && -256 < d < 256
    ensures (a + d) % 256 != a % 256
  {
  }

  lemma WrongParameterIsRejected(id: Byte, instruction: Byte, params: seq<Byte>, rest: seq<Byte>, j: nat, x: Byte)
    requires |params| <= 253 && j < |params| && x != params[j]
    ensures Receive(Frame(id, instruction, params)[5 + j := x] + rest).0 == ChecksumError
  {
    var n, params' := |params|, params[j := x];
    var c := Checksum(id, n + 2, instruction, params);
    FrameIsPacket(id, instruction, params);
    ParameterUpdated(id, n + 2, instruction, params, c, j, x);
    PacketIsReceived(id, instruction, params', c, rest);
    SumUpdated(params, j, x);
    ResidueMoves(id + (n + 2) + instruction + Sum(params), x - params[j]);
  }

  lemma WrongHeaderIsRejected(rx: seq<Byte>)
    requires |rx| >= 2 && (rx[0] != 0xFF || rx[1] != 0xFF)
    ensures Receive(rx) == (HeaderError, rx[2..])
  {
  }

  lemma WrongIdIsRejected(id: Byte, instruction: Byte, params: seq<Byte>, rest: seq<Byte>, x: Byte)
    requires |params| <= 253 && x != id
    ensures Receive(Frame(id, instruction, params)[2 := x] + rest).0 == ChecksumError
  {
    var n := |params|;
    var c := Checksum(id, n + 2, instruction, params);
    FrameIsPacket(id, instruction, params);
    PacketUpdated(id, n + 2, instruction, params, c, x);
    PacketIsReceived(x, instruction, params, c, rest);
    ResidueMoves(id + (n + 2) + instruction + Sum(params), x - id);
  }

  lemma WrongInstructionIsRejected(id: Byte, instruction: Byte, params: seq<Byte>, rest: seq<Byte>, x: Byte)
    requires |params| <= 253 && x != instruction
    ensures Receive(Frame(id, instruction, params)[4 := x] + rest).0 == ChecksumError
  {
    var n := |params|;
    var c := Checksum(id, n + 2, instruction, params);
    FrameIsPacket(id, instruction, params);
    PacketUpdated(id, n + 2, instruction, params, c, x);
    PacketIsReceived(id, x, params, c, rest);
    ResidueMoves(id + (n + 2) + instruction + Sum(params), x - instruction);
  }

  lemma WrongChecksumIsRejected(id: Byte, instruction: Byte, params: seq<Byte>, rest: seq<Byte>, x: Byte)
    requires |params| <= 253 && x != Checksum(id, |params| + 2, instruction, params)
    ensures Receive(Frame(id, instruction, params)[|params| + 5 := x] + rest).0 == ChecksumError
  {
    FrameIsPacket(id, instruction, params);
    PacketUpdated(id, |params| + 2, instruction, params, Checksum(id, |params| + 2, instruction, params), x);
    PacketIsReceived(id, instruction, params, x, rest);
  }

  /** Changing one byte of the id, the instruction, the parameters or the checksum is always noticed;
      so is a changed header byte. */
  lemma OneWrongByteIsRejected(id: Byte, instruction: Byte, params: seq<Byte>, rest: seq<Byte>, i: nat, x: Byte)
    requires |params| <= 253 && i < |params| + 6 && i != 3
    requires x != Frame(id, instruction, params)[i]
    ensures Receive(Frame(id, instruction, params)[i := x] + rest).0 == if i < 2 then HeaderError else ChecksumError
  {
    if i < 2 {
      WrongHeaderIsRejected(Frame(id, instruction, params)[i := x] + rest);
    } else if i == 2 {
      WrongIdIsRejected(id, instruction, params, rest, x);
    } else if i == 4 {
      WrongInstructionIsRejected(id, instruction, params, rest, x);
    } else if i < 5 + |params| {
      WrongParameterIsRejected(id, instruction, params, rest, i - 5, x);
    } else {
      WrongChecksumIsRejected(id, instruction, params, rest, x);
    }
  }

  /** With another length byte the receiver takes `x` bytes of what follows it, whatever was meant by
      them: the frame passes exactly when so many have arrived and the last of them happens to be the
      checksum of the others. */
  lemma WrongLengthPassesIff(id: Byte, instruction: Byte, params: seq<Byte>, rest: seq<Byte>, x: Byte)
    requires |params| <= 253
    ensures var body := Body(id, instruction, params, rest);
            var (r, left) := Receive(Frame(id, instruction, params)[3 := x] + rest);
            && (r.Ok? <==> 1 <= x <= |body| && Closes(id, x, body))
            && (r.Ok? ==> r == Ok(body[0], Inner(x, body)) && left == body[x..])
  {
    var body := Body(id, instruction, params, rest);
    var rx := Frame(id, instruction, params)[3 := x] + rest;
    assert rx == [0xFF, 0xFF, id, x] + body;
    HeaderThenBody(id, x, body);
  }

  /** Everything after the length byte. */
  function Body(id: Byte, instruction: Byte, params: seq<Byte>, rest: seq<Byte>): seq<Byte> {
    [instruction] + params + [Checksum(id, (|params| + 2) % 256, instruction, params)] + rest
  }

  /** Byte number `x` of the body is the checksum of the packet that ends with it. */
  predicate Closes(id: Byte, x: Byte, body: seq<Byte>)
    requires 1 <= x <= |body|
  {
    Checksum(id, x, body[0], Inner(x, body)) == body[x - 1]
  }

  /** The parameters of a packet of `x` bytes. */
  function Inner(x: Byte, body: seq<Byte>): seq<Byte>
    requires 1 <= x <= |body|
  {
    if x >= 2 then body[1..x - 1] else []
  }

  lemma HeaderThenBody(id: Byte, x: Byte, body: seq<Byte>)
    ensures var (r, left) := Receive([0xFF, 0xFF, id, x] + body);
            && (r.Ok? <==> 1 <= x <= |body| && Closes(id, x, body))
            && (r.Ok? ==> r == Ok(body[0], Inner(x, body)) && left == body[x..])
  {
    var rx := [0xFF, 0xFF, id, x] + body;
    if 1 <= x <= |body| {
      var remain := rx[4..4 + x];
      assert remain == body[..x];
      assert x >= 2 ==> remain[1..x - 1] == body[1..x - 1];
      assert rx[4 + x..] == body[x..];
    }
  }

  /** What a sender can check: a length byte that arrives too small passes exactly when a parameter
      equals the checksum of what precedes it under that length, or, for a length of 1, when the
      instruction does. Nothing that follows the frame matters. */
  lemma ShortLengthPassesIff(id: Byte, instruction: Byte, params: seq<Byte>, rest: seq<Byte>, x: Byte)
    requires |params| <= 253 && x < |params| + 2
    ensures Receive(Frame(id, instruction, params)[3 := x] + rest).0.Ok?
       <==> (x == 1 && Checksum(id, 1, instruction, []) == instruction)
            || (x >= 2 && Checksum(id, x, instruction, params[..x - 2]) == params[x - 2])
  {
    var body := Body(id, instruction, params, rest);
    WrongLengthPassesIff(id, instruction, params, rest, x);
    if x >= 2 { BodyBegins(id, instruction, params, rest, x); }
  }

  lemma BodyBegins(id: Byte, instruction: Byte, params: seq<Byte>, rest: seq<Byte>, x: Byte)
    requires 2 <= x < |params| + 2
    ensures var body := Body(id, instruction, params, rest);
            |body| >= x && body[0] == instruction && body[1..x - 1] == params[..x - 2] && body[x - 1] == params[x - 2]
  {
  }

  /** An accepted frame of a shortened length carries the parameters before the one taken for a checksum. */
  lemma ShortLengthDelivers(id: Byte, instruction: Byte, params: seq<Byte>, x: Byte)
    requires |params| <= 253 && 2 <= x < |params| + 2
    requires Checksum(id, x, instruction, params[..x - 2]) == params[x - 2]
    ensures Receive(Frame(id, instruction, params)[3 := x]).0 == Ok(instruction, params[..x - 2])
  {
    var rx := Frame(id, instruction, params)[3 := x];
    var body := Body(id, instruction, params, []);
    assert rx + [] == rx;
    ShortLengthPassesIff(id, instruction, params, [], x);
    WrongLengthPassesIff(id, instruction, params, [], x);
    BodyBegins(id, instruction, params, [], x);
  }

  /** Such frames exist: this one, its length reduced by one, is accepted as another packet. */
  lemma WrongLengthMayPass()
    ensures Frame(1, 2, [250])[3] == 3 && Receive(Frame(1, 2, [250])[3 := 2]).0 == Ok(2, [])
  {
    var params: seq<Byte> := [250];
    assert params[..0] == [];
    assert Checksum(1, 2, 2, []) == 250;
    ShortLengthDelivers(1, 2, params, 2);
  }
}
