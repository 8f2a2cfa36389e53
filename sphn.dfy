/**
 * The "sphn" framing of Opus packets: each packet is preceded by its length
 * as a 24-bit little-endian header. Decoding walks a buffer frame by frame
 * and silently drops a truncated tail.
 */
module SphnFraming {
  import opened Bytes
  import opened Seqs

  /** One more than the largest length a 3-byte header can carry. */
  const MAX_LEN: nat := 0x100_0000

  /** `data[o] | (data[o + 1] << 8) | (data[o + 2] << 16)`: the bytes never overlap, so `|` is `+`. */
  function HeaderValue(b0: byte, b1: byte, b2: byte): (v: nat)
    ensures v < MAX_LEN
  {
    b0 + 256 * b1 + 65536 * b2
  }

  /** The three header bytes `len & 0xff`, `(len >> 8) & 0xff`, `(len >> 16) & 0xff`. */
  function Header(len: nat): (h: seq<byte>)
    ensures |h| == 3
  {
    [len % 256, (len / 256) % 256, ((len / 256) / 256) % 256]
  }

  /** The header holds the length modulo 2^24; bits above are lost. */
  lemma HeaderEncodesLength(len: nat)
    ensures HeaderValue(Header(len)[0], Header(len)[1], Header(len)[2]) == len % MAX_LEN
  {
    var q1, r0 := len / 256, len % 256;
    var q2, r1 := q1 / 256, q1 % 256;
    var q3, r2 := q2 / 256, q2 % 256;
    assert len == 256 * q1 + r0;
    assert q1 == 256 * q2 + r1;
    assert q2 == 256 * q3 + r2;
    var v := r0 + 256 * r1 + 65536 * r2;
    assert len == 0x100_0000 * q3 + v;
    ModOfSplit(len, q3, v);
  }

  /** A value written as `MAX_LEN * q + v`, with `v` in range, leaves remainder `v`. */
  lemma ModOfSplit(n: nat, q: nat, v: nat)
    requires n == 0x100_0000 * q + v && v < 0x100_0000
    ensures n % 0x100_0000 == v
  {
  }

  /** Reading a header back and writing it again gives the same three bytes. */
  lemma HeaderOfHeaderValue(b0: byte, b1: byte, b2: byte)
    ensures Header(HeaderValue(b0, b1, b2)) == [b0, b1, b2]
  {
    var v := HeaderValue(b0, b1, b2);
    assert v == b0 + 256 * (b1 + 256 * b2);
    assert v / 256 == b1 + 256 * b2;
    assert (v / 256) / 256 == b2;
  }

  /** `encodeSphnFrame`. */
  function EncodeFrame(packet: seq<byte>): (frame: seq<byte>)
    ensures |frame| == 3 + |packet|
    ensures frame[3..] == packet
    ensures |packet| < MAX_LEN ==> HeaderValue(frame[0], frame[1], frame[2]) == |packet|
  {
    HeaderEncodesLength(|packet|);
    Header(|packet|) + packet
  }

  /** Several packets framed one after another. */
  function EncodeAll(packets: seq<seq<byte>>): seq<byte>
  {
    if packets == [] then [] else EncodeFrame(packets[0]) + EncodeAll(packets[1..])
  }

  /**
   * What `decodeSphnFrames` returns from `offset` on: the frame whose header
   * starts there, if its header and packet both fit, then the frames after it.
   */
  function DecodeFrom(data: seq<byte>, offset: nat): (packets: seq<seq<byte>>)
    ensures offset <= |data| ==> 3 * |packets| <= |data| - offset
    ensures offset > |data| ==> packets == []
    decreases |data| - offset
  {
    if offset + 3 > |data| then []
    else
      var len := HeaderValue(data[offset], data[offset + 1], data[offset + 2]);
      if offset + 3 + len > |data| then []
      else [data[offset + 3..offset + 3 + len]] + DecodeFrom(data, offset + 3 + len)
  }

  /** What `decodeSphnFrames` returns. */
  function DecodeFrames(data: seq<byte>): (packets: seq<seq<byte>>)
    ensures 3 * |packets| <= |data|
  {
    DecodeFrom(data, 0)
  }

  /** `decodeSphnFrames`: the offset loop. */
  method DecodeSphnFrames(data: seq<byte>) returns (packets: seq<seq<byte>>)
    ensures packets == DecodeFrames(data)
  {
    packets := [];
    var offset := 0;
    while offset + 3 <= |data|
      invariant packets + DecodeFrom(data, offset) == DecodeFrames(data)
      decreases |data| - offset
    {
      var len := HeaderValue(data[offset], data[offset + 1], data[offset + 2]);
      if offset + 3 + len > |data| {
        assert packets + [] == packets;
        break;
      }
      var packet := data[offset + 3..offset + 3 + len];
      assert (packets + [packet]) + DecodeFrom(data, offset + 3 + len) == packets + ([packet] + DecodeFrom(data, offset + 3 + len));
      packets := packets + [packet];
      offset := offset + 3 + len;
    }
    if offset + 3 > |data| {
      assert packets + [] == packets;
    }
  }

  /** Bytes in front of the data shift every offset and change nothing else. */
  lemma {:induction false} DecodeShift(prefix: seq<byte>, data: seq<byte>, offset: nat)
    ensures DecodeFrom(prefix + data, |prefix| + offset) == DecodeFrom(data, offset)
    decreases |data| - offset
  {
    var whole := prefix + data;
    var at := |prefix| + offset;
    if offset + 3 > |data| {
      assert DecodeFrom(whole, at) == [];
    } else {
      assert whole[at] == data[offset] && whole[at + 1] == data[offset + 1] && whole[at + 2] == data[offset + 2];
      var len := HeaderValue(data[offset], data[offset + 1], data[offset + 2]);
      if offset + 3 + len > |data| {
        assert DecodeFrom(whole, at) == [];
      } else {
        var packet := data[offset + 3..offset + 3 + len];
        assert whole[at + 3..at + 3 + len] == packet;
        DecodeShift(prefix, data, offset + 3 + len);
        assert DecodeFrom(whole, at) == [packet] + DecodeFrom(whole, at + 3 + len);
      }
    }
  }

  /** One framed packet in front of any bytes decodes to that packet, then those bytes' packets. */
  lemma DecodeFrameThen(p: seq<byte>, rest: seq<byte>)
    requires |p| < MAX_LEN
    ensures DecodeFrames(EncodeFrame(p) + rest) == [p] + DecodeFrames(rest)
  {
    var f := EncodeFrame(p);
    var data := f + rest;
    assert data[0] == f[0] && data[1] == f[1] && data[2] == f[2];
    assert data[3..3 + |p|] == p;
    DecodeShift(f, rest, 0);
  }

  /**
   * Decoding a run of framed packets followed by any tail gives back those
   * packets, in order, followed by whatever the tail decodes to.
   */
  lemma {:induction false} DecodeEncodeAll(packets: seq<seq<byte>>, tail: seq<byte>)
    requires forall i :: 0 <= i < |packets| ==> |packets[i]| < MAX_LEN
    ensures DecodeFrames(EncodeAll(packets) + tail) == packets + DecodeFrames(tail)
  {
    if packets == [] {
      assert EncodeAll(packets) + tail == tail;
    } else {
      var p, ps := packets[0], packets[1..];
      var rest := EncodeAll(ps) + tail;
      assert EncodeAll(packets) + tail == EncodeFrame(p) + rest;
      DecodeFrameThen(p, rest);
      DecodeEncodeAll(ps, tail);
      assert [p] + (ps + DecodeFrames(tail)) == ([p] + ps) + DecodeFrames(tail);
      assert packets == [p] + ps;
    }
  }

  /** Decoding the concatenation of framed packets yields exactly those packets. */
  lemma DecodeAllRoundTrip(packets: seq<seq<byte>>)
    requires forall i :: 0 <= i < |packets| ==> |packets[i]| < MAX_LEN
    ensures DecodeFrames(EncodeAll(packets)) == packets
  {
    DecodeEncodeAll(packets, []);
    assert EncodeAll(packets) + [] == EncodeAll(packets);
  }

  lemma DecodeFrameRoundTrip(packet: seq<byte>)
    requires |packet| < MAX_LEN
    ensures DecodeFrames(EncodeFrame(packet)) == [packet]
  {
    DecodeFrameThen(packet, []);
    assert EncodeFrame(packet) + [] == EncodeFrame(packet);
    assert DecodeFrames([]) == [];
  }

  /** A tail shorter than a header, or whose header overruns it, decodes to nothing. */
  predicate Truncated(tail: seq<byte>)
  {
    |tail| < 3 || 3 + HeaderValue(tail[0], tail[1], tail[2]) > |tail|
  }

  /** A truncated tail is dropped; every packet before it is still returned. */
  lemma TruncatedTailDropped(packets: seq<seq<byte>>, tail: seq<byte>)
    requires forall i :: 0 <= i < |packets| ==> |packets[i]| < MAX_LEN
    requires Truncated(tail)
    ensures DecodeFrames(EncodeAll(packets) + tail) == packets
  {
    DecodeEncodeAll(packets, tail);
    assert packets + [] == packets;
  }

  /** A tail too short for a header, or whose header overruns it, from `offset` on. */
  predicate TruncatedAt(data: seq<byte>, offset: nat)
  {
    offset + 3 > |data| || offset + 3 + HeaderValue(data[offset], data[offset + 1], data[offset + 2]) > |data|
  }

  /** Every decoded packet is shorter than `MAX_LEN`: its length came from a header. */
  lemma {:induction false} DecodedPacketsFit(data: seq<byte>, offset: nat)
    ensures forall i :: 0 <= i < |DecodeFrom(data, offset)| ==> |DecodeFrom(data, offset)[i]| < MAX_LEN
    decreases |data| - offset
  {
    if offset + 3 <= |data| {
      var len := HeaderValue(data[offset], data[offset + 1], data[offset + 2]);
      if offset + 3 + len <= |data| {
        DecodedPacketsFit(data, offset + 3 + len);
      }
    }
  }

  /** Decoding stops exactly at the first frame that does not fit. */
  lemma {:induction false} DecodedStopsTruncated(data: seq<byte>, offset: nat)
    ensures TruncatedAt(data, offset + |EncodeAll(DecodeFrom(data, offset))|)
    decreases |data| - offset
  {
    var ps := DecodeFrom(data, offset);
    if ps != [] {
      var len := HeaderValue(data[offset], data[offset + 1], data[offset + 2]);
      var next := offset + 3 + len;
      var rest := DecodeFrom(data, next);
      assert ps == [data[offset + 3..next]] + rest;
      assert ps[1..] == rest;
      DecodedStopsTruncated(data, next);
    }
  }

  /** Re-framing the packets decoded from `offset` on rebuilds the input from there. */
  lemma {:induction false} DecodedFrom(data: seq<byte>, offset: nat)
    requires offset <= |data|
    ensures var e := EncodeAll(DecodeFrom(data, offset));
            offset + |e| <= |data| && data[offset..offset + |e|] == e
    decreases |data| - offset
  {
    var ps := DecodeFrom(data, offset);
    if ps == [] {
      assert EncodeAll(ps) == [] == data[offset..offset];
    } else {
      var len := HeaderValue(data[offset], data[offset + 1], data[offset + 2]);
      var next := offset + 3 + len;
      var p, rest := data[offset + 3..next], DecodeFrom(data, next);
      assert ps == [p] + rest;
      DecodedFrom(data, next);
      var e' := EncodeAll(rest);
      FrameAt(data, offset);
      EncodeAllCons(p, rest);
      SliceSplit(data, offset, next, next + |e'|);
    }
  }

  /** A frame that fits, re-encoded, is the bytes it was read from. */
  lemma FrameAt(data: seq<byte>, offset: nat)
    requires offset + 3 <= |data|
    requires offset + 3 + HeaderValue(data[offset], data[offset + 1], data[offset + 2]) <= |data|
    ensures var next := offset + 3 + HeaderValue(data[offset], data[offset + 1], data[offset + 2]);
            EncodeFrame(data[offset + 3..next]) == data[offset..next]
  {
    HeaderOfHeaderValue(data[offset], data[offset + 1], data[offset + 2]);
  }

  lemma EncodeAllCons(p: seq<byte>, rest: seq<seq<byte>>)
    ensures EncodeAll([p] + rest) == EncodeFrame(p) + EncodeAll(rest)
  {
    assert ([p] + rest)[1..] == rest;
  }

  lemma SliceSplit<T>(s: seq<T>, i: nat, j: nat, k: nat)
    requires i <= j <= k <= |s|
    ensures s[i..k] == s[i..j] + s[j..k]
  {
  }

  /**
   * Every decoded packet's length is the value in its header: the packets
   * fit a header, re-framing them rebuilds a prefix of the input, and only
   * an undecodable tail is left over.
   */
  lemma DecodedIsPrefix(data: seq<byte>)
    ensures forall i :: 0 <= i < |DecodeFrames(data)| ==> |DecodeFrames(data)[i]| < MAX_LEN
    ensures var e := EncodeAll(DecodeFrames(data));
            |e| <= |data| && data[..|e|] == e && Truncated(data[|e|..])
  {
    DecodedPacketsFit(data, 0);
    DecodedFrom(data, 0);
    DecodedStopsTruncated(data, 0);
    var k := |EncodeAll(DecodeFrames(data))|;
    var tail := data[k..];
    if |tail| >= 3 {
      assert tail[0] == data[k] && tail[1] == data[k + 1] && tail[2] == data[k + 2];
    }
  }
}
