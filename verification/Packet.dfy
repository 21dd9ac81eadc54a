/** The wire format of one voice datagram: a fixed 30-byte outer header, then a
12-byte channel subheader and the audio, in the clear or as one AEAD ciphertext. */
module Packet {
  import opened Wrappers

  const HEADER_SIZE := 30
  const CHANNEL_HEADER_SIZE := 12
  const TAG_SIZE := 16
  const MAX_PACKET_SIZE := 1200
  const MASTER_KEY_SIZE := 32
  const PROTOCOL_VERSION: byte := 1
  const TWO_TO_THE_64: int := 0x1_0000_0000_0000_0000
  const MAGIC: seq<byte> := [0x5A, 0x56, 0x58, 0x31] // "ZVX1"

  type byte = x: int | 0 <= x < 0x100 witness 0
  type uint16 = x: int | 0 <= x < 0x1_0000 witness 0
  type uint64 = x: int | 0 <= x < TWO_TO_THE_64 witness 0
  type int64 = x: int | -0x8000_0000_0000_0000 <= x < 0x8000_0000_0000_0000 witness 0
  type SessionID = s: seq<byte> | |s| == 16 witness [0, 0, 0, 0, 0, 0, 0, 0, 0, 0, 0, 0, 0, 0, 0, 0]

  datatype ChannelHeader = ChannelHeader(channelType: byte, channelSeq: uint16, flags: byte, speakerID: int64)
  datatype Decoded = Decoded(id: SessionID, sequence: uint64, ch: ChannelHeader, payload: seq<byte>)
  datatype Error = SequenceZero | PayloadTooLarge | InvalidKey | NoKey
  datatype Result<+T> = Ok(value: T) | Err(error: Error)

  function MaxPayload(encrypted: bool): nat {
    MAX_PACKET_SIZE - HEADER_SIZE - CHANNEL_HEADER_SIZE - (if encrypted then TAG_SIZE else 0)
  }

  function MinPacketSize(encrypted: bool): nat {
    HEADER_SIZE + CHANNEL_HEADER_SIZE + (if encrypted then TAG_SIZE else 0)
  }

  // ----- Big-endian integers -----

  function Pow256(n: nat): nat {
    if n == 0 then 1 else 0x100 * Pow256(n - 1)
  }

  function BigEndian(v: nat, n: nat): (s: seq<byte>)
    ensures |s| == n
  {
    if n == 0 then [] else BigEndian(v / 0x100, n - 1) + [v % 0x100]
  }

  function FromBigEndian(s: seq<byte>): (v: nat)
    ensures v < Pow256(|s|)
  {
    if s == [] then 0 else FromBigEndian(s[..|s| - 1]) * 0x100 + s[|s| - 1]
  }

  lemma {:induction false} BigEndianRoundTrip(v: nat, n: nat)
    requires v < Pow256(n)
    ensures FromBigEndian(BigEndian(v, n)) == v
  {
    if n > 0 {
      BigEndianRoundTrip(v / 0x100, n - 1);
      assert BigEndian(v, n)[..n - 1] == BigEndian(v / 0x100, n - 1);
    }
  }

  lemma {:induction false} FromBigEndianRoundTrip(s: seq<byte>)
    ensures BigEndian(FromBigEndian(s), |s|) == s
  {
    if s != [] {
      FromBigEndianRoundTrip(s[..|s| - 1]);
      assert s == s[..|s| - 1] + [s[|s| - 1]];
    }
  }

  lemma Widths()
    ensures Pow256(2) == 0x1_0000 && Pow256(8) == TWO_TO_THE_64
  {}

  // The two's complement reading of a signed speaker id.
  function ToUnsigned(x: int64): uint64 {
    if x < 0 then x + TWO_TO_THE_64 else x
  }

  function ToSigned(x: uint64): int64 {
    if x < 0x8000_0000_0000_0000 then x else x - TWO_TO_THE_64
  }

  // ----- Headers -----

  function OuterHeader(id: SessionID, sequence: uint64): (h: seq<byte>)
    ensures |h| == HEADER_SIZE
  {
    MAGIC + [PROTOCOL_VERSION, 0] + id + BigEndian(sequence, 8)
  }

  function ParseOuterHeader(p: seq<byte>): Option<(SessionID, uint64)> {
    if |p| < HEADER_SIZE || |p| > MAX_PACKET_SIZE then None
    else if p[0..4] != MAGIC || p[4] != PROTOCOL_VERSION || p[5] != 0 then None
    else
      var sequence := FromBigEndian(p[22..30]);
      if sequence == 0 then None else
      Widths();
      Some((p[6..22], sequence))
  }

  function ChannelBytes(ch: ChannelHeader): (h: seq<byte>)
    ensures |h| == CHANNEL_HEADER_SIZE
  {
    [ch.channelType] + BigEndian(ch.channelSeq, 2) + [ch.flags] + BigEndian(ToUnsigned(ch.speakerID), 8)
  }

  function ParseChannelHeader(p: seq<byte>): Option<ChannelHeader> {
    if |p| < CHANNEL_HEADER_SIZE then None
    else
      Widths();
      Some(ChannelHeader(p[0], FromBigEndian(p[1..3]), p[3], ToSigned(FromBigEndian(p[4..12]))))
  }

  lemma OuterHeaderRoundTrip(id: SessionID, sequence: uint64, tail: seq<byte>)
    requires sequence != 0 && |tail| <= MAX_PACKET_SIZE - HEADER_SIZE
    ensures ParseOuterHeader(OuterHeader(id, sequence) + tail) == Some((id, sequence))
  {
    var p := OuterHeader(id, sequence) + tail;
    Widths();
    assert p[0..4] == MAGIC && p[6..22] == id && p[22..30] == BigEndian(sequence, 8);
    BigEndianRoundTrip(sequence, 8);
  }

  lemma OuterHeaderParsed(p: seq<byte>)
    requires ParseOuterHeader(p).Some?
    ensures var (id, sequence) := ParseOuterHeader(p).value; OuterHeader(id, sequence) == p[..HEADER_SIZE]
  {
    FromBigEndianRoundTrip(p[22..30]);
    assert p[..HEADER_SIZE] == p[0..4] + [p[4], p[5]] + p[6..22] + p[22..30];
  }

  lemma ChannelRoundTrip(ch: ChannelHeader, tail: seq<byte>)
    ensures ParseChannelHeader(ChannelBytes(ch) + tail) == Some(ch)
  {
    var p := ChannelBytes(ch) + tail;
    Widths();
    assert p[1..3] == BigEndian(ch.channelSeq, 2) && p[4..12] == BigEndian(ToUnsigned(ch.speakerID), 8);
    BigEndianRoundTrip(ch.channelSeq, 2);
    BigEndianRoundTrip(ToUnsigned(ch.speakerID), 8);
  }

  lemma ChannelParsed(p: seq<byte>)
    requires |p| >= CHANNEL_HEADER_SIZE
    ensures ParseChannelHeader(p).Some?
    ensures ChannelBytes(ParseChannelHeader(p).value) == p[..CHANNEL_HEADER_SIZE]
  {
    FromBigEndianRoundTrip(p[1..3]);
    FromBigEndianRoundTrip(p[4..12]);
    Widths();
    var ch := ParseChannelHeader(p).value;
    assert BigEndian(ch.channelSeq, 2) == p[1..3];
    assert ToUnsigned(ch.speakerID) == FromBigEndian(p[4..12]);
    assert BigEndian(ToUnsigned(ch.speakerID), 8) == p[4..12];
    hide BigEndian, FromBigEndian;
    assert p[..CHANNEL_HEADER_SIZE] == [p[0]] + p[1..3] + [p[3]] + p[4..12];
  }

  // ----- Authenticated encryption -----

  /** A direction key's cipher: seal(nonce, aad, plaintext) and its inverse. */
  datatype Aead = Aead(
    seal: (seq<byte>, seq<byte>, seq<byte>) -> seq<byte>,
    open: (seq<byte>, seq<byte>, seq<byte>) -> Option<seq<byte>>)

  /** The laws of AES-256-GCM the protocol uses: opening undoes sealing, a tag of
      16 bytes is added, and only sealed text opens. */
  ghost predicate Lawful(gcm: Aead) {
    && (forall n, a, p :: gcm.open(n, a, gcm.seal(n, a, p)) == Some(p) && |gcm.seal(n, a, p)| == |p| + TAG_SIZE)
    && (forall n, a, c :: gcm.open(n, a, c).Some? ==> gcm.seal(n, a, gcm.open(n, a, c).value) == c)
  }

  function NonceFor(sequence: uint64): (nonce: seq<byte>)
    ensures |nonce| == 12
  {
    [0, 0, 0, 0] + BigEndian(sequence, 8)
  }

  /** Distinct sequences give distinct nonces. */
  lemma NonceInjective(s: uint64, t: uint64)
    ensures NonceFor(s) == NonceFor(t) <==> s == t
  {
    if NonceFor(s) == NonceFor(t) {
      assert NonceFor(s)[4..] == BigEndian(s, 8) && NonceFor(t)[4..] == BigEndian(t, 8);
      Widths();
      BigEndianRoundTrip(s, 8);
      BigEndianRoundTrip(t, 8);
    }
  }

  // ----- Whole datagrams -----

  function Body(ch: ChannelHeader, payload: seq<byte>): seq<byte> {
    ChannelBytes(ch) + payload
  }

  function Datagram(id: SessionID, sequence: uint64, encrypted: bool, aead: Option<Aead>,
                    ch: ChannelHeader, payload: seq<byte>): Result<seq<byte>>
  {
    if sequence == 0 then Err(SequenceZero)
    else if |payload| > MaxPayload(encrypted) then Err(PayloadTooLarge)
    else
      var header := OuterHeader(id, sequence);
      if !encrypted then Ok(header + Body(ch, payload))
      else if aead.None? then Err(NoKey)
      else Ok(header + aead.value.seal(NonceFor(sequence), header, Body(ch, payload)))
  }

  /** EncodePacket; `gcm` is the AES-256-GCM construction for a valid key. */
  function EncodePacket(gcm: seq<byte> -> Aead, id: SessionID, sequence: uint64, encrypted: bool,
                        key: seq<byte>, ch: ChannelHeader, payload: seq<byte>): Result<seq<byte>>
  {
    if sequence == 0 then Err(SequenceZero)
    else if encrypted then
      if |key| != MASTER_KEY_SIZE then Err(InvalidKey)
      else Datagram(id, sequence, true, Some(gcm(key)), ch, payload)
    else Datagram(id, sequence, false, None, ch, payload)
  }

  function DecodePacket(gcm: seq<byte> -> Aead, packet: seq<byte>, encrypted: bool, key: seq<byte>): Option<Decoded>
  {
    var outer := ParseOuterHeader(packet);
    if outer.None? then None
    else if |packet| < MinPacketSize(encrypted) then None
    else
      var (id, sequence) := outer.value;
      var body :=
        if !encrypted then Some(packet[HEADER_SIZE..])
        else if |key| != MASTER_KEY_SIZE then None
        else gcm(key).open(NonceFor(sequence), packet[..HEADER_SIZE], packet[HEADER_SIZE..]);
      if body.None? then None
      else
        var ch := ParseChannelHeader(body.value);
        if ch.None? then None
        else Some(Decoded(id, sequence, ch.value, body.value[CHANNEL_HEADER_SIZE..]))
  }

  ghost predicate Encodable(d: Decoded, encrypted: bool, key: seq<byte>) {
    d.sequence != 0 && |d.payload| <= MaxPayload(encrypted) && (encrypted ==> |key| == MASTER_KEY_SIZE)
  }

  /** EncodePacket succeeds exactly on encodable content, its datagram fits the
      packet limit, and DecodePacket gives the content back. */
  lemma EncodeThenDecode(gcm: seq<byte> -> Aead, d: Decoded, encrypted: bool, key: seq<byte>)
    requires encrypted ==> Lawful(gcm(key))
    ensures
      var r := EncodePacket(gcm, d.id, d.sequence, encrypted, key, d.ch, d.payload);
      && (r.Ok? <==> Encodable(d, encrypted, key))
      && (r.Ok? ==> MinPacketSize(encrypted) <= |r.value| <= MAX_PACKET_SIZE)
      && (r.Ok? ==> DecodePacket(gcm, r.value, encrypted, key) == Some(d))
  {
    if Encodable(d, encrypted, key) {
      var header, body := OuterHeader(d.id, d.sequence), Body(d.ch, d.payload);
      var tail := if encrypted then gcm(key).seal(NonceFor(d.sequence), header, body) else body;
      OuterHeaderRoundTrip(d.id, d.sequence, tail);
      ChannelRoundTrip(d.ch, d.payload);
      assert (header + tail)[..HEADER_SIZE] == header && (header + tail)[HEADER_SIZE..] == tail;
      assert body[CHANNEL_HEADER_SIZE..] == d.payload;
    }
  }

  /** Every datagram that decodes re-encodes to the same bytes. */
  lemma DecodeThenEncode(gcm: seq<byte> -> Aead, packet: seq<byte>, encrypted: bool, key: seq<byte>)
    requires encrypted ==> Lawful(gcm(key))
    ensures
      var r := DecodePacket(gcm, packet, encrypted, key);
      r.Some? ==>
        var d := r.value;
        EncodePacket(gcm, d.id, d.sequence, encrypted, key, d.ch, d.payload) == Ok(packet)
  {
    var r := DecodePacket(gcm, packet, encrypted, key);
    if r.Some? {
      var d := r.value;
      OuterHeaderParsed(packet);
      var header, tail := packet[..HEADER_SIZE], packet[HEADER_SIZE..];
      assert packet == header + tail;
      var body := if encrypted then gcm(key).open(NonceFor(d.sequence), header, tail).value else tail;
      assert encrypted ==> gcm(key).seal(NonceFor(d.sequence), header, body) == tail;
      ChannelParsed(body);
      assert body == Body(d.ch, d.payload) by {
        assert body == body[..CHANNEL_HEADER_SIZE] + body[CHANNEL_HEADER_SIZE..];
      }
    }
  }

  // ----- Where the bytes go -----

  // The number shifted right by k bytes.
  function ShiftBytes(n: nat, k: nat): nat {
    if k == 0 then n else ShiftBytes(n / 0x100, k - 1)
  }

  // Byte i of a number written in `width` bytes, most significant first.
  function ByteAt(n: nat, width: nat, i: nat): int
    requires i < width
  {
    ShiftBytes(n, width - 1 - i) % 0x100
  }

  lemma {:induction false} BigEndianLayout(n: nat, width: nat, i: nat)
    requires i < width
    ensures |BigEndian(n, width)| == width && BigEndian(n, width)[i] == ByteAt(n, width, i)
  {
    if i < width - 1 { BigEndianLayout(n / 0x100, width - 1, i); }
  }

  /** The outer header: magic, version 1, a zero byte, the session id, then the sequence
      in network byte order. */
  lemma OuterHeaderLayout(id: SessionID, sequence: uint64, i: nat)
    requires i < HEADER_SIZE
    ensures |OuterHeader(id, sequence)| == HEADER_SIZE
    ensures OuterHeader(id, sequence)[i] ==
      if i < 4 then [0x5A, 0x56, 0x58, 0x31][i] else if i == 4 then 1 else if i == 5 then 0
      else if i < 22 then id[i - 6] else ByteAt(sequence, 8, i - 22)
  {
    if i >= 22 { BigEndianLayout(sequence, 8, i - 22); }
  }

  /** The nonce: four zero bytes, then the sequence in network byte order. */
  lemma NonceLayout(sequence: uint64, i: nat)
    requires i < 12
    ensures NonceFor(sequence)[i] == if i < 4 then 0 else ByteAt(sequence, 8, i - 4)
  {
    if i >= 4 { BigEndianLayout(sequence, 8, i - 4); }
  }

  /** The channel header: type, sequence, flags, then the speaker id as two's complement. */
  lemma ChannelLayout(ch: ChannelHeader, i: nat)
    requires i < CHANNEL_HEADER_SIZE
    ensures |ChannelBytes(ch)| == CHANNEL_HEADER_SIZE
    ensures ChannelBytes(ch)[i] ==
      if i == 0 then ch.channelType else if i < 3 then ByteAt(ch.channelSeq, 2, i - 1) else if i == 3 then ch.flags
      else ByteAt(if ch.speakerID < 0 then TWO_TO_THE_64 + ch.speakerID else ch.speakerID, 8, i - 4)
  {
    if 1 <= i < 3 { BigEndianLayout(ch.channelSeq, 2, i - 1); }
    if i >= 4 { BigEndianLayout(ToUnsigned(ch.speakerID), 8, i - 4); }
  }

  // ----- Filling a caller's buffer -----

  method CopyInto(dst: array<byte>, at: nat, bytes: seq<byte>)
    requires at + |bytes| <= dst.Length
    modifies dst
    ensures dst[..] == old(dst[..at]) + bytes + old(dst[at + |bytes|..])
  {
    forall i | 0 <= i < |bytes| {
      dst[at + i] := bytes[i];
    }
  }

  method PutOuterHeader(dst: array<byte>, id: SessionID, sequence: uint64)
    requires dst.Length >= HEADER_SIZE
    modifies dst
    ensures dst[..] == OuterHeader(id, sequence) + old(dst[HEADER_SIZE..])
  {
    CopyInto(dst, 0, MAGIC);
    dst[4] := PROTOCOL_VERSION;
    dst[5] := 0;
    CopyInto(dst, 6, id);
    CopyInto(dst, 22, BigEndian(sequence, 8));
  }

  method PutChannelHeader(dst: array<byte>, ch: ChannelHeader)
    requires dst.Length >= CHANNEL_HEADER_SIZE
    modifies dst
    ensures dst[..] == ChannelBytes(ch) + old(dst[CHANNEL_HEADER_SIZE..])
  {
    dst[0] := ch.channelType;
    CopyInto(dst, 1, BigEndian(ch.channelSeq, 2));
    dst[3] := ch.flags;
    CopyInto(dst, 4, BigEndian(ToUnsigned(ch.speakerID), 8));
  }

  /** buildPacket: fills a header and a body buffer, then joins them. */
  method BuildPacket(id: SessionID, sequence: uint64, encrypted: bool, aead: Option<Aead>,
                     ch: ChannelHeader, payload: seq<byte>)
    returns (r: Result<seq<byte>>)
    ensures r == Datagram(id, sequence, encrypted, aead, ch, payload)
  {
    if sequence == 0 {
      return Err(SequenceZero);
    }
    if |payload| > MaxPayload(encrypted) {
      return Err(PayloadTooLarge);
    }
    var header := new byte[HEADER_SIZE];
    PutOuterHeader(header, id, sequence);
    var body := new byte[CHANNEL_HEADER_SIZE + |payload|];
    PutChannelHeader(body, ch);
    CopyInto(body, CHANNEL_HEADER_SIZE, payload);
    assert header[..] == OuterHeader(id, sequence) && body[..] == Body(ch, payload);
    if !encrypted {
      return Ok(header[..] + body[..]);
    }
    if aead.None? {
      return Err(NoKey);
    }
    return Ok(header[..] + aead.value.seal(NonceFor(sequence), header[..], body[..]));
  }
}
