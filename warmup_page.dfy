/**
 * The constant Ogg page the custom client feeds its Opus decoder before any
 * audio arrives: one beginning-of-stream page (section 6 of RFC 3533, "The
 * Ogg page format") whose single packet is an OpusHead identification header
 * (section 5.1 of RFC 7845) for a mono 48 kHz stream. Each group of fields
 * is checked by a lemma of its own.
 */
module WarmupPage {
  import opened Bytes

  /** Length of an Ogg page header up to, not including, the segment table. */
  const FIXED_HEADER_LEN: nat := 27

  /** The `header_type` flag marking the first page of a logical stream. */
  const BEGINNING_OF_STREAM: byte := 0x02

  /** The `opusHead` array of `createWarmupBosPage`. */
  function OpusHead(): (h: seq<byte>)
    ensures |h| == 19
  {
    [0x4f, 0x70, 0x75, 0x73, 0x48, 0x65, 0x61, 0x64,
     0x01, 0x01, 0x38, 0x01, 0x80, 0xbb, 0x00, 0x00,
     0x00, 0x00, 0x00]
  }

  /** Magic signature, version 1, and one channel (mono). */
  lemma OpusHeadIdentity()
    ensures var h := OpusHead();
            && AsciiAt(h, 0, "OpusHead")
            && h[8] == 1
            && h[9] == 1
  {
  }

  /** Pre-skip 0x0138, input sample rate 48 kHz, no output gain, mapping family 0. */
  lemma OpusHeadParameters()
    ensures var h := OpusHead();
            && LE16(h[10], h[11]) == 312
            && LE32(h[12], h[13], h[14], h[15]) == 48000
            && LE16(h[16], h[17]) == 0
            && h[18] == 0
  {
  }

  /** The `pageHeader` array: the 27 fixed bytes and a one-entry segment table. */
  function PageHeader(): (h: seq<byte>)
    ensures |h| == FIXED_HEADER_LEN + 1
  {
    [0x4f, 0x67, 0x67, 0x53, 0x00, 0x02,
     0x00, 0x00, 0x00, 0x00, 0x00, 0x00, 0x00, 0x00,
     0x01, 0x00, 0x00, 0x00,
     0x00, 0x00, 0x00, 0x00,
     0x00, 0x00, 0x00, 0x00,
     0x01, 0x13]
  }

  /** Capture pattern "OggS", stream structure version 0, and the beginning-of-stream flag. */
  lemma PageHeaderIdentity()
    ensures var h := PageHeader();
            && AsciiAt(h, 0, "OggS")
            && h[4] == 0
            && h[5] == BEGINNING_OF_STREAM
  {
  }

  /** Granule position 0, all eight bytes of it. */
  lemma PageHeaderGranule()
    ensures var h := PageHeader();
            && LE32(h[6], h[7], h[8], h[9]) == 0
            && LE32(h[10], h[11], h[12], h[13]) == 0
  {
  }

  /** Bitstream serial number 1 and page sequence number 0. */
  lemma PageHeaderNumbers()
    ensures var h := PageHeader();
            && LE32(h[14], h[15], h[16], h[17]) == 1
            && LE32(h[18], h[19], h[20], h[21]) == 0
  {
  }

  /** A CRC field left zero: the page does not carry the checksum section 6 of RFC 3533 asks for. */
  lemma PageHeaderChecksum()
    ensures var h := PageHeader(); LE32(h[22], h[23], h[24], h[25]) == 0
  {
  }

  /** One segment, whose lacing value 0x13 is below 255, so the packet ends on this page. */
  lemma PageHeaderSegments()
    ensures var h := PageHeader();
            && h[26] == 1
            && h[27] == 0x13 < 255
  {
  }

  /** `createWarmupBosPage`: the page header followed by the OpusHead packet. */
  function WarmupBosPage(): (page: seq<byte>)
    ensures |page| == |PageHeader()| + |OpusHead()| == 47
  {
    PageHeader() + OpusHead()
  }

  /**
   * The page is well formed: after the fixed header comes a segment table
   * of `page_segments` entries, the lacing values add up to the rest of the
   * page, and that rest is the whole OpusHead packet.
   */
  lemma WarmupPageIsWellFormed()
    ensures var page := WarmupBosPage();
            && page[..FIXED_HEADER_LEN + 1] == PageHeader()
            && page[26] == 1
            && page[27] == |page| - FIXED_HEADER_LEN - page[26]
            && page[FIXED_HEADER_LEN + page[26]..] == OpusHead()
  {
    var page, h := WarmupBosPage(), PageHeader();
    assert page[..28] == h;
    assert page[28..] == OpusHead();
    PageHeaderSegments();
  }
}
