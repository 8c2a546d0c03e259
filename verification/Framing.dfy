/**
 The wire format of hub messages (src/api/notifications.rs): a payload behind its length in
 7-bit groups, lowest group first, and dates as MessagePack timestamp extension words.
 */
module Framing {
  import opened Common


  // ---------------------------------------------------------------- length prefix

  /** The groups of `n`: every group but the last carries the continuation bit 0x80. */
  function Prefix(n: nat): (bs: seq<Byte>)
    ensures |bs| >= 1
  {
    if n < 128 then [n] else [128 + n % 128] + Prefix(n / 128)
  }

  function Frame(payload: seq<Byte>): seq<Byte> {
    Prefix(|payload|) + payload
  }

  /** `serialize`, after the payload has been encoded. Masking with 0x7f is the remainder by
      128, shifting by 7 the quotient, and setting bit 0x80 of a group adds 128. */
  method Serialize(payload: seq<Byte>) returns (frame: seq<Byte>)
    ensures frame == Frame(payload)
  {
    var size: nat := |payload|;
    var lenBuf: seq<Byte> := [];
    while true
      invariant lenBuf + Prefix(size) == Prefix(|payload|)
      decreases size
    {
      var part: Byte := size % 128;
      ghost var before := size;
      size := size / 128;
      if size > 0 {
        part := part + 128;
      }
      lenBuf := lenBuf + [part];
      if size == 0 {
        assert Prefix(before) == [part];
        break;
      }
      assert lenBuf + Prefix(size) == lenBuf[..|lenBuf| - 1] + Prefix(before);
    }
    frame := lenBuf + payload;
  }

  /** The masks and shifts of the source, on its machine words. */
  lemma GroupsAreRemainders(size: bv64, group: bv8)
    ensures size & 0x7f == size % 128 && size >> 7 == size / 128
    ensures group < 128 ==> group | 0x80 == group + 128
  {
  }

  /** A reader of the prefix, independent of the writer: the value and the bytes it took. */
  function ReadPrefix(bs: seq<Byte>): (r: Option<(nat, nat)>)
    ensures r.Some? ==> 1 <= r.value.1 <= |bs|
  {
    if bs == [] then None
    else if bs[0] < 128 then Some((bs[0], 1))
    else match ReadPrefix(bs[1..])
         case None => None
         case Some((n, k)) => Some((bs[0] - 128 + 128 * n, k + 1))
  }

  function ReadFrame(bs: seq<Byte>): (r: Option<(seq<Byte>, seq<Byte>)>)
    ensures r.Some? ==> |r.value.1| < |bs|
  {
    match ReadPrefix(bs)
    case None => None
    case Some((n, k)) => if k + n <= |bs| then Some((bs[k..k + n], bs[k + n..])) else None
  }

  /** A stream of frames, or `None` if it does not end at a frame boundary. */
  function ReadAll(bs: seq<Byte>): Option<seq<seq<Byte>>>
    decreases |bs|
  {
    if bs == [] then Some([])
    else match ReadFrame(bs)
         case None => None
         case Some((payload, rest)) =>
           match ReadAll(rest)
           case None => None
           case Some(payloads) => Some([payload] + payloads)
  }

  function Stream(payloads: seq<seq<Byte>>): seq<Byte> {
    if payloads == [] then [] else Frame(payloads[0]) + Stream(payloads[1..])
  }

  lemma {:induction false} PrefixIsReadBack(n: nat, rest: seq<Byte>)
    ensures ReadPrefix(Prefix(n) + rest) == Some((n, |Prefix(n)|))
    decreases n
  {
    if n >= 128 {
      PrefixIsReadBack(n / 128, rest);
      assert (Prefix(n) + rest)[1..] == Prefix(n / 128) + rest;
    }
  }

  lemma FrameIsReadBack(payload: seq<Byte>, rest: seq<Byte>)
    ensures ReadFrame(Frame(payload) + rest) == Some((payload, rest))
  {
    var p := Prefix(|payload|);
    assert Frame(payload) + rest == p + (payload + rest);
    PrefixIsReadBack(|payload|, payload + rest);
    assert (p + (payload + rest))[|p|..|p| + |payload|] == payload;
    assert (p + (payload + rest))[|p| + |payload|..] == rest;
  }

  /** Any list of messages, framed one after another, is read back as that list. */
  lemma {:induction false} StreamIsReadBack(payloads: seq<seq<Byte>>)
    ensures ReadAll(Stream(payloads)) == Some(payloads)
  {
    if payloads != [] {
      StreamIsReadBack(payloads[1..]);
      FrameIsReadBack(payloads[0], Stream(payloads[1..]));
      assert payloads == [payloads[0]] + payloads[1..];
    }
  }

  /** No frame begins another, so a reader never stops early. */
  lemma FramesArePrefixFree(p: seq<Byte>, q: seq<Byte>)
    requires Frame(p) <= Frame(q)
    ensures p == q
  {
    var rest := Frame(q)[|Frame(p)|..];
    assert Frame(q) == Frame(p) + rest;
    FrameIsReadBack(p, rest);
    FrameIsReadBack(q, []);
    assert Frame(q) + [] == Frame(q);
  }

  /** Whatever the bytes, the prefix the writer uses for the value they spell is no longer than
      them, and they are the writer's own prefix if they are no longer either. */
  lemma {:induction false} PrefixIsShortest(bs: seq<Byte>)
    requires ReadPrefix(bs).Some?
    ensures var (n, k) := ReadPrefix(bs).value;
            |Prefix(n)| <= k && (|Prefix(n)| == k ==> bs[..k] == Prefix(n))
  {
    var (n, k) := ReadPrefix(bs).value;
    if bs[0] < 128 {
      assert bs[..1] == [bs[0]];
    } else {
      PrefixIsShortest(bs[1..]);
      var (n', k') := ReadPrefix(bs[1..]).value;
      assert n == bs[0] - 128 + 128 * n' && k == k' + 1;
      if n >= 128 {
        assert n / 128 == n' && n % 128 == bs[0] - 128;
        assert bs[..k] == [bs[0]] + bs[1..][..k'];
      }
    }
  }

  // ---------------------------------------------------------------- dates

  /** `(nanos << 34) | seconds` on the 64-bit word; a negative count of seconds is its
      two's-complement word. */
  function TimestampWord(seconds: bv64, nanos: bv64): bv64 {
    (nanos << 34) | seconds
  }

  /** `to_be_bytes`. */
  function BigEndian(w: bv64): (bs: seq<bv8>)
    ensures |bs| == 8
  {
    [((w >> 56) & 0xff) as bv8, ((w >> 48) & 0xff) as bv8, ((w >> 40) & 0xff) as bv8, ((w >> 32) & 0xff) as bv8,
     ((w >> 24) & 0xff) as bv8, ((w >> 16) & 0xff) as bv8, ((w >> 8) & 0xff) as bv8, (w & 0xff) as bv8]
  }

  function SerializeDate(seconds: bv64, nanos: bv64): (bs: seq<bv8>)
    ensures |bs| == 8
  {
    BigEndian(TimestampWord(seconds, nanos))
  }

  /** The eight bytes as an unsigned word. */
  function ReadWord(bs: seq<bv8>): bv64
    requires |bs| == 8
  {
    ((bs[0] as bv64) << 56) | ((bs[1] as bv64) << 48) | ((bs[2] as bv64) << 40) | ((bs[3] as bv64) << 32)
    | ((bs[4] as bv64) << 24) | ((bs[5] as bv64) << 16) | ((bs[6] as bv64) << 8) | (bs[7] as bv64)
  }

  /** Timestamp 64 of the MessagePack specification: 30 bits of nanoseconds above 34 bits of
      seconds, both unsigned. */
  function ReadDate(bs: seq<bv8>): (bv64, bv64)
    requires |bs| == 8
  {
    (ReadWord(bs) & 0x3_ffff_ffff, ReadWord(bs) >> 34)
  }

  lemma BytesRoundTrip(w: bv64)
    ensures ReadWord(BigEndian(w)) == w
  {
  }

  /** A date is read back exactly when its seconds fit 34 bits unsigned, so from 1970 up to the
      year 2514, and its nanoseconds 30 bits; a set sign bit does no harm. */
  lemma DateIsReadBackExactly(seconds: bv64, nanos: bv64)
    ensures ReadDate(SerializeDate(seconds, nanos)) == (seconds, nanos)
            <==> seconds < 0x4_0000_0000 && nanos < 0x4000_0000
  {
    BytesRoundTrip(TimestampWord(seconds, nanos));
  }
}
