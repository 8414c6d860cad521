/** The wire vocabulary shared by the frame writer and the frame reader: 32-bit words seen as
    two 16-bit halves, messages, and frames.

    A frame is a sequence of words. Its first word is an `AkvaHdr` (low half: stamp, that is the
    10-bit counter and the 6-bit origin; high half: pointer). A message part that opens a message
    starts with an `AkvaBody` word (low half: length in bytes; high half: spec). Every other word
    is payload. The halves are in the order in which a little-endian machine stores the structs. */
module Wire {

  type u16 = x: int | 0 <= x < 0x1_0000

  datatype Word = Word(lo: u16, hi: u16)

  type Frame = seq<Word>

  const MAX_COUNTER := 1024
  const MORE: u16 := 0xffff  // the pointer of a frame whose payload all continues one message
  const MAX_LEN := 65532     // the largest length that survives rounding up in 16 bits

  /** Words needed for x bytes (`Frame::ceil4`). */
  function Ceil4(x: nat): nat {
    (x + 3) / 4
  }

  /** The 16-bit byte count of a payload of x bytes rounded up to whole words; it wraps. */
  function Normalize(x: u16): u16 {
    Ceil4(x) * 4 % 0x1_0000
  }

  /** Rounding up takes as few words as hold x bytes. In 16 bits it keeps the size exactly for lengths up to
      MAX_LEN; the three greatest lengths come out as 0 bytes. */
  lemma NormalizeKeeps(x: u16)
    ensures x <= 4 * Ceil4(x) < x + 4
    ensures Normalize(x) == 4 * Ceil4(x) <==> x <= MAX_LEN
    ensures x > MAX_LEN ==> Normalize(x) == 0
  {
    assert Ceil4(x) == (x + 3) / 4;
    assert x > MAX_LEN ==> Ceil4(x) == 16384;
  }

  /** The counter half of a frame header. */
  function Stamp(counter: nat, qos: nat): u16
    requires qos < 64
  {
    counter % MAX_COUNTER + qos * MAX_COUNTER
  }

  /** The origin carried by a frame header. */
  function QoS(frame: Frame): nat
    requires frame != []
  {
    frame[0].lo / MAX_COUNTER
  }

  /** A message: `data` is the payload padded to whole words. */
  datatype Msg = Msg(spec: u16, len: u16, data: seq<Word>) {
    /** What any call of `Write` hands over: the payload padded to words. */
    predicate Padded() {
      |data| == Ceil4(len)
    }

    /** A message that can come out of a reader again. */
    predicate Valid(): (valid: bool)
      ensures valid ==> Padded()
    {
      0 < len <= MAX_LEN && Padded()
    }

    function Body(): Word {
      Word(len, spec)
    }

    /** All words of the message: body header, then payload. */
    function Words(): seq<Word> {
      [Body()] + data
    }
  }
}
