/** The sealed stream byte by byte: where each frame stands and what its bytes are. */
module WireFormat {
  import opened Frames
  import opened Exactness

  /** Four bytes, the most significant first. */
  predicate BigEndian(b: Bytes, n: int) {
    |b| == 4 && n == b[0] as int * 16777216 + b[1] as int * 65536 + b[2] as int * 256 + b[3] as int
  }

  lemma Be32IsBigEndian(n: int)
    requires 0 <= n < WRAP
    ensures BigEndian(Be32(n), n)
  {
    Be32RoundTrip(n);
  }

  /** What frame k holds of the payload: a mebibyte, and in the last frame what is left. */
  function Slice(payload: Bytes, k: nat): Bytes
    requires k * 1048576 <= |payload|
  {
    if (k + 1) * 1048576 <= |payload| then payload[k * 1048576..(k + 1) * 1048576] else payload[k * 1048576..]
  }

  /** The nonce of frame k: the archive's prefix, the frame's number in 32 bits, and the flag. */
  ghost predicate NonceIs(nonce: Bytes, prefix: Bytes, k: nat, last: bool) {
    && |nonce| == |prefix| + 5 && nonce[..|prefix|] == prefix
    && BigEndian(nonce[|prefix|..|prefix| + 4], k % 4294967296)
    && nonce[|prefix| + 4] == if last then 1 else 0
  }

  lemma NonceBytes(prefix: Bytes, k: nat, last: bool)
    ensures NonceIs(NonceFor(prefix, k, last), prefix, k, last)
  {
    var n := NonceFor(prefix, k, last);
    assert n[|prefix|..|prefix| + 4] == Be32(Low32(k));
    Be32IsBigEndian(Low32(k));
  }

  /** A frame: the flag, the sealed length, and the piece sealed under its nonce. */
  ghost predicate FrameIs(c: Cipher, frame: Bytes, prefix: Bytes, piece: Bytes, k: nat, last: bool) {
    && |frame| == 5 + |piece| + 16
    && frame[0] == (if last then 1 else 0)
    && BigEndian(frame[1..5], |piece| + 16)
    && exists nonce :: NonceIs(nonce, prefix, k, last) && frame[5..] == c.seal(nonce, piece)
  }

  lemma FrameBytes(c: Cipher, prefix: Bytes, piece: Bytes, k: nat, last: bool)
    requires Ideal(c) && |piece| <= CHUNK
    ensures FrameIs(c, Frame(c, prefix, piece, k, last), prefix, piece, k, last)
  {
    var f, nonce := Frame(c, prefix, piece, k, last), NonceFor(prefix, k, last);
    NonceBytes(prefix, k, last);
    Be32IsBigEndian(|piece| + TAG);
    assert f[1..5] == Be32(|piece| + TAG);
    assert f[5..] == c.seal(nonce, piece);
  }

  lemma SlicesArePieces(payload: Bytes, k: nat)
    requires k * CHUNK <= |payload|
    ensures Slice(payload, k) == Piece(payload, k) && |Piece(payload, k)| <= CHUNK
  {
  }

  lemma OnTheWire(c: Cipher, prefix: Bytes, payload: Bytes, k: nat)
    requires Ideal(c) && k < FrameCount(payload)
    ensures var w, f, at := Wire(c, prefix, payload), NthFrame(c, prefix, payload, k), k * 1048597;
      at + |f| <= |w| && w[at..at + |f|] == f
  {
    var f := NthFrame(c, prefix, payload, k);
    WireSplits(c, prefix, payload, k);
    WireLength(c, prefix, payload, k);
    WireStep(c, prefix, payload, k);
    Between(WireUpTo(c, prefix, payload, k), f, WireFrom(c, prefix, payload, k + 1));
  }

  lemma Between(a: Bytes, f: Bytes, b: Bytes)
    ensures var w := a + (f + b);
      w[|a|..|a| + |f|] == f
  {
  }

  /** The written stream is frame after frame, the k-th at byte k * 1048597: its flag says whether it
      is the last, its length counts the tag, and it holds the k-th slice of the payload, sealed under
      the nonce of its number and flag. */
  lemma WireBytes(c: Cipher, prefix: Bytes, payload: Bytes, k: nat)
    requires Ideal(c) && k * 1048576 <= |payload|
    ensures var w, piece, at := Wire(c, prefix, payload), Slice(payload, k), k * 1048597;
      && at + 5 + |piece| + 16 <= |w|
      && FrameIs(c, w[at..at + 5 + |piece| + 16], prefix, piece, k, |payload| < (k + 1) * 1048576)
  {
    NumberOfFrames(payload, k);
    SlicesArePieces(payload, k);
    FrameBytes(c, prefix, Piece(payload, k), k, k + 1 == FrameCount(payload));
    OnTheWire(c, prefix, payload, k);
  }

  lemma NumberOfFrames(payload: Bytes, k: nat)
    requires k * CHUNK <= |payload|
    ensures k < FrameCount(payload)
    ensures k + 1 == FrameCount(payload) <==> |payload| < (k + 1) * CHUNK
  {
  }

  /** And nothing follows the last frame. */
  lemma WireEnds(c: Cipher, prefix: Bytes, payload: Bytes)
    requires Ideal(c)
    ensures |Wire(c, prefix, payload)| == |payload| + 21 * (|payload| / 1048576 + 1)
  {
    var k: nat := FrameCount(payload) - 1;
    WireSplits(c, prefix, payload, k);
    WireLength(c, prefix, payload, k);
    LastWire(c, prefix, payload, k);
    LastLength(c, prefix, payload, k);
  }

  lemma LastLength(c: Cipher, prefix: Bytes, payload: Bytes, k: nat)
    requires Ideal(c) && k + 1 == FrameCount(payload)
    ensures |NthFrame(c, prefix, payload, k)| == |payload| - k * CHUNK + 21
  {
  }

  /** Why a stream is refused before anything is opened: cut off in a header or a body, a flag that
      is none, or a length that is zero or beyond a chunk and 4096 bytes. */
  lemma RefusedUnopened(c: Cipher, log: set<Entry>, prefix: Bytes, s: Bytes, k: nat, n: int)
    requires |s| >= 5 ==> BigEndian(s[1..5], n)
    ensures |s| < 5 ==> Drain(c, log, prefix, s, k) == Outcome([], Truncated)
    ensures |s| >= 5 && s[0] > 1 ==> Drain(c, log, prefix, s, k) == Outcome([], BadFlag)
    ensures |s| >= 5 && s[0] <= 1 && (n == 0 || n > 1048576 + 4096) ==> Drain(c, log, prefix, s, k) == Outcome([], BadLength)
    ensures |s| >= 5 && s[0] <= 1 && 0 < n <= 1048576 + 4096 && |s| < 5 + n ==> Drain(c, log, prefix, s, k) == Outcome([], Truncated)
  {
  }
}
