/** What a sealed stream can be read as: under an ideal cipher, only as what was written. */
module Exactness {
  import opened Text
  import opened Frames

  /** How reading ends. */
  datatype End = Eof | Truncated | BadFlag | BadLength | BadAuth

  /** The plaintext a reader delivers until it ends, and how it ends. */
  datatype Outcome = Outcome(data: Bytes, end: End)

  function Before(data: Bytes, o: Outcome): Outcome {
    o.(data := data + o.data)
  }

  /** After the final frame nothing may follow. */
  function AtEnd(rest: Bytes): Outcome {
    Outcome([], if rest == [] then Eof else Truncated)
  }

  /** The length the next header declares. */
  function Declared(stream: Bytes): int
    requires |stream| >= 5
  {
    FromBe32(stream[1..5])
  }

  /** The next frame's fate without the cipher: why it is refused before it is opened. */
  function Malformed(stream: Bytes): Option<End> {
    if |stream| < 5 then Some(Truncated)
    else if stream[0] > 1 then Some(BadFlag)
    else if Declared(stream) == 0 || Declared(stream) > MAX_FRAME then Some(BadLength)
    else if |stream| < 5 + Declared(stream) then Some(Truncated)
    else None
  }

  function Body(stream: Bytes): Bytes
    requires Malformed(stream) == None
  {
    stream[5..5 + Declared(stream)]
  }

  function Tail(stream: Bytes): Bytes
    requires Malformed(stream) == None
  {
    stream[5 + Declared(stream)..]
  }

  ghost function NextPlain(c: Cipher, log: set<Entry>, prefix: Bytes, stream: Bytes, k: nat): Option<Bytes>
    requires Malformed(stream) == None
  {
    Opened(c, log, NonceFor(prefix, k, stream[0] == 1), Body(stream))
  }

  /** The next frame is refused. */
  ghost predicate Unopened(c: Cipher, log: set<Entry>, prefix: Bytes, stream: Bytes, k: nat)
  {
    Malformed(stream).Some? || NextPlain(c, log, prefix, stream, k).None?
  }

  /** Reading stream to its end, the next frame being number k. */
  ghost function Drain(c: Cipher, log: set<Entry>, prefix: Bytes, stream: Bytes, k: nat): Outcome
    decreases |stream|
  {
    if Malformed(stream).Some? then Outcome([], Malformed(stream).value)
    else if NextPlain(c, log, prefix, stream, k).None? then Outcome([], BadAuth)
    else
      var plain := NextPlain(c, log, prefix, stream, k).value;
      Before(plain, if stream[0] == 1 then AtEnd(Tail(stream)) else Drain(c, log, prefix, Tail(stream), k + 1))
  }

  // -------------------------------------------------------------- round trip

  /** A frame put in front of a stream is read as just that frame. */
  lemma FrameHead(c: Cipher, prefix: Bytes, piece: Bytes, k: nat, final: bool, rest: Bytes)
    requires Ideal(c) && |piece| <= CHUNK
    ensures var s := Frame(c, prefix, piece, k, final) + rest;
      && Malformed(s) == None && (s[0] == 1 <==> final)
      && Body(s) == c.seal(NonceFor(prefix, k, final), piece) && Tail(s) == rest
  {
    var sealed := c.seal(NonceFor(prefix, k, final), piece);
    var s := Frame(c, prefix, piece, k, final) + rest;
    Be32RoundTrip(|sealed|);
    assert s == [Flag(final)] + Be32(|sealed|) + sealed + rest;
    assert s[1..5] == Be32(|sealed|);
    assert s[5..5 + |sealed|] == sealed && s[5 + |sealed|..] == rest;
  }

  lemma OwnFrameOpens(c: Cipher, log: set<Entry>, prefix: Bytes, payload: Bytes, k: nat)
    requires Ideal(c) && LogOf(log, prefix, payload) && k < FrameCount(payload)
    ensures var e := NthEntry(prefix, payload, k);
      Opened(c, log, e.nonce, c.seal(e.nonce, e.plain)) == Some(e.plain)
  {
    var e := NthEntry(prefix, payload, k);
    assert Entry(e.nonce, e.plain) in log;
    OpensOnce(c, log, e.nonce, c.seal(e.nonce, e.plain), Some(e.plain));
  }

  /** The last frame in front of a stream: its piece, then the end. */
  lemma DrainLast(c: Cipher, log: set<Entry>, prefix: Bytes, payload: Bytes, k: nat, rest: Bytes)
    requires Ideal(c) && LogOf(log, prefix, payload) && k + 1 == FrameCount(payload)
    ensures Drain(c, log, prefix, NthFrame(c, prefix, payload, k) + rest, k) == Before(Piece(payload, k), AtEnd(rest))
  {
    FrameHead(c, prefix, Piece(payload, k), k, true, rest);
    OwnFrameOpens(c, log, prefix, payload, k);
  }

  /** Any other frame: its piece, then whatever the stream gives. */
  lemma DrainMiddle(c: Cipher, log: set<Entry>, prefix: Bytes, payload: Bytes, k: nat, next: nat, rest: Bytes)
    requires Ideal(c) && LogOf(log, prefix, payload) && k + 1 == next < FrameCount(payload)
    ensures Drain(c, log, prefix, NthFrame(c, prefix, payload, k) + rest, k)
         == Before(Piece(payload, k), Drain(c, log, prefix, rest, next))
  {
    FrameHead(c, prefix, Piece(payload, k), k, false, rest);
    OwnFrameOpens(c, log, prefix, payload, k);
  }

  lemma PieceAndRest(payload: Bytes, k: nat)
    requires k < FrameCount(payload)
    ensures Piece(payload, k) + (if k + 1 == FrameCount(payload) then [] else payload[(k + 1) * CHUNK..]) == payload[k * CHUNK..]
  {
  }

  /** The written stream always reads back as the payload, however long it is. */
  lemma {:induction false} ReadsBack(c: Cipher, log: set<Entry>, prefix: Bytes, payload: Bytes, k: nat)
    requires Ideal(c) && LogOf(log, prefix, payload) && k < FrameCount(payload)
    ensures Drain(c, log, prefix, WireFrom(c, prefix, payload, k), k) == Outcome(payload[k * CHUNK..], Eof)
    decreases FrameCount(payload) - k
  {
    var next := k + 1;
    PieceAndRest(payload, k);
    if next < FrameCount(payload) {
      ReadsBack(c, log, prefix, payload, next);
      DrainMiddle(c, log, prefix, payload, k, next, WireFrom(c, prefix, payload, next));
    } else {
      DrainLast(c, log, prefix, payload, k, []);
    }
  }

  // --------------------------------------------------------------- exactness

  /** A well-formed frame is its header followed by its body. */
  lemma FrameOf(s: Bytes)
    requires Malformed(s) == None
    ensures s == Header(s[0] == 1, |Body(s)|) + Body(s) + Tail(s)
  {
    Be32Inverse(s[1..5]);
    assert s == s[..1] + s[1..5] + Body(s) + Tail(s);
    assert s[..1] == [Flag(s[0] == 1)];
  }

  /** With at most 2^32 frames, what is in the log under the nonces of frame k is frame k. */
  lemma EntryIsOwn(log: set<Entry>, prefix: Bytes, payload: Bytes, k: nat, final: bool, plain: Bytes)
    requires LogOf(log, prefix, payload) && k < FrameCount(payload) <= WRAP
    requires Entry(NonceFor(prefix, k, final), plain) in log
    ensures plain == Piece(payload, k) && (final <==> k + 1 == FrameCount(payload))
  {
    assert FromPayload(Entry(NonceFor(prefix, k, final), plain), prefix, payload);
    var j: nat :| j < FrameCount(payload) && Entry(NonceFor(prefix, k, final), plain) == NthEntry(prefix, payload, j);
    NonceDistinct(prefix, k, final, j, j + 1 == FrameCount(payload));
    Low32Same(k, j);
  }

  /** So whatever opens at frame k is frame k. */
  lemma OpenedIsOwn(c: Cipher, log: set<Entry>, prefix: Bytes, payload: Bytes, s: Bytes, k: nat) returns (rest: Bytes)
    requires Ideal(c) && LogOf(log, prefix, payload) && k < FrameCount(payload) <= WRAP
    requires !Unopened(c, log, prefix, s, k)
    ensures s == NthFrame(c, prefix, payload, k) + rest
  {
    rest := Tail(s);
    var plain := NextPlain(c, log, prefix, s, k).value;
    EntryIsOwn(log, prefix, payload, k, s[0] == 1, plain);
    FrameOf(s);
  }

  /** Reading s gave o: a clean end exactly for the stream as written, and never anything but
      a prefix of the payload. */
  ghost predicate Faithful(o: Outcome, s: Bytes, written: Bytes, payload: Bytes) {
    (o.end == Eof <==> s == written) && o.data <= payload
  }

  lemma FaithfulStep(o: Outcome, rest: Bytes, written: Bytes, payload: Bytes, frame: Bytes, piece: Bytes)
    requires Faithful(o, rest, written, payload)
    ensures Faithful(Before(piece, o), frame + rest, frame + written, piece + payload)
  {
    if frame + rest == frame + written {
      assert rest == (frame + rest)[|frame|..] && written == (frame + written)[|frame|..];
    }
  }

  /** Reading from frame k on is faithful. */
  ghost predicate FaithfulFrom(c: Cipher, log: set<Entry>, prefix: Bytes, payload: Bytes, s: Bytes, k: nat)
    requires k < FrameCount(payload)
  {
    Faithful(Drain(c, log, prefix, s, k), s, WireFrom(c, prefix, payload, k), payload[k * CHUNK..])
  }

  lemma RefusedFaithful(c: Cipher, log: set<Entry>, prefix: Bytes, payload: Bytes, s: Bytes, k: nat)
    requires Ideal(c) && LogOf(log, prefix, payload) && k < FrameCount(payload)
    requires Unopened(c, log, prefix, s, k)
    ensures FaithfulFrom(c, log, prefix, payload, s, k)
  {
    Refused(c, log, prefix, s, k);
    ReadsBack(c, log, prefix, payload, k);
  }

  lemma LastFaithful(c: Cipher, log: set<Entry>, prefix: Bytes, payload: Bytes, s: Bytes, rest: Bytes, k: nat)
    requires Ideal(c) && LogOf(log, prefix, payload) && k + 1 == FrameCount(payload)
    requires s == NthFrame(c, prefix, payload, k) + rest
    ensures FaithfulFrom(c, log, prefix, payload, s, k)
  {
    DrainLast(c, log, prefix, payload, k, rest);
    PieceAndRest(payload, k);
    WireStep(c, prefix, payload, k);
    FaithfulStep(AtEnd(rest), rest, [], [], NthFrame(c, prefix, payload, k), Piece(payload, k));
  }

  lemma MiddleWire(c: Cipher, prefix: Bytes, payload: Bytes, k: nat, next: nat)
    requires k + 1 == next < FrameCount(payload)
    ensures WireFrom(c, prefix, payload, k) == NthFrame(c, prefix, payload, k) + WireFrom(c, prefix, payload, next)
    ensures payload[k * CHUNK..] == Piece(payload, k) + payload[next * CHUNK..]
  {
    PieceAndRest(payload, k);
  }

  lemma MiddleFaithful(c: Cipher, log: set<Entry>, prefix: Bytes, payload: Bytes, s: Bytes, rest: Bytes, k: nat, next: nat)
    requires Ideal(c) && LogOf(log, prefix, payload) && k + 1 == next < FrameCount(payload)
    requires s == NthFrame(c, prefix, payload, k) + rest && FaithfulFrom(c, log, prefix, payload, rest, next)
    ensures FaithfulFrom(c, log, prefix, payload, s, k)
  {
    var o, written, plain := Drain(c, log, prefix, rest, next), WireFrom(c, prefix, payload, next), payload[next * CHUNK..];
    var frame, piece := NthFrame(c, prefix, payload, k), Piece(payload, k);
    assert Faithful(Before(piece, o), frame + rest, frame + written, piece + plain) by {
      FaithfulStep(o, rest, written, plain, frame, piece);
    }
    DrainMiddle(c, log, prefix, payload, k, next, rest);
    MiddleWire(c, prefix, payload, k, next);
  }

  /** With at most 2^32 frames, any stream read to a clean end from frame k on is the rest of
      the written one; reading anything else delivers a prefix of the payload and then an error. */
  lemma {:induction false} OnlyTheWritten(c: Cipher, log: set<Entry>, prefix: Bytes, payload: Bytes, s: Bytes, k: nat)
    requires Ideal(c) && LogOf(log, prefix, payload) && k < FrameCount(payload) <= WRAP
    ensures FaithfulFrom(c, log, prefix, payload, s, k)
    decreases FrameCount(payload) - k
  {
    if Unopened(c, log, prefix, s, k) {
      RefusedFaithful(c, log, prefix, payload, s, k);
    } else {
      var rest := OpenedIsOwn(c, log, prefix, payload, s, k);
      var next := k + 1;
      if next < FrameCount(payload) {
        OnlyTheWritten(c, log, prefix, payload, rest, next);
        MiddleFaithful(c, log, prefix, payload, s, rest, k, next);
      } else {
        LastFaithful(c, log, prefix, payload, s, rest, k);
      }
    }
  }

  lemma WireStep(c: Cipher, prefix: Bytes, payload: Bytes, k: nat)
    requires k < FrameCount(payload)
    ensures WireFrom(c, prefix, payload, k) == NthFrame(c, prefix, payload, k) + WireFrom(c, prefix, payload, k + 1)
    ensures k + 1 == FrameCount(payload) ==> WireFrom(c, prefix, payload, k + 1) == []
  {
  }

  lemma Refused(c: Cipher, log: set<Entry>, prefix: Bytes, s: Bytes, k: nat)
    requires Unopened(c, log, prefix, s, k)
    ensures Drain(c, log, prefix, s, k).data == [] && Drain(c, log, prefix, s, k).end != Eof
  {
  }

  // --------------------------------------------------------- more than 2^32

  lemma {:induction false} WireLength(c: Cipher, prefix: Bytes, payload: Bytes, k: nat)
    requires Ideal(c) && k < FrameCount(payload)
    ensures |WireUpTo(c, prefix, payload, k)| == k * (CHUNK + TAG + 5)
  {
    if k > 0 {
      var j: nat := k - 1;
      WireLength(c, prefix, payload, j);
      UpToStep(c, prefix, payload, j, k);
      FrameLength(c, prefix, payload, j);
    }
  }

  lemma FrameLength(c: Cipher, prefix: Bytes, payload: Bytes, k: nat)
    requires Ideal(c) && k + 1 < FrameCount(payload)
    ensures |NthFrame(c, prefix, payload, k)| == CHUNK + TAG + 5
  {
  }

  /** The first k frames in front of a stream: their pieces, then whatever the stream gives. */
  lemma {:induction false} DrainUpTo(c: Cipher, log: set<Entry>, prefix: Bytes, payload: Bytes, k: nat, rest: Bytes)
    requires Ideal(c) && LogOf(log, prefix, payload) && k < FrameCount(payload)
    ensures Drain(c, log, prefix, WireUpTo(c, prefix, payload, k) + rest, 0)
         == Before(payload[..k * CHUNK], Drain(c, log, prefix, rest, k))
  {
    if k == 0 {
      NothingBefore(rest);
      NothingBefore(Drain(c, log, prefix, rest, 0).data);
    } else {
      var j: nat := k - 1;
      var f, piece := NthFrame(c, prefix, payload, j), Piece(payload, j);
      DrainUpTo(c, log, prefix, payload, j, f + rest);
      DrainMiddle(c, log, prefix, payload, j, k, rest);
      OneMore(c, prefix, payload, j, k, rest);
      BeforeBefore(payload[..j * CHUNK], piece, Drain(c, log, prefix, rest, k));
    }
  }

  lemma BeforeBefore(a: Bytes, b: Bytes, o: Outcome)
    ensures Before(a, Before(b, o)) == Before(a + b, o)
  {
    assert a + (b + o.data) == a + b + o.data;
  }

  lemma OneMore(c: Cipher, prefix: Bytes, payload: Bytes, j: nat, k: nat, rest: Bytes)
    requires j + 1 == k < FrameCount(payload)
    ensures WireUpTo(c, prefix, payload, k) + rest == WireUpTo(c, prefix, payload, j) + (NthFrame(c, prefix, payload, j) + rest)
    ensures payload[..j * CHUNK] + Piece(payload, j) == payload[..k * CHUNK]
  {
    UpToStep(c, prefix, payload, j, k);
    PieceJoins(payload, j, k);
    Assoc(WireUpTo(c, prefix, payload, j), NthFrame(c, prefix, payload, j), rest);
  }

  lemma PieceJoins(payload: Bytes, j: nat, k: nat)
    requires j + 1 == k < FrameCount(payload)
    ensures payload[..j * CHUNK] + Piece(payload, j) == payload[..k * CHUNK]
  {
  }

  /** The stream with 2^32 frames cut out just before the last one. */
  function Shortened(c: Cipher, prefix: Bytes, payload: Bytes, last: nat, m: nat): Bytes
    requires last + 1 == FrameCount(payload) && last == m + WRAP
  {
    WireUpTo(c, prefix, payload, m) + NthFrame(c, prefix, payload, last)
  }

  lemma FrameAlone(c: Cipher, prefix: Bytes, piece: Bytes, k: nat)
    requires Ideal(c) && |piece| <= CHUNK
    ensures var s := Frame(c, prefix, piece, k, true);
      Malformed(s) == None && s[0] == 1 && Body(s) == c.seal(NonceFor(prefix, k, true), piece) && Tail(s) == []
  {
    FrameHead(c, prefix, piece, k, true, []);
    assert Frame(c, prefix, piece, k, true) + [] == Frame(c, prefix, piece, k, true);
  }

  lemma SameNonce(prefix: Bytes, last: nat, m: nat)
    requires last == m + WRAP
    ensures NonceFor(prefix, m, true) == NonceFor(prefix, last, true)
  {
    Low32Wraps(m);
  }

  lemma LastFrameTooEarly(c: Cipher, log: set<Entry>, prefix: Bytes, payload: Bytes, last: nat, m: nat)
    requires Ideal(c) && LogOf(log, prefix, payload) && last + 1 == FrameCount(payload) && last == m + WRAP
    ensures Drain(c, log, prefix, NthFrame(c, prefix, payload, last), m).end == Eof
  {
    SameNonce(prefix, last, m);
    FrameAlone(c, prefix, Piece(payload, last), last);
    OwnFrameOpens(c, log, prefix, payload, last);
  }

  /** It is another stream, and yet it is read to a clean end. */
  lemma ShortenedAccepted(c: Cipher, log: set<Entry>, prefix: Bytes, payload: Bytes, last: nat, m: nat)
    requires Ideal(c) && LogOf(log, prefix, payload) && last + 1 == FrameCount(payload) && last == m + WRAP
    ensures var s := Shortened(c, prefix, payload, last, m);
      s != Wire(c, prefix, payload) && Drain(c, log, prefix, s, 0).end == Eof
  {
    EarlyEnd(c, log, prefix, payload, last, m);
    ShortenedDiffers(c, prefix, payload, last, m);
  }

  lemma EarlyEnd(c: Cipher, log: set<Entry>, prefix: Bytes, payload: Bytes, last: nat, m: nat)
    requires Ideal(c) && LogOf(log, prefix, payload) && last + 1 == FrameCount(payload) && last == m + WRAP
    ensures Drain(c, log, prefix, WireUpTo(c, prefix, payload, m) + NthFrame(c, prefix, payload, last), 0).end == Eof
  {
    LastFrameTooEarly(c, log, prefix, payload, last, m);
    DrainUpTo(c, log, prefix, payload, m, NthFrame(c, prefix, payload, last));
  }

  lemma ShortenedDiffers(c: Cipher, prefix: Bytes, payload: Bytes, last: nat, m: nat)
    requires Ideal(c) && last + 1 == FrameCount(payload) && m < last
    ensures WireUpTo(c, prefix, payload, m) + NthFrame(c, prefix, payload, last) != Wire(c, prefix, payload)
  {
    WireLength(c, prefix, payload, m);
    WireLength(c, prefix, payload, last);
    WireSplits(c, prefix, payload, last);
    LastWire(c, prefix, payload, last);
  }

  lemma LastWire(c: Cipher, prefix: Bytes, payload: Bytes, last: nat)
    requires last + 1 == FrameCount(payload)
    ensures WireFrom(c, prefix, payload, last) == NthFrame(c, prefix, payload, last)
  {
    WireStep(c, prefix, payload, last);
    assert NthFrame(c, prefix, payload, last) + [] == NthFrame(c, prefix, payload, last);
  }

  ghost predicate OnlyOneStream(c: Cipher, log: set<Entry>, prefix: Bytes, payload: Bytes) {
    forall s :: Drain(c, log, prefix, s, 0).end == Eof ==> s == Wire(c, prefix, payload)
  }

  /** The written stream is the only one read to a clean end exactly when it has at most 2^32
      frames; truncated, reordered, duplicated, altered or extended streams are then refused. */
  lemma ExactIff(c: Cipher, log: set<Entry>, prefix: Bytes, payload: Bytes)
    requires Ideal(c) && LogOf(log, prefix, payload)
    ensures OnlyOneStream(c, log, prefix, payload) <==> FrameCount(payload) <= WRAP
    ensures Drain(c, log, prefix, Wire(c, prefix, payload), 0) == Outcome(payload, Eof)
  {
    ReadsBack(c, log, prefix, payload, 0);
    assert payload[0 * CHUNK..] == payload;
    if FrameCount(payload) <= WRAP {
      forall s | Drain(c, log, prefix, s, 0).end == Eof ensures s == Wire(c, prefix, payload) {
        OnlyTheWritten(c, log, prefix, payload, s, 0);
      }
    } else {
      var last: nat := FrameCount(payload) - 1;
      ShortenedAccepted(c, log, prefix, payload, last, last - WRAP);
    }
  }

  /** Whatever a failed reading delivered is a prefix of the payload. */
  lemma DeliversPrefix(c: Cipher, log: set<Entry>, prefix: Bytes, payload: Bytes, s: Bytes)
    requires Ideal(c) && LogOf(log, prefix, payload) && FrameCount(payload) <= WRAP
    ensures Drain(c, log, prefix, s, 0).data <= payload
  {
    OnlyTheWritten(c, log, prefix, payload, s, 0);
    assert payload[0 * CHUNK..] == payload;
  }

  /** No nonce is used twice. */
  ghost predicate NoncesUnique(prefix: Bytes, payload: Bytes) {
    forall i: nat, j: nat :: i < j < FrameCount(payload) ==> NthEntry(prefix, payload, i).nonce != NthEntry(prefix, payload, j).nonce
  }

  /** Nonces stay unique for one frame more than streams stay exact: the final flag still tells
      frame 2^32 from frame 0. */
  lemma NoncesUniqueIff(prefix: Bytes, payload: Bytes)
    ensures NoncesUnique(prefix, payload) <==> FrameCount(payload) <= WRAP + 1
  {
    var n := FrameCount(payload);
    forall i: nat, j: nat | i < j < n
      ensures NthEntry(prefix, payload, i).nonce == NthEntry(prefix, payload, j).nonce <==> Low32(i) == Low32(j) && j + 1 != n
    {
      NonceDistinct(prefix, i, false, j, j + 1 == n);
    }
    if n > WRAP + 1 {
      assert Low32(0) == Low32(WRAP) && WRAP + 1 != n;
      assert NthEntry(prefix, payload, 0).nonce == NthEntry(prefix, payload, WRAP).nonce;
    } else {
      forall i: nat, j: nat | i < j < n && j + 1 != n ensures Low32(i) != Low32(j) {
        if Low32(i) == Low32(j) { Low32Same(i, j); }
      }
    }
  }
}
