/** The sealing writer and the opening reader, each against the sealed stream of a payload. */
module Seal {
  import opened Text
  import opened Frames
  import opened Exactness

  function Min(a: int, b: int): int {
    if a < b then a else b
  }

  // ------------------------------------------------------------------ writer

  predicate FullChunks(cs: seq<Bytes>) {
    forall i :: 0 <= i < |cs| ==> |cs[i]| == CHUNK
  }

  function Concat(cs: seq<Bytes>): Bytes {
    if cs == [] then [] else Concat(cs[..|cs| - 1]) + cs[|cs| - 1]
  }

  /** Full chunks as frames, none of them final. */
  function FramesOf(c: Cipher, prefix: Bytes, cs: seq<Bytes>): Bytes
    requires FullChunks(cs)
  {
    if cs == [] then []
    else FramesOf(c, prefix, cs[..|cs| - 1]) + Frame(c, prefix, cs[|cs| - 1], |cs| - 1, false)
  }

  function EntriesOf(prefix: Bytes, cs: seq<Bytes>): set<Entry> {
    if cs == [] then {}
    else EntriesOf(prefix, cs[..|cs| - 1]) + {Entry(NonceFor(prefix, |cs| - 1, false), cs[|cs| - 1])}
  }

  /** An open writer: all full chunks are out, the rest is in the buffer. */
  ghost predicate Pending(c: Cipher, prefix: Bytes, out: Bytes, log: set<Entry>, cs: seq<Bytes>) {
    FullChunks(cs) && out == FramesOf(c, prefix, cs) && log == EntriesOf(prefix, cs)
  }

  lemma PendingStep(c: Cipher, prefix: Bytes, out: Bytes, log: set<Entry>, cs: seq<Bytes>, chunk: Bytes)
    requires Pending(c, prefix, out, log, cs) && |chunk| == CHUNK
    ensures Pending(c, prefix, out + Frame(c, prefix, chunk, |cs|, false), log + {Entry(NonceFor(prefix, |cs|, false), chunk)},
                    cs + [chunk])
    ensures Concat(cs + [chunk]) == Concat(cs) + chunk
  {
    assert (cs + [chunk])[..|cs|] == cs;
  }

  class SealWriter {
    const cipher: Cipher
    const prefix: Bytes
    /** What reached the underlying writer. */
    var out: Bytes
    var buf: Bytes
    var counter: int
    var closed: bool
    /** The full chunks sealed so far; the counter is their number's low half. */
    ghost var chunks: seq<Bytes>
    /** Everything given to Write so far. */
    ghost var written: Bytes
    /** Everything sealed under the key. */
    ghost var log: set<Entry>

    ghost predicate Valid()
      reads this
    {
      && Ideal(cipher)
      && (if closed then out == Wire(cipher, prefix, written) && LogOf(log, prefix, written)
          else
            && |buf| < CHUNK && counter == Low32(|chunks|) && written == Concat(chunks) + buf
            && Pending(cipher, prefix, out, log, chunks))
    }

    constructor (cipher: Cipher, prefix: Bytes)
      requires Ideal(cipher)
      ensures Valid() && !closed && written == [] && this.cipher == cipher && this.prefix == prefix
    {
      this.cipher, this.prefix := cipher, prefix;
      out, buf, counter, closed := [], [], 0, false;
      chunks, written, log := [], [], {};
    }

    /** Seals the buffer as one frame. */
    method Flush(final: bool)
      requires Ideal(cipher) && |buf| <= CHUNK && counter == Low32(|chunks|)
      modifies this`out, this`buf, this`counter, this`log, this`chunks
      ensures out == old(out) + Frame(cipher, prefix, old(buf), |old(chunks)|, final)
      ensures log == old(log) + {Entry(NonceFor(prefix, |old(chunks)|, final), old(buf))}
      ensures buf == [] && chunks == old(chunks) + [old(buf)] && counter == Low32(|chunks|)
    {
      var nonce := prefix + Be32(counter) + [Flag(final)];
      var sealed := cipher.seal(nonce, buf);
      var hdr := [Flag(final)] + Be32(|sealed|);
      out := out + hdr;
      out := out + sealed;
      log := log + {Entry(nonce, buf)};
      Low32Next(|chunks|);
      counter := (counter + 1) % WRAP;
      chunks := chunks + [buf];
      buf := [];
    }

    /** Takes all of p, however it is cut into calls, unless the writer was closed. */
    method Write(p: Bytes) returns (ok: bool)
      requires Valid()
      modifies this
      ensures Valid() && closed == old(closed) && ok == !closed
      ensures written == if ok then old(written) + p else old(written)
    {
      if closed {
        return false;
      }
      var rest := p;
      while |rest| > 0
        invariant Valid() && !closed
        invariant written + rest == old(written) + p
        decreases |rest|
      {
        var n := Min(CHUNK - |buf|, |rest|);
        Absorb(rest[..n]);
        assert rest[..n] + rest[n..] == rest;
        rest := rest[n..];
      }
      ok := true;
    }

    /** Buffers a piece that fits, and seals the buffer when that fills it. */
    method Absorb(piece: Bytes)
      requires Valid() && !closed && |buf| + |piece| <= CHUNK
      modifies this
      ensures Valid() && !closed && written == old(written) + piece
    {
      buf := buf + piece;
      written := written + piece;
      assert written == Concat(chunks) + buf;
      if |buf| == CHUNK {
        PendingStep(cipher, prefix, out, log, chunks, buf);
        Flush(false);
      }
    }

    /** Seals what is buffered as the final frame; a second call does nothing. */
    method Close()
      requires Valid()
      modifies this
      ensures Valid() && closed && written == old(written)
      ensures old(closed) ==> out == old(out)
    {
      if closed {
        return;
      }
      closed := true;
      Finished(cipher, prefix, out, log, chunks, buf);
      Flush(true);
    }
  }

  /** Chunks and a short rest are the pieces of what they make up. */
  lemma {:induction false} ChunksArePieces(c: Cipher, prefix: Bytes, cs: seq<Bytes>, rest: Bytes, payload: Bytes)
    requires FullChunks(cs) && payload == Concat(cs) + rest
    ensures |Concat(cs)| == |cs| * CHUNK
    ensures WireUpTo(c, prefix, payload, |cs|) == FramesOf(c, prefix, cs)
    ensures forall i: nat :: i < |cs| ==> Piece(payload, i) == cs[i]
  {
    if cs != [] {
      var init, last := cs[..|cs| - 1], cs[|cs| - 1];
      assert payload == Concat(init) + (last + rest);
      ChunksArePieces(c, prefix, init, last + rest, payload);
      assert Piece(payload, |init|) == last;
    }
  }

  lemma {:induction false} EntriesAre(prefix: Bytes, cs: seq<Bytes>, e: Entry)
    ensures e in EntriesOf(prefix, cs) <==> exists i: nat :: i < |cs| && e == Entry(NonceFor(prefix, i, false), cs[i])
  {
    if cs != [] {
      var init := cs[..|cs| - 1];
      EntriesAre(prefix, init, e);
      if e in EntriesOf(prefix, init) {
        var i: nat :| i < |init| && e == Entry(NonceFor(prefix, i, false), init[i]);
        assert e == Entry(NonceFor(prefix, i, false), cs[i]);
      }
      if i: nat :| i < |cs| && e == Entry(NonceFor(prefix, i, false), cs[i]) {
        if i < |init| { assert e == Entry(NonceFor(prefix, i, false), init[i]); }
      }
    }
  }

  /** The final frame completes the stream and the log. */
  lemma Finished(c: Cipher, prefix: Bytes, out: Bytes, log: set<Entry>, cs: seq<Bytes>, rest: Bytes)
    requires Pending(c, prefix, out, log, cs) && |rest| < CHUNK
    ensures var payload := Concat(cs) + rest;
      && out + Frame(c, prefix, rest, |cs|, true) == Wire(c, prefix, payload)
      && LogOf(log + {Entry(NonceFor(prefix, |cs|, true), rest)}, prefix, payload)
  {
    var payload, k := Concat(cs) + rest, |cs|;
    ChunksArePieces(c, prefix, cs, rest, payload);
    CountIs(payload, k);
    WireSplits(c, prefix, payload, k);
    LastWire(c, prefix, payload, k);
    assert Piece(payload, k) == rest;
    LogComplete(prefix, cs, rest, payload);
  }

  lemma CountIs(payload: Bytes, k: nat)
    requires k * CHUNK <= |payload| < (k + 1) * CHUNK
    ensures FrameCount(payload) == k + 1
  {
  }

  lemma LogComplete(prefix: Bytes, cs: seq<Bytes>, rest: Bytes, payload: Bytes)
    requires FrameCount(payload) == |cs| + 1 && Piece(payload, |cs|) == rest
    requires forall i: nat :: i < |cs| ==> Piece(payload, i) == cs[i]
    ensures LogOf(EntriesOf(prefix, cs) + {Entry(NonceFor(prefix, |cs|, true), rest)}, prefix, payload)
  {
    var last := NthEntry(prefix, payload, |cs|);
    forall e | e in EntriesOf(prefix, cs) ensures FromPayload(e, prefix, payload) {
      EntriesAre(prefix, cs, e);
      var i: nat :| i < |cs| && e == Entry(NonceFor(prefix, i, false), cs[i]);
      assert e == NthEntry(prefix, payload, i);
    }
    forall i: nat | i < |cs| ensures NthEntry(prefix, payload, i) in EntriesOf(prefix, cs) {
      EntriesAre(prefix, cs, NthEntry(prefix, payload, i));
      assert NthEntry(prefix, payload, i) == Entry(NonceFor(prefix, i, false), cs[i]);
    }
    assert FromPayload(last, prefix, payload);
  }

  // ------------------------------------------------------------------ reader

  class OpenReader {
    const cipher: Cipher
    const prefix: Bytes
    /** What was sealed under the key, which is what the ideal cipher opens. */
    const log: set<Entry>
    /** The unread part of the underlying reader. */
    var stream: Bytes
    var buf: Bytes
    var counter: int
    var done: bool
    var err: Option<End>
    /** How many frames were read; the counter is its low half. */
    ghost var frame: nat

    ghost predicate Valid()
      reads this
    {
      Ideal(cipher) && counter == Low32(frame)
    }

    /** All that is still to be delivered, and how reading will end. */
    ghost function Remaining(): Outcome
      reads this
    {
      Before(buf, if err.Some? then Outcome([], err.value)
                  else if done then AtEnd(stream)
                  else Drain(cipher, log, prefix, stream, frame))
    }

    constructor (cipher: Cipher, prefix: Bytes, log: set<Entry>, stream: Bytes)
      requires Ideal(cipher)
      ensures Valid() && Remaining() == Drain(cipher, log, prefix, stream, 0)
    {
      this.cipher, this.prefix, this.log, this.stream := cipher, prefix, log, stream;
      buf, counter, done, err, frame := [], 0, false, None, 0;
      new;
      assert [] + Drain(cipher, log, prefix, stream, 0).data == Drain(cipher, log, prefix, stream, 0).data;
    }

    /** Reads and opens one frame. */
    method Next() returns (e: Option<End>)
      requires Valid() && buf == [] && !done && err == None
      modifies this
      ensures Valid() && err == None
      ensures e == None ==> Remaining() == old(Remaining()) && |stream| < |old(stream)|
      ensures e.Some? ==> buf == [] && old(Remaining()) == Outcome([], e.value)
    {
      if |stream| < 5 {
        return Some(Truncated);
      }
      var hdr, rest := stream[..5], stream[5..];
      HeaderOf(stream);
      var final := hdr[0] == 1;
      if hdr[0] > 1 {
        return Some(BadFlag);
      }
      var n := FromBe32(hdr[1..]);
      if n == 0 || n > MAX_FRAME {
        return Some(BadLength);
      }
      if |rest| < n {
        return Some(Truncated);
      }
      var sealed := rest[..n];
      CutFrame(stream, n);
      var nonce := prefix + Be32(counter) + [Flag(final)];
      var plain := Open(cipher, log, nonce, sealed);
      OpensOnce(cipher, log, nonce, sealed, plain);
      if plain == None {
        return Some(BadAuth);
      }
      Low32Next(frame);
      NextOutcome(cipher, log, prefix, stream, frame);
      stream := rest[n..];
      counter := (counter + 1) % WRAP;
      frame := frame + 1;
      buf := plain.value;
      done := final;
      e := None;
    }

    /** Delivers up to max bytes, or says how reading ended. */
    method Read(max: nat) returns (data: Bytes, end: Option<End>)
      requires Valid()
      modifies this
      ensures Valid() && |data| <= max
      ensures end == None ==> old(Remaining()) == Before(data, Remaining()) && (max > 0 ==> |data| > 0)
      ensures end.Some? ==> data == [] && old(Remaining()) == Outcome([], end.value) == Remaining()
    {
      while |buf| == 0
        invariant Valid() && Remaining() == old(Remaining())
        decreases |stream|, if done then 0 else 1
      {
        EmptyBuffer(Remaining());
        if err.Some? {
          return [], err;
        }
        if done {
          err := Some(if |stream| > 0 then Truncated else Eof);
          return [], err;
        }
        var e := Next();
        if e.Some? {
          err := e;
          return [], e;
        }
      }
      var n := Min(max, |buf|);
      data := buf[..n];
      SplitBuffer(buf, n, Remaining());
      buf := buf[n..];
      end := None;
    }
  }

  lemma HeaderOf(s: Bytes)
    requires |s| >= 5
    ensures s[..5][0] == s[0] && s[..5][1..] == s[1..5] && |s[1..5]| == 4 && |s[5..]| == |s| - 5
  {
  }

  lemma CutFrame(s: Bytes, n: nat)
    requires Malformed(s) == None && n == Declared(s)
    ensures n <= |s[5..]| && s[5..][..n] == Body(s) && s[5..][n..] == Tail(s)
  {
  }

  lemma NextOutcome(c: Cipher, log: set<Entry>, prefix: Bytes, s: Bytes, k: nat)
    requires !Unopened(c, log, prefix, s, k)
    ensures var plain := NextPlain(c, log, prefix, s, k).value;
      Before([], Drain(c, log, prefix, s, k))
        == Before(plain, if s[0] == 1 then AtEnd(Tail(s)) else Drain(c, log, prefix, Tail(s), k + 1))
  {
  }

  lemma EmptyBuffer(o: Outcome)
    ensures Before([], o) == o
  {
    assert [] + o.data == o.data;
  }

  lemma SplitBuffer(buf: Bytes, n: nat, o: Outcome)
    requires n <= |buf|
    ensures forall rest :: Before(buf, rest) == Before(buf[..n], Before(buf[n..], rest))
  {
    forall rest ensures Before(buf, rest) == Before(buf[..n], Before(buf[n..], rest)) {
      assert buf + rest.data == buf[..n] + (buf[n..] + rest.data);
    }
  }

  /** What a closed writer produced reads back as what was written, and with at most 2^32
      frames nothing else reads to a clean end. */
  lemma SealThenOpen(w: SealWriter, s: Bytes)
    requires w.Valid() && w.closed
    ensures Drain(w.cipher, w.log, w.prefix, w.out, 0) == Outcome(w.written, Eof)
    ensures FrameCount(w.written) <= WRAP && Drain(w.cipher, w.log, w.prefix, s, 0).end == Eof ==> s == w.out
  {
    ExactIff(w.cipher, w.log, w.prefix, w.written);
  }
}
