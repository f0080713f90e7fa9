/** The sealed stream as bytes: nonces, frames, and what the frames of a payload look like. */
module Frames {
  import opened Text
  import opened Sums

  newtype byte = x: int | 0 <= x < 256
  type Bytes = seq<byte>

  /** Plaintext bytes sealed per frame. */
  const CHUNK: int := 0x10_0000
  const MAX_FRAME: int := CHUNK + 4096
  /** What GCM adds to a plaintext. */
  const TAG: int := 16
  /** The counter is a uint32. */
  const WRAP: int := 0x1_0000_0000

  // ---------------------------------------------------------------- integers

  function Be32(n: int): (b: Bytes)
    requires 0 <= n < WRAP
    ensures |b| == 4
  {
    [(n / 256 / 256 / 256) as byte, (n / 256 / 256 % 256) as byte, (n / 256 % 256) as byte, (n % 256) as byte]
  }

  function FromBe32(b: Bytes): (n: int)
    requires |b| == 4
    ensures 0 <= n < WRAP
  {
    b[0] as int * 0x100_0000 + b[1] as int * 0x1_0000 + b[2] as int * 256 + b[3] as int
  }

  lemma Be32RoundTrip(n: int)
    requires 0 <= n < WRAP
    ensures FromBe32(Be32(n)) == n
  {
    var a := n / 256;
    var b := a / 256;
    assert n == 256 * a + n % 256 && a == 256 * b + a % 256 && b == 256 * (b / 256) + b % 256;
  }

  lemma Be32Inverse(b: Bytes)
    requires |b| == 4
    ensures Be32(FromBe32(b)) == b
  {
    var n := FromBe32(b);
    assert n / 256 == b[0] as int * 0x1_0000 + b[1] as int * 256 + b[2] as int;
    assert n / 256 / 256 == b[0] as int * 256 + b[1] as int;
  }

  /** What a uint32 that was counted up k times from zero holds. */
  function Low32(k: nat): (r: int)
    ensures 0 <= r < WRAP
  {
    k % WRAP
  }

  lemma Low32Next(k: nat)
    ensures Low32(k + 1) == (Low32(k) + 1) % WRAP
  {
  }

  lemma Low32Wraps(m: nat)
    ensures Low32(m + WRAP) == Low32(m)
  {
  }

  lemma Low32Same(k: nat, j: nat)
    requires k < WRAP && j < WRAP && Low32(k) == Low32(j)
    ensures k == j
  {
  }

  // ------------------------------------------------------------------ cipher

  /** A cipher under one key and one associated data: what sealing gives. */
  datatype Cipher = Cipher(seal: (Bytes, Bytes) -> Bytes)

  /** One thing sealed under the key. */
  datatype Entry = Entry(nonce: Bytes, plain: Bytes)

  /** Sealing adds a tag, and what is sealed under a nonce determines the plaintext. */
  ghost predicate Ideal(c: Cipher) {
    && (forall n, p :: |c.seal(n, p)| == |p| + TAG)
    && (forall n, p, q :: c.seal(n, p) == c.seal(n, q) ==> p == q)
  }

  predicate Matches(c: Cipher, e: Entry, nonce: Bytes, sealed: Bytes) {
    e.nonce == nonce && c.seal(nonce, e.plain) == sealed
  }

  /** An ideal cipher opens exactly what was sealed under the key with this nonce. */
  ghost predicate Opens(c: Cipher, log: set<Entry>, nonce: Bytes, sealed: Bytes, r: Option<Bytes>) {
    match r
    case Some(plain) => Entry(nonce, plain) in log && c.seal(nonce, plain) == sealed
    case None => forall e :: e in log ==> !Matches(c, e, nonce, sealed)
  }

  method Open(c: Cipher, log: set<Entry>, nonce: Bytes, sealed: Bytes) returns (r: Option<Bytes>)
    ensures Opens(c, log, nonce, sealed, r)
  {
    var rest := log;
    while rest != {}
      invariant rest <= log
      invariant forall e :: e in log && e !in rest ==> !Matches(c, e, nonce, sealed)
    {
      var e := NextKey(rest);
      rest := rest - {e};
      if Matches(c, e, nonce, sealed) {
        return Some(e.plain);
      }
    }
    r := None;
  }

  ghost function Opened(c: Cipher, log: set<Entry>, nonce: Bytes, sealed: Bytes): (r: Option<Bytes>)
    ensures Opens(c, log, nonce, sealed, r)
  {
    if e :| e in log && Matches(c, e, nonce, sealed) then Some(e.plain) else None
  }

  lemma OpensOnce(c: Cipher, log: set<Entry>, nonce: Bytes, sealed: Bytes, r: Option<Bytes>)
    requires Ideal(c) && Opens(c, log, nonce, sealed, r)
    ensures r == Opened(c, log, nonce, sealed)
  {
    var o := Opened(c, log, nonce, sealed);
    if r.Some? { assert Matches(c, Entry(nonce, r.value), nonce, sealed); }
    if o.Some? { assert Matches(c, Entry(nonce, o.value), nonce, sealed); }
  }

  // ------------------------------------------------------------------ frames

  function Flag(final: bool): byte {
    if final then 1 else 0
  }

  /** The nonce of frame k. */
  function NonceFor(prefix: Bytes, k: nat, final: bool): Bytes {
    prefix + Be32(Low32(k)) + [Flag(final)]
  }

  /** Two nonces of one archive are equal only for the same counter value and flag. */
  lemma NonceDistinct(prefix: Bytes, i: nat, f: bool, j: nat, g: bool)
    ensures NonceFor(prefix, i, f) == NonceFor(prefix, j, g) <==> Low32(i) == Low32(j) && f == g
  {
    var m, n := NonceFor(prefix, i, f), NonceFor(prefix, j, g);
    if m == n {
      assert m[|prefix|..][..4] == Be32(Low32(i)) && n[|prefix|..][..4] == Be32(Low32(j));
      assert m[|m| - 1] == Flag(f) && n[|n| - 1] == Flag(g);
      Be32RoundTrip(Low32(i));
      Be32RoundTrip(Low32(j));
    }
  }

  function Header(final: bool, length: int): Bytes
    requires 0 <= length < WRAP
  {
    [Flag(final)] + Be32(length)
  }

  /** The k-th piece of a payload. */
  function Piece(payload: Bytes, k: nat): Bytes
    requires k * CHUNK <= |payload|
  {
    if |payload| < (k + 1) * CHUNK then payload[k * CHUNK..] else payload[k * CHUNK..(k + 1) * CHUNK]
  }

  /** How many frames a payload takes: the last one is always short, possibly empty. */
  function FrameCount(payload: Bytes): (n: nat)
    ensures n >= 1 && (n - 1) * CHUNK <= |payload| < n * CHUNK
  {
    |payload| / CHUNK + 1
  }

  function Frame(c: Cipher, prefix: Bytes, piece: Bytes, k: nat, final: bool): Bytes
    requires |piece| <= CHUNK
  {
    Header(final, |piece| + TAG) + c.seal(NonceFor(prefix, k, final), piece)
  }

  function NthFrame(c: Cipher, prefix: Bytes, payload: Bytes, k: nat): Bytes
    requires k < FrameCount(payload)
  {
    Frame(c, prefix, Piece(payload, k), k, k + 1 == FrameCount(payload))
  }

  /** The frames of payload from the k-th on. */
  function WireFrom(c: Cipher, prefix: Bytes, payload: Bytes, k: nat): Bytes
    requires k <= FrameCount(payload)
    decreases FrameCount(payload) - k
  {
    if k == FrameCount(payload) then []
    else NthFrame(c, prefix, payload, k) + WireFrom(c, prefix, payload, k + 1)
  }

  function Wire(c: Cipher, prefix: Bytes, payload: Bytes): Bytes {
    WireFrom(c, prefix, payload, 0)
  }

  /** The first k frames, none of them final. */
  function WireUpTo(c: Cipher, prefix: Bytes, payload: Bytes, k: nat): Bytes
    requires k * CHUNK <= |payload|
  {
    if k == 0 then [] else WireUpTo(c, prefix, payload, k - 1) + Frame(c, prefix, Piece(payload, k - 1), k - 1, false)
  }

  lemma {:induction false} WireSplits(c: Cipher, prefix: Bytes, payload: Bytes, k: nat)
    requires k < FrameCount(payload)
    ensures Wire(c, prefix, payload) == WireUpTo(c, prefix, payload, k) + WireFrom(c, prefix, payload, k)
  {
    if k > 0 {
      var j: nat := k - 1;
      WireSplits(c, prefix, payload, j);
      UpToStep(c, prefix, payload, j, k);
      FromStep(c, prefix, payload, j, k);
      Assoc(WireUpTo(c, prefix, payload, j), NthFrame(c, prefix, payload, j), WireFrom(c, prefix, payload, k));
    } else {
      NothingBefore(WireFrom(c, prefix, payload, 0));
    }
  }

  lemma NothingBefore(s: Bytes)
    ensures [] + s == s
  {
  }

  lemma UpToStep(c: Cipher, prefix: Bytes, payload: Bytes, j: nat, k: nat)
    requires j + 1 == k < FrameCount(payload)
    ensures WireUpTo(c, prefix, payload, k) == WireUpTo(c, prefix, payload, j) + NthFrame(c, prefix, payload, j)
  {
    FitsBefore(k, FrameCount(payload), |payload|);
    FitsBefore(j, FrameCount(payload), |payload|);
    UpToNext(c, prefix, payload, j, k);
    assert NthFrame(c, prefix, payload, j) == Frame(c, prefix, Piece(payload, j), j, false);
  }

  lemma FitsBefore(k: nat, n: nat, size: nat)
    requires k < n && (n - 1) * CHUNK <= size
    ensures k * CHUNK <= size
  {
  }

  lemma UpToNext(c: Cipher, prefix: Bytes, payload: Bytes, j: nat, k: nat)
    requires j + 1 == k && j * CHUNK <= k * CHUNK <= |payload|
    ensures WireUpTo(c, prefix, payload, k)
         == WireUpTo(c, prefix, payload, j) + Frame(c, prefix, Piece(payload, j), j, false)
  {
    assert k != 0 && k - 1 == j;
  }

  lemma FromStep(c: Cipher, prefix: Bytes, payload: Bytes, j: nat, k: nat)
    requires j + 1 == k <= FrameCount(payload)
    ensures WireFrom(c, prefix, payload, j) == NthFrame(c, prefix, payload, j) + WireFrom(c, prefix, payload, k)
  {
  }

  // -------------------------------------------------------------------- log

  function NthEntry(prefix: Bytes, payload: Bytes, k: nat): Entry
    requires k < FrameCount(payload)
  {
    Entry(NonceFor(prefix, k, k + 1 == FrameCount(payload)), Piece(payload, k))
  }

  /** Everything sealed for one archive. */
  ghost predicate LogOf(log: set<Entry>, prefix: Bytes, payload: Bytes) {
    && (forall e :: e in log ==> FromPayload(e, prefix, payload))
    && (forall k: nat :: k < FrameCount(payload) ==> NthEntry(prefix, payload, k) in log)
  }

  ghost predicate FromPayload(e: Entry, prefix: Bytes, payload: Bytes) {
    exists k: nat :: k < FrameCount(payload) && e == NthEntry(prefix, payload, k)
  }
}
