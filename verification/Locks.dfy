/** The lease lock: a conditional upsert and a read-back, interleaved by many holders. */
module Locks {
  import opened Text

  type Holder = nat

  /** The row of one lock id; times are milliseconds. */
  datatype Lock = Lock(holder: Holder, expires: int)

  /** INSERT .. ON CONFLICT .. WHERE expired or already ours. */
  function Upserted(row: Option<Lock>, h: Holder, expires: int, now: int): Option<Lock> {
    if row == None || row.value.expires < now || row.value.holder == h then Some(Lock(h, expires)) else row
  }

  predicate HeldBy(row: Option<Lock>, h: Holder) {
    row.Some? && row.value.holder == h
  }

  class LockTable {
    var rows: map<string, Lock>

    function Row(id: string): Option<Lock>
      reads this
    {
      if id in rows then Some(rows[id]) else None
    }

    method Upsert(id: string, h: Holder, expires: int, now: int)
      modifies this
      ensures Row(id) == Upserted(old(Row(id)), h, expires, now)
      ensures forall other :: other != id ==> Row(other) == old(Row(other))
    {
      if id !in rows {
        rows := rows[id := Lock(h, expires)];
      } else if rows[id].expires < now || rows[id].holder == h {
        rows := rows[id := Lock(h, expires)];
      }
    }

    /** With nothing in between, a lock is won exactly when it is free, expired or already held. */
    method AcquireLock(id: string, h: Holder, expires: int, now: int) returns (owns: bool)
      modifies this
      ensures owns <==> old(Row(id)) == None || old(Row(id)).value.expires < now || HeldBy(old(Row(id)), h)
      ensures Row(id) == if owns then Some(Lock(h, expires)) else old(Row(id))
      ensures forall other :: other != id ==> Row(other) == old(Row(other))
    {
      Upsert(id, h, expires, now);
      if id !in rows {
        return false;
      }
      owns := rows[id].holder == h;
    }
  }

  // ------------------------------------------------------------ interleaving

  /** How far a holder's current call has come. The two clock readings are separate. */
  datatype Call = Idle | Began(now: int) | Stamped(now: int, expires: int) | Sent(expires: int)

  /** leases holds, for each holder whose last call said yes, when that lease runs out. */
  datatype World = World(clock: int, row: Option<Lock>, calls: map<Holder, Call>, leases: map<Holder, int>)

  datatype Step =
    | Tick(ms: nat)
    | Begin(h: Holder)
    | Stamp(h: Holder, ttl: int)
    | Send(h: Holder)
    | ReadBack(h: Holder)

  function CallOf(w: World, h: Holder): Call {
    if h in w.calls then w.calls[h] else Idle
  }

  /** A holder makes one call at a time. */
  predicate Enabled(w: World, s: Step) {
    match s
    case Tick(_) => true
    case Begin(h) => CallOf(w, h) == Idle
    case Stamp(h, _) => CallOf(w, h).Began?
    case Send(h) => CallOf(w, h).Stamped?
    case ReadBack(h) => CallOf(w, h).Sent?
  }

  function Next(w: World, s: Step): World
    requires Enabled(w, s)
  {
    match s
    case Tick(ms) => w.(clock := w.clock + ms)
    case Begin(h) => w.(calls := w.calls[h := Began(w.clock)])
    case Stamp(h, ttl) => w.(calls := w.calls[h := Stamped(CallOf(w, h).now, w.clock + ttl)])
    case Send(h) =>
      var call := CallOf(w, h);
      w.(row := Upserted(w.row, h, call.expires, call.now), calls := w.calls[h := Sent(call.expires)])
    case ReadBack(h) =>
      var done := w.(calls := w.calls[h := Idle]);
      if HeldBy(w.row, h) then done.(leases := w.leases[h := CallOf(w, h).expires])
      else done.(leases := w.leases - {h})
  }

  /** h has been told it holds the lock, and its lease has not run out. */
  predicate Holds(w: World, h: Holder) {
    h in w.leases && w.leases[h] >= w.clock
  }

  ghost predicate Exclusive(w: World) {
    forall g, h :: Holds(w, g) && Holds(w, h) ==> g == h
  }

  /** The step does not stamp a lease that ends before the one its holder has. */
  predicate NoShorter(w: World, s: Step) {
    s.Stamp? && s.h in w.leases ==> w.clock + s.ttl >= w.leases[s.h]
  }

  /** A call in flight never promises less than its holder already has, and a sent call whose
      holder is in the row is the one that put it there. */
  predicate CallFits(w: World, h: Holder) {
    var call := CallOf(w, h);
    && (call.Began? || call.Stamped? ==> call.now <= w.clock)
    && ((call.Stamped? || call.Sent?) && h in w.leases ==> call.expires >= w.leases[h])
    && (call.Sent? && HeldBy(w.row, h) ==> w.row.value.expires == call.expires)
  }

  ghost predicate Inv(w: World) {
    && (forall h :: Holds(w, h) ==> HeldBy(w.row, h) && w.row.value.expires >= w.leases[h])
    && (forall h :: CallFits(w, h))
  }

  lemma InvExclusive(w: World)
    requires Inv(w)
    ensures Exclusive(w)
  {
  }

  /** No step of anyone breaks it. */
  lemma StepKeeps(w: World, s: Step)
    requires Inv(w) && Enabled(w, s) && NoShorter(w, s)
    ensures Inv(Next(w, s))
  {
    var n := Next(w, s);
    match s
    case Send(h) =>
      forall g ensures Holds(n, g) ==> HeldBy(n.row, g) && n.row.value.expires >= n.leases[g] {
        assert CallFits(w, h) && (Holds(w, g) ==> HeldBy(w.row, g));
      }
      forall g ensures CallFits(n, g) {
        assert CallFits(w, g);
      }
    case _ =>
      forall g ensures (Holds(n, g) ==> HeldBy(n.row, g) && n.row.value.expires >= n.leases[g]) && CallFits(n, g) {
        assert CallFits(w, g) && (Holds(w, g) ==> HeldBy(w.row, g) && w.row.value.expires >= w.leases[g]);
      }
  }

  ghost predicate Follows(ws: seq<World>, steps: seq<Step>) {
    && |ws| == |steps| + 1
    && forall i :: 0 <= i < |steps| ==> Enabled(ws[i], steps[i]) && ws[i + 1] == Next(ws[i], steps[i])
  }

  ghost predicate Run(ws: seq<World>, steps: seq<Step>) {
    Follows(ws, steps) && ws[0].row == None && ws[0].calls == map[] && ws[0].leases == map[]
  }

  /** However calls, statements and renewals interleave, two holders never both hold the lock,
      as long as no renewal asks for less than is left. */
  lemma {:induction false} MutualExclusion(ws: seq<World>, steps: seq<Step>, j: nat)
    requires Run(ws, steps) && j < |ws|
    requires forall i :: 0 <= i < |steps| ==> NoShorter(ws[i], steps[i])
    ensures Inv(ws[j]) && Exclusive(ws[j])
  {
    if j > 0 {
      MutualExclusion(ws, steps, j - 1);
      assert NoShorter(ws[j - 1], steps[j - 1]);
      StepKeeps(ws[j - 1], steps[j - 1]);
    }
    InvExclusive(ws[j]);
  }

  /** Each holder asks for the same time to live on every call. */
  ghost predicate FixedTtl(steps: seq<Step>, ttl: Holder -> int) {
    forall i :: 0 <= i < |steps| && steps[i].Stamp? ==> steps[i].ttl == ttl(steps[i].h)
  }

  ghost predicate Within(w: World, ttl: Holder -> int) {
    && (forall h :: h in w.leases ==> w.leases[h] <= w.clock + ttl(h))
    && (forall h :: CallOf(w, h).Stamped? || CallOf(w, h).Sent? ==> CallOf(w, h).expires <= w.clock + ttl(h))
  }

  /** Then no renewal is ever shorter. */
  lemma {:induction false} FixedNeverShorter(ws: seq<World>, steps: seq<Step>, ttl: Holder -> int, j: nat)
    requires Run(ws, steps) && FixedTtl(steps, ttl) && j < |ws|
    ensures Within(ws[j], ttl) && (j < |steps| ==> NoShorter(ws[j], steps[j]))
  {
    if j > 0 {
      FixedNeverShorter(ws, steps, ttl, j - 1);
      assert Enabled(ws[j - 1], steps[j - 1]) && ws[j] == Next(ws[j - 1], steps[j - 1]);
    }
  }

  /** So with fixed times to live the lock is exclusive in every interleaving. */
  lemma FixedTtlExclusive(ws: seq<World>, steps: seq<Step>, ttl: Holder -> int, j: nat)
    requires Run(ws, steps) && FixedTtl(steps, ttl) && j < |ws|
    ensures Exclusive(ws[j])
  {
    forall i | 0 <= i < |steps| ensures NoShorter(ws[i], steps[i]) {
      FixedNeverShorter(ws, steps, ttl, i);
    }
    MutualExclusion(ws, steps, j);
  }

  lemma Extend(ws: seq<World>, steps: seq<Step>, w: World, s: Step) returns (ws': seq<World>, steps': seq<Step>, w': World)
    requires Follows(ws, steps) && w == ws[|steps|] && Enabled(w, s)
    ensures Follows(ws', steps') && w' == Next(w, s) == ws'[|steps'|] && ws' == ws + [w'] && steps' == steps + [s]
  {
    w' := Next(w, s);
    ws', steps' := ws + [w'], steps + [s];
  }

  /** One whole call with nothing in between. */
  lemma WholeCall(ws: seq<World>, steps: seq<Step>, w: World, h: Holder, ttl: int) returns (ws': seq<World>, steps': seq<Step>, w': World)
    requires Follows(ws, steps) && w == ws[|steps|] && CallOf(w, h) == Idle
    requires w.row == None || w.row.value.expires < w.clock || w.row.value.holder == h
    ensures Follows(ws', steps') && w' == ws'[|steps'|] && ws'[0] == ws[0] && steps <= steps'
    ensures w' == World(w.clock, Some(Lock(h, w.clock + ttl)), w.calls[h := Idle], w.leases[h := w.clock + ttl])
  {
    var w1, w2, w3;
    ws', steps', w1 := Extend(ws, steps, w, Begin(h));
    ws', steps', w2 := Extend(ws', steps', w1, Stamp(h, ttl));
    ws', steps', w3 := Extend(ws', steps', w2, Send(h));
    ws', steps', w' := Extend(ws', steps', w3, ReadBack(h));
  }

  /** The condition cannot be dropped for any renewal: whenever a holder stamps less than is
      left of its lease, another holder may take the lock before the renewal returns. */
  lemma ShorterRenewalBreaks(w: World, h: Holder, g: Holder, ttl: int) returns (ws: seq<World>, steps: seq<Step>)
    requires Inv(w) && Holds(w, h) && CallOf(w, h).Began? && g != h && CallOf(w, g) == Idle
    requires !NoShorter(w, Stamp(h, ttl))
    ensures Follows(ws, steps) && ws[0] == w && steps != [] && steps[0] == Stamp(h, ttl)
    ensures Holds(ws[|steps|], h) && Holds(ws[|steps|], g) && !Exclusive(ws[|steps|])
  {
    var v := w;
    ws, steps, v := Extend([w], [], v, Stamp(h, ttl));
    ws, steps, v := Extend(ws, steps, v, Send(h));
    ws, steps, v := Extend(ws, steps, v, Tick(if ttl < 0 then 0 else ttl + 1));
    ws, steps, v := WholeCall(ws, steps, v, g, 0);
    assert Holds(v, g) && Holds(v, h);
  }

  /** Such a run from the empty lock table: holder 1 renews a lease of 10 with 1, and at time 2,
      before that call returns, holder 2 takes the lock. */
  lemma ShorterRenewalRun() returns (ws: seq<World>, steps: seq<Step>)
    ensures Run(ws, steps) && Holds(ws[|steps|], 1) && Holds(ws[|steps|], 2) && !Exclusive(ws[|steps|])
  {
    var w := World(0, None, map[], map[]);
    ws, steps, w := WholeCall([w], [], w, 1, 10);
    ws, steps, w := Extend(ws, steps, w, Begin(1));
    ws, steps, w := Extend(ws, steps, w, Stamp(1, 1));
    ws, steps, w := Extend(ws, steps, w, Send(1));
    ws, steps, w := Extend(ws, steps, w, Tick(2));
    ws, steps, w := WholeCall(ws, steps, w, 2, 10);
    assert Holds(w, 1) && Holds(w, 2);
  }
}
