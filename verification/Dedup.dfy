/**
 The duplicate-suppression window: a FIFO ring of frame hashes with deadlines, paired
 with a set for lookup (src/router/dedup.rs).

 The ring and the set together are related to the sequence of all admissions ever made:
 a hash is suppressed exactly when it is among the last `capacity` admissions and its
 time to live has not run out.
 */
module Deduplication {

  type Hash = bv64

  datatype Entry = Entry(hash: Hash, deadline: nat)

  datatype Window = Window(ring: seq<Entry>, hashes: set<Hash>, capacity: nat, ttl: nat)

  function NewWindow(ttl: nat, capacity: nat): Window {
    Window([], {}, if capacity == 0 then 1 else capacity, ttl)
  }

  /** Drop expired entries from the head of the ring. */
  function ExpireStale(w: Window, now: nat): Window
    decreases |w.ring|
  {
    if w.ring == [] || w.ring[0].deadline > now then w
    else ExpireStale(w.(ring := w.ring[1..], hashes := w.hashes - {w.ring[0].hash}), now)
  }

  function EvictOldest(w: Window): Window {
    if w.ring == [] then w else w.(ring := w.ring[1..], hashes := w.hashes - {w.ring[0].hash})
  }

  /** Append a fresh entry. */
  function Entered(w: Window, hash: Hash, now: nat): Window {
    w.(ring := w.ring + [Entry(hash, now + w.ttl)], hashes := w.hashes + {hash})
  }

  /** The window after a lookup, and whether the frame is a duplicate. */
  function CheckAndInsert(w: Window, hash: Hash, now: nat): (Window, bool) {
    if w.ttl == 0 then (w, false)
    else
      var live := ExpireStale(w, now);
      if hash in live.hashes then (live, true)
      else
        var room := if |live.ring| >= live.capacity then EvictOldest(live) else live;
        (Entered(room, hash, now), false)
  }

  // ---------- The window against the history ----------

  datatype Admission = Admission(hash: Hash, at: nat)

  /** `hash` is among the last `capacity` admissions and has not timed out at `now`. */
  ghost predicate Live(adm: seq<Admission>, capacity: nat, ttl: nat, hash: Hash, now: nat) {
    exists i :: 0 <= i < |adm| && |adm| - capacity <= i && adm[i].hash == hash && now < adm[i].at + ttl
  }

  ghost predicate Ordered(adm: seq<Admission>) {
    forall i, j :: 0 <= i < j < |adm| ==> adm[i].at <= adm[j].at
  }

  /** The ring is the tail of the admissions from `start` on. */
  ghost predicate RingIsTail(w: Window, adm: seq<Admission>, start: nat) {
    && start <= |adm|
    && |w.ring| == |adm| - start
    && (forall i :: start <= i < |adm| ==> w.ring[i - start] == Entry(adm[i].hash, adm[i].at + w.ttl))
    && (forall i, j :: start <= i < j < |adm| ==> adm[i].hash != adm[j].hash)
    && (forall h :: h in w.hashes <==> exists i :: start <= i < |adm| && adm[i].hash == h)
  }

  /**
   Ring and set agree, hold pairwise distinct hashes, and hold every admission that is
   recent enough and live at `clock`.
   */
  ghost predicate Refines(w: Window, adm: seq<Admission>, clock: nat, start: nat) {
    && 0 < w.ttl
    && 0 < w.capacity
    && Ordered(adm)
    && (forall i :: 0 <= i < |adm| ==> adm[i].at <= clock)
    && RingIsTail(w, adm, start)
    && |adm| - start <= w.capacity
    && (forall i :: 0 <= i < start && |adm| - w.capacity <= i ==> adm[i].at + w.ttl <= clock)
  }

  lemma PopTail(w: Window, adm: seq<Admission>, start: nat)
    requires RingIsTail(w, adm, start) && start < |adm|
    ensures w.ring != [] && w.ring[0] == Entry(adm[start].hash, adm[start].at + w.ttl)
    ensures RingIsTail(w.(ring := w.ring[1..], hashes := w.hashes - {w.ring[0].hash}), adm, start + 1)
  {}

  lemma PushTail(w: Window, adm: seq<Admission>, start: nat, hash: Hash, now: nat)
    requires RingIsTail(w, adm, start) && hash !in w.hashes
    ensures RingIsTail(w.(ring := w.ring + [Entry(hash, now + w.ttl)], hashes := w.hashes + {hash}),
                       adm + [Admission(hash, now)], start)
  {
    var next := adm + [Admission(hash, now)];
    assert forall i :: 0 <= i < |adm| ==> next[i] == adm[i];
    assert next[|adm|].hash == hash;
  }

  /** Expiry leaves exactly the live entries: the clock never goes back, so they are a tail. */
  lemma {:induction false} ExpireRefines(w: Window, adm: seq<Admission>, clock: nat, start: nat, now: nat)
    returns (start': nat)
    requires Refines(w, adm, clock, start) && clock <= now
    ensures Refines(ExpireStale(w, now), adm, now, start')
    ensures ExpireStale(w, now).capacity == w.capacity && ExpireStale(w, now).ttl == w.ttl
    ensures forall i :: start' <= i < |adm| ==> now < adm[i].at + w.ttl
    decreases |w.ring|
  {
    start' := start;
    if start < |adm| {
      PopTail(w, adm, start);
      if w.ring[0].deadline <= now {
        var w' := w.(ring := w.ring[1..], hashes := w.hashes - {w.ring[0].hash});
        assert Refines(w', adm, now, start + 1);
        start' := ExpireRefines(w', adm, now, start + 1, now);
      } else {
        forall i | start <= i < |adm|
          ensures now < adm[i].at + w.ttl
        {
          assert adm[start].at <= adm[i].at;
        }
      }
    }
  }

  lemma PushRefines(w: Window, adm: seq<Admission>, now: nat, start: nat, hash: Hash)
    requires 0 < w.ttl && 0 < w.capacity && Ordered(adm) && RingIsTail(w, adm, start)
    requires forall i :: 0 <= i < |adm| ==> adm[i].at <= now
    requires |adm| + 1 - start <= w.capacity
    requires forall i :: 0 <= i < start && |adm| + 1 - w.capacity <= i ==> adm[i].at + w.ttl <= now
    requires hash !in w.hashes
    ensures Refines(Entered(w, hash, now), adm + [Admission(hash, now)], now, start)
  {
    PushTail(w, adm, start, hash, now);
    hide RingIsTail;
    var next := adm + [Admission(hash, now)];
    assert forall i :: 0 <= i < |adm| ==> next[i] == adm[i];
  }

  lemma EnterRefines(w: Window, adm: seq<Admission>, now: nat, start: nat, hash: Hash) returns (start': nat)
    requires Refines(w, adm, now, start) && hash !in w.hashes
    ensures
      var room := if |w.ring| >= w.capacity then EvictOldest(w) else w;
      Refines(Entered(room, hash, now), adm + [Admission(hash, now)], now, start')
  {
    if |w.ring| >= w.capacity {
      PopTail(w, adm, start);
      start' := start + 1;
      PushRefines(EvictOldest(w), adm, now, start', hash);
    } else {
      start' := start;
      PushRefines(w, adm, now, start', hash);
    }
  }

  /** The answer is the declarative one, and the refinement carries over. */
  lemma CheckRefines(w: Window, adm: seq<Admission>, clock: nat, start: nat, hash: Hash, now: nat)
    returns (start': nat)
    requires Refines(w, adm, clock, start) && clock <= now
    ensures
      var (w', dup) := CheckAndInsert(w, hash, now);
      && dup == Live(adm, w.capacity, w.ttl, hash, now)
      && Refines(w', if dup then adm else adm + [Admission(hash, now)], now, start')
      && w'.capacity == w.capacity && w'.ttl == w.ttl
  {
    hide ExpireStale, RingIsTail, Live;
    start' := ExpireRefines(w, adm, clock, start, now);
    var live := ExpireStale(w, now);
    HeldIffLive(live, adm, now, start', hash);
    if hash !in live.hashes {
      start' := EnterRefines(live, adm, now, start', hash);
    }
  }

  lemma HeldIffLive(w: Window, adm: seq<Admission>, now: nat, start: nat, hash: Hash)
    requires Refines(w, adm, now, start)
    requires forall i :: start <= i < |adm| ==> now < adm[i].at + w.ttl
    ensures hash in w.hashes <==> Live(adm, w.capacity, w.ttl, hash, now)
  {
    if hash in w.hashes {
      var i :| start <= i < |adm| && adm[i].hash == hash;
      assert now < adm[i].at + w.ttl && |adm| - w.capacity <= i;
    }
    if Live(adm, w.capacity, w.ttl, hash, now) {
      var i :| 0 <= i < |adm| && |adm| - w.capacity <= i && adm[i].hash == hash && now < adm[i].at + w.ttl;
      assert start <= i;
    }
  }

  // ---------- Whole runs ----------

  datatype Query = Query(hash: Hash, at: nat)

  /** The window after a run of lookups. */
  function RunWindow(w: Window, run: seq<Query>): Window {
    if run == [] then w
    else
      var q := run[|run| - 1];
      CheckAndInsert(RunWindow(w, run[..|run| - 1]), q.hash, q.at).0
  }

  /** What is admitted in a run, by the declarative rule alone. */
  ghost function Admitted(capacity: nat, ttl: nat, run: seq<Query>): seq<Admission> {
    if run == [] then []
    else
      var q := run[|run| - 1];
      var before := Admitted(capacity, ttl, run[..|run| - 1]);
      if Live(before, capacity, ttl, q.hash, q.at) then before else before + [Admission(q.hash, q.at)]
  }

  ghost predicate Forward(run: seq<Query>) {
    forall i, j :: 0 <= i < j < |run| ==> run[i].at <= run[j].at
  }

  ghost function Clock(run: seq<Query>): nat {
    if run == [] then 0 else run[|run| - 1].at
  }

  lemma {:induction false} RunRefines(ttl: nat, capacity: nat, run: seq<Query>) returns (start: nat)
    requires 0 < ttl && Forward(run)
    ensures
      var w := RunWindow(NewWindow(ttl, capacity), run);
      var c := if capacity == 0 then 1 else capacity;
      && w.ttl == ttl && w.capacity == c
      && Refines(w, Admitted(c, ttl, run), Clock(run), start)
  {
    if run == [] {
      start := 0;
    } else {
      var init := run[..|run| - 1];
      var q := run[|run| - 1];
      assert Clock(init) <= q.at;
      start := RunRefines(ttl, capacity, init);
      var w := RunWindow(NewWindow(ttl, capacity), init);
      start := CheckRefines(w, Admitted(w.capacity, ttl, init), Clock(init), start, q.hash, q.at);
    }
  }

  /**
   After any run with a clock that never goes back, a lookup answers "duplicate" exactly
   when the hash is among the last `capacity` admissions, or the last one when that is
   zero, and still live.
   */
  lemma VerdictIsDeclarative(ttl: nat, capacity: nat, run: seq<Query>, q: Query)
    requires 0 < ttl && Forward(run) && Clock(run) <= q.at
    ensures
      var c := if capacity == 0 then 1 else capacity;
      CheckAndInsert(RunWindow(NewWindow(ttl, capacity), run), q.hash, q.at).1
        == Live(Admitted(c, ttl, run), c, ttl, q.hash, q.at)
  {
    hide RunWindow, Admitted, CheckAndInsert;
    var start := RunRefines(ttl, capacity, run);
    var w := RunWindow(NewWindow(ttl, capacity), run);
    start := CheckRefines(w, Admitted(w.capacity, ttl, run), Clock(run), start, q.hash, q.at);
  }

  /** A disabled window admits everything and stays empty. */
  lemma {:induction false} DisabledAdmitsAll(capacity: nat, run: seq<Query>, q: Query)
    ensures RunWindow(NewWindow(0, capacity), run) == NewWindow(0, capacity)
    ensures !CheckAndInsert(NewWindow(0, capacity), q.hash, q.at).1
  {
    if run != [] {
      DisabledAdmitsAll(capacity, run[..|run| - 1], q);
    }
  }

  /** Whether lookup `i` of a run answers "duplicate". */
  ghost predicate Verdict(ttl: nat, capacity: nat, run: seq<Query>, i: nat)
    requires i < |run|
  {
    CheckAndInsert(RunWindow(NewWindow(ttl, capacity), run[..i]), run[i].hash, run[i].at).1
  }

  /** How many lookups from `i` up to `j` admit their frame. */
  ghost function AdmissionsBetween(ttl: nat, capacity: nat, run: seq<Query>, i: nat, j: nat): nat
    requires i <= j <= |run|
  {
    if i == j then 0
    else AdmissionsBetween(ttl, capacity, run, i, j - 1) + if Verdict(ttl, capacity, run, j - 1) then 0 else 1
  }

  lemma ForwardPart(run: seq<Query>, i: nat)
    requires Forward(run) && i < |run|
    ensures Forward(run[..i]) && Clock(run[..i]) <= run[i].at
  {}

  /** A lookup that admits its frame is the next admission, any other is none. */
  lemma AdmittedNext(ttl: nat, capacity: nat, run: seq<Query>, i: nat)
    requires 0 < ttl && Forward(run) && i < |run|
    ensures
      var c := if capacity == 0 then 1 else capacity;
      var before := Admitted(c, ttl, run[..i]);
      && Verdict(ttl, capacity, run, i) == Live(before, c, ttl, run[i].hash, run[i].at)
      && Admitted(c, ttl, run[..i + 1])
           == if Verdict(ttl, capacity, run, i) then before else before + [Admission(run[i].hash, run[i].at)]
  {
    hide CheckAndInsert, RunWindow, Live;
    ForwardPart(run, i);
    VerdictIsDeclarative(ttl, capacity, run[..i], run[i]);
    var start := RunRefines(ttl, capacity, run[..i]);
    assert run[..i + 1][..i] == run[..i];
  }

  lemma {:induction false} AdmittedBetween(ttl: nat, capacity: nat, run: seq<Query>, i: nat, j: nat)
    requires 0 < ttl && Forward(run) && i <= j <= |run|
    ensures
      var c := if capacity == 0 then 1 else capacity;
      && Admitted(c, ttl, run[..i]) <= Admitted(c, ttl, run[..j])
      && |Admitted(c, ttl, run[..j])| - |Admitted(c, ttl, run[..i])| == AdmissionsBetween(ttl, capacity, run, i, j)
    decreases j
  {
    hide Verdict, Admitted;
    if i < j {
      AdmittedBetween(ttl, capacity, run, i, j - 1);
      AdmittedNext(ttl, capacity, run, j - 1);
    }
  }

  /**
   Two lookups of one hash that both admit it are at least a time to live, or `capacity`
   admissions, apart.
   */
  lemma RepeatsAreSpaced(ttl: nat, capacity: nat, run: seq<Query>, i: nat, j: nat)
    requires 0 < ttl && Forward(run) && i < j < |run| && run[i].hash == run[j].hash
    requires !Verdict(ttl, capacity, run, i) && !Verdict(ttl, capacity, run, j)
    ensures
      || run[i].at + ttl <= run[j].at
      || AdmissionsBetween(ttl, capacity, run, i, j) >= if capacity == 0 then 1 else capacity
  {
    hide Verdict, Admitted, AdmissionsBetween;
    var c := if capacity == 0 then 1 else capacity;
    AdmittedNext(ttl, capacity, run, i);
    AdmittedBetween(ttl, capacity, run, i, j);
    AdmittedBetween(ttl, capacity, run, i + 1, j);
    AdmittedNext(ttl, capacity, run, j);
    var adm, a := Admitted(c, ttl, run[..j]), |Admitted(c, ttl, run[..i])|;
    assert adm[a] == Admitted(c, ttl, run[..i + 1])[a];
  }

  // ---------- The window as it runs ----------

  class DedupWindow {
    var ring: seq<Entry>
    var hashes: set<Hash>
    const capacity: nat
    const ttl: nat
    ghost var admitted: seq<Admission>
    ghost var clock: nat
    ghost var start: nat

    ghost function Value(): Window
      reads this
    {
      Window(ring, hashes, capacity, ttl)
    }

    ghost predicate Valid()
      reads this
    {
      if ttl == 0 then ring == [] && hashes == {} else Refines(Value(), admitted, clock, start)
    }

    constructor (ttl: nat, capacity: nat)
      ensures Valid() && Value() == NewWindow(ttl, capacity)
      ensures this.ttl == ttl && this.capacity == if capacity == 0 then 1 else capacity
      ensures admitted == [] && clock == 0
    {
      this.ttl := ttl;
      this.capacity := if capacity == 0 then 1 else capacity;
      ring, hashes := [], {};
      admitted, clock, start := [], 0, 0;
    }

    method PopFront()
      requires ring != []
      modifies this`ring, this`hashes
      ensures ring == old(ring)[1..] && hashes == old(hashes) - {old(ring)[0].hash}
    {
      hashes := hashes - {ring[0].hash};
      ring := ring[1..];
    }

    method Evict()
      modifies this`ring, this`hashes
      ensures Value() == EvictOldest(old(Value()))
    {
      if ring != [] {
        PopFront();
      }
    }

    method Expire(now: nat)
      modifies this`ring, this`hashes
      ensures Value() == ExpireStale(old(Value()), now)
    {
      while ring != [] && ring[0].deadline <= now
        invariant ExpireStale(Value(), now) == ExpireStale(old(Value()), now)
        decreases |ring|
      {
        PopFront();
      }
    }

    /** True when a live entry matches; otherwise the frame is entered. */
    method CheckAndEnter(hash: Hash, now: nat) returns (dup: bool)
      requires Valid() && clock <= now
      modifies this
      ensures Valid() && clock == now
      ensures (Value(), dup) == CheckAndInsert(old(Value()), hash, now)
      ensures ttl == 0 ==> !dup && admitted == old(admitted)
      ensures ttl > 0 ==> dup == Live(old(admitted), capacity, ttl, hash, now)
      ensures ttl > 0 ==> admitted == if dup then old(admitted) else old(admitted) + [Admission(hash, now)]
    {
      hide Refines, Live, ExpireStale;
      clock := now;
      if ttl == 0 {
        return false;
      }
      ghost var start' := CheckRefines(Value(), admitted, old(clock), start, hash, now);
      start := start';
      Expire(now);
      if hash in hashes {
        return true;
      }
      if |ring| >= capacity {
        Evict();
      }
      ring := ring + [Entry(hash, now + ttl)];
      hashes := hashes + {hash};
      admitted := admitted + [Admission(hash, now)];
      return false;
    }
  }
}
