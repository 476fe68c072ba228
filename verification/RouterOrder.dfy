/**
 Ties at the router's table size: which clock readings can make the router forget a node
 that arrived after one it keeps (src/router/learn.rs, src/endpoint/identity_flags.rs).
 Every history of sightings in order of time is what some legal run of the router records,
 so the condition found for the table alone is that of the router.
 */
module RouterOrder {
  import opened Frame
  import opened Learning
  import opened LearnTies
  import opened Deduplication
  import opened Routing
  import opened RouterSafety
  import opened RouterHistory

  // ---------- Ties at the router's capacity ----------

  ghost function ByteOf(i: nat): bv8
    requires i < 64
  {
    i as bv8
  }

  lemma ByteOfBack(i: nat)
    requires i < 64
    ensures ByteOf(i) as nat == i
  {}

  ghost function ManyNodes(): seq<NodeId> {
    seq(33, i requires 0 <= i < 33 => NodeId(1, ByteOf(i)))
  }

  lemma ManyNodesDiffer()
    ensures AllDistinct(ManyNodes()) && |ManyNodes()| == 33
  {
    hide ByteOf;
    var nodes := ManyNodes();
    forall i, j | 0 <= i < j < |nodes|
      ensures nodes[i] != nodes[j]
    {
      ByteOfBack(i);
      ByteOfBack(j);
    }
  }

  /** At the router's table size the order of arrival can break exactly under risky readings. */
  lemma RouterTies(times: seq<nat>)
    requires forall j, k :: 0 <= j < k < |times| ==> times[j] <= times[k]
    ensures !Risky(32, times) <==>
              forall history :: HasTimes(history, times) ==> InArrivalOrder(32, history)
  {
    hide InArrivalOrder, Risky, ManyNodes;
    ManyNodesDiffer();
    OrderKeptIffNotRisky(32, ManyNodes(), times);
  }

  // ---------- A router run for every history ----------

  /** A frame whose source is the node seen. */
  ghost function FrameFrom(s: Sighting): Input {
    Inbound(0, [], ParsedHeader(V1, s.node, 0, 0, 0, None, None), s.at)
  }

  /** One ungrouped endpoint, from which the nodes of a history are heard in turn. */
  ghost function RunFor(r: Routable, h: seq<Sighting>): (inputs: seq<Input>)
    ensures |inputs| == |h| + 1
  {
    if h == [] then [Lifecycle(EndpointAdded(0, Some(r)))]
    else RunFor(r, h[..|h| - 1]) + [FrameFrom(h[|h| - 1])]
  }

  lemma RunForPrefix(r: Routable, h: seq<Sighting>)
    requires h != []
    ensures RunFor(r, h)[..|h|] == RunFor(r, h[..|h| - 1])
    ensures RunFor(r, h)[|h|] == FrameFrom(h[|h| - 1])
  {}

  lemma {:induction false} RunForRegisters(r: Routable, h: seq<Sighting>)
    ensures Registration(RunFor(r, h), 0) == Some(r)
  {
    if h == [] {
      assert RunFor(r, h)[..0] == [];
    } else {
      RunForPrefix(r, h);
      RunForRegisters(r, h[..|h| - 1]);
    }
  }

  /** With duplicate suppression off, exactly these sightings are recorded. */
  lemma {:induction false} RunForSightings(hash: Bytes -> Hash, dedupCapacity: nat, r: Routable, h: seq<Sighting>)
    ensures OwnSightings(hash, 0, dedupCapacity, RunFor(r, h), 0) == h
  {
    hide RunFor;
    if h == [] {
      JustRegistered(hash, dedupCapacity, r);
    } else {
      var init := h[..|h| - 1];
      RunForPrefix(r, h);
      RunForRegisters(r, init);
      RunForSightings(hash, dedupCapacity, r, init);
      hide Registration;
      assert h == init + [h[|h| - 1]];
    }
  }

  lemma JustRegistered(hash: Bytes -> Hash, dedupCapacity: nat, r: Routable)
    ensures OwnSightings(hash, 0, dedupCapacity, RunFor(r, []), 0) == []
  {}

  lemma {:induction false} RunForClock(r: Routable, h: seq<Sighting>)
    requires Nondecreasing(h)
    ensures ForwardClock(0, RunFor(r, h))
    ensures RunClock(0, RunFor(r, h)) == if h == [] then 0 else h[|h| - 1].at
  {
    hide RunFor, FrameFrom;
    if h == [] {
      OnlyRegistered(r);
    } else {
      var n := |h| - 1;
      assert Nondecreasing(h[..n]);
      RunForPrefix(r, h);
      RunForClock(r, h[..n]);
      FrameFromIs(h[n]);
      ClockOneMore(RunFor(r, h));
    }
  }

  lemma FrameFromIs(s: Sighting)
    ensures FrameFrom(s).Inbound? && FrameFrom(s).now == s.at
  {}

  lemma OnlyRegistered(r: Routable)
    ensures ForwardClock(0, RunFor(r, [])) && RunClock(0, RunFor(r, [])) == 0
  {
    assert RunFor(r, [])[..0] == [];
  }

  lemma ClockOneMore(inputs: seq<Input>)
    requires inputs != [] && ForwardClock(0, inputs[..|inputs| - 1])
    requires inputs[|inputs| - 1].Inbound? ==> RunClock(0, inputs[..|inputs| - 1]) <= inputs[|inputs| - 1].now
    ensures ForwardClock(0, inputs)
  {
    hide RunClock;
    var n := |inputs| - 1;
    forall i | 0 <= i < |inputs| && inputs[i].Inbound?
      ensures RunClock(0, inputs[..i]) <= inputs[i].now
    {
      if i < n {
        assert inputs[..n][..i] == inputs[..i] && inputs[..n][i] == inputs[i];
      }
    }
  }

  /** The only registration comes first, so no id is reused. */
  lemma RunForIsFresh(hash: Bytes -> Hash, dedupCapacity: nat, r: Routable, h: seq<Sighting>)
    ensures FreshRun(hash, NewState(0, dedupCapacity), RunFor(r, h))
  {
    hide Step;
    var inputs := RunFor(r, h);
    forall i | 0 <= i < |inputs|
      ensures FreshInput(Run(hash, NewState(0, dedupCapacity), inputs[..i]), inputs[i])
    {
      RunForInputs(r, h, i);
      assert inputs[..0] == [];
    }
  }

  lemma {:induction false} RunForInputs(r: Routable, h: seq<Sighting>, i: nat)
    requires i < |RunFor(r, h)|
    ensures if i == 0 then RunFor(r, h)[i] == Lifecycle(EndpointAdded(0, Some(r))) else RunFor(r, h)[i].Inbound?
  {
    if h != [] && i < |h| {
      RunForPrefix(r, h);
      RunForInputs(r, h[..|h| - 1], i);
      assert RunFor(r, h)[..|h|][i] == RunFor(r, h)[i];
    }
  }

  /** Every history with a clock that never goes back is what some legal run records. */
  lemma HistoryIsRecorded(hash: Bytes -> Hash, dedupCapacity: nat, r: Routable, h: seq<Sighting>)
    requires Nondecreasing(h) && r.identity.group.None?
    ensures
      var inputs := RunFor(r, h);
      && LegalRun(hash, NewState(0, dedupCapacity), 0, inputs)
      && Registration(inputs, 0) == Some(r)
      && Sightings(hash, 0, dedupCapacity, inputs, 0) == h
  {
    hide RunFor, Registration, OwnSightings, FreshRun, ForwardClock;
    RunForIsFresh(hash, dedupCapacity, r, h);
    RunForClock(r, h);
    RunForRegisters(r, h);
    RunForSightings(hash, dedupCapacity, r, h);
  }

  /** What an endpoint knows is what arrived last behind it. */
  ghost predicate KnowsLatest(hash: Bytes -> Hash, dedupTtl: nat, dedupCapacity: nat, inputs: seq<Input>, id: Id)
    requires Registration(inputs, id).Some?
  {
    InArrivalOrder(32, Sightings(hash, dedupTtl, dedupCapacity, inputs, id))
  }

  /** Legal inputs that register an endpoint and leave sightings at these readings. */
  ghost predicate LegalWith(
    hash: Bytes -> Hash, dedupTtl: nat, dedupCapacity: nat, inputs: seq<Input>, id: Id, times: seq<nat>)
  {
    && LegalRun(hash, NewState(dedupTtl, dedupCapacity), 0, inputs)
    && Registration(inputs, id).Some?
    && HasTimes(Sightings(hash, dedupTtl, dedupCapacity, inputs, id), times)
  }

  /**
   In the router itself: every run that hears an endpoint at these readings leaves it
   knowing what arrived last, exactly when the readings are not risky.
   */
  lemma RouterOrderIff(hash: Bytes -> Hash, dedupCapacity: nat, r: Routable, times: seq<nat>)
    requires r.identity.group.None?
    requires forall j, k :: 0 <= j < k < |times| ==> times[j] <= times[k]
    ensures !Risky(32, times) <==>
              forall ttl: nat, inputs, id :: LegalWith(hash, ttl, dedupCapacity, inputs, id, times) ==>
                KnowsLatest(hash, ttl, dedupCapacity, inputs, id)
  {
    hide InArrivalOrder, Risky, LegalRun, Registration, Sightings, RunFor, ManyNodes;
    if Risky(32, times) {
      ManyNodesDiffer();
      var h := RiskyReadings(32, ManyNodes(), times);
      HistoryIsRecorded(hash, dedupCapacity, r, h);
      assert LegalWith(hash, 0, dedupCapacity, RunFor(r, h), 0, times);
      assert !KnowsLatest(hash, 0, dedupCapacity, RunFor(r, h), 0);
    } else {
      forall ttl: nat, inputs, id | LegalWith(hash, ttl, dedupCapacity, inputs, id, times)
        ensures KnowsLatest(hash, ttl, dedupCapacity, inputs, id)
      {
        SightingsForward(hash, ttl, dedupCapacity, inputs, id);
        SafeReadings(32, Sightings(hash, ttl, dedupCapacity, inputs, id), times);
      }
    }
  }
}
