/**
 The routing rules, read off the state before a frame.  The router learns the source of a
 frame first and decides afterwards; these lemmas say what that amounts to in terms of the
 tables as they were, and what each drop counter counts at a step.
 */
module RouterRules {
  import opened Frame
  import opened Learning
  import opened Deduplication
  import opened Deciding
  import opened Routing
  import opened RouterSafety
  import opened RouterDelivery
  import opened RouterReplies

  /** The frame comes from a registered, routable endpoint and is no duplicate. */
  ghost predicate Accepted(hash: Bytes -> Hash, s: State, input: Input)
    requires input.Inbound?
  {
    IsRoutable(s, input.src) && !CheckAndInsert(s.dedup, hash(input.frame), input.now).1
  }

  /** The destination is on another side of the network than the frame and its source. */
  ghost predicate OtherSide(s: State, src: Id, dest: Id, header: ParsedHeader)
    requires IsRoutable(s, dest)
  {
    var learn := EffectiveLearn(s.groups, s.routing[dest].value);
    learn.Some? && !SharesTable(s, src, dest) && !Contains(learn.value, header.source)
  }

  /** What the tables are when the decision is made. */
  lemma SettledTable(hash: Bytes -> Hash, s: State, input: Input, dest: Id)
    requires input.Inbound? && Inv(s, input.now) && Accepted(hash, s, input)
    requires dest != input.src && IsRoutable(s, dest)
    ensures
      var r := Ingest(hash, s, input.src, input.frame, input.header, input.now);
      && r.Admitted? && r.srcName == s.routing[input.src].value.endpointName
      && IsRoutable(r.state, dest)
      && r.state.routing[dest].value.identity == s.routing[dest].value.identity
      && var before, after :=
           EffectiveLearn(s.groups, s.routing[dest].value),
           EffectiveLearn(r.state.groups, r.state.routing[dest].value);
         && before.Some? && after.Some?
         && if SharesTable(s, input.src, dest) then Contains(after.value, input.header.source) else after == before
  {
    hide CheckAndInsert, Learn, Contains, Inv;
    IngestOutcome(hash, s, input.src, input.frame, input.header, input.now);
    EffectiveTableExists(s, input.now, dest);
    var s1 := s.(dedup := CheckAndInsert(s.dedup, hash(input.frame), input.now).0);
    SameTables(s, s1, input.now);
    if SharesTable(s1, input.src, dest) {
      LearnedIsContained(s1, input.src, input.header.source, input.now, dest);
    } else {
      OtherTablesKept(s1, input.src, input.header.source, input.now, dest);
    }
  }

  lemma AcceptedIsAdmitted(hash: Bytes -> Hash, s: State, input: Input)
    requires input.Inbound? && Inv(s, input.now)
    ensures AdmittedIn(hash, s, input) <==> Accepted(hash, s, input)
    ensures AdmittedIn(hash, s, input) ==>
              Ingest(hash, s, input.src, input.frame, input.header, input.now).state.routing.Keys == s.routing.Keys
  {
    hide CheckAndInsert, Ingest, Inv;
    IngestOutcome(hash, s, input.src, input.frame, input.header, input.now);
  }

  lemma RoutableAlike(hash: Bytes -> Hash, s: State, input: Input, dest: Id)
    requires AdmittedIn(hash, s, input)
    ensures
      var r := Ingest(hash, s, input.src, input.frame, input.header, input.now);
      IsRoutable(r.state, dest) <==> IsRoutable(s, dest)
  {
    hide CheckAndInsert, Touched;
  }

  lemma FilterAgrees(hash: Bytes -> Hash, s: State, input: Input, dest: Id)
    requires input.Inbound? && Accepted(hash, s, input) && IsRoutable(s, dest)
    ensures
      var f, name := s.routing[dest].value.identity.filters, s.routing[input.src].value.endpointName;
      PassesOutFilter(f, input.header.msgid, input.header.source, name)
      <==> OutListed(f, input.header.msgid, input.header.source, name)
  {
    hide CheckAndInsert, PassesOutFilter, OutListed;
    OutFilterIs(s.routing[dest].value.identity.filters, input.header.msgid, input.header.source,
                s.routing[input.src].value.endpointName);
  }

  /**
   The delivery rule.  In every reachable state a frame is queued to `dest` exactly when it
   is accepted, `dest` is another routable endpoint, and `dest` is a sniffer, or lies on
   another side, lets the frame through by its out-lists and matches its target.
   */
  lemma DeliveryRule(hash: Bytes -> Hash, s: State, input: Input, dest: Id)
    requires input.Inbound? && Inv(s, input.now)
    ensures DeliveredIn(hash, s, input, dest) <==>
      && Accepted(hash, s, input)
      && dest != input.src && IsRoutable(s, dest)
      && var d := s.routing[dest].value;
         || d.identity.sniffer
         || (&& OtherSide(s, input.src, dest, input.header)
             && OutListed(d.identity.filters, input.header.msgid, input.header.source,
                          s.routing[input.src].value.endpointName)
             && TargetMatch(input.header, EffectiveLearn(s.groups, d).value))
  {
    hide CheckAndInsert, Ingest, Contains, TargetMatch, PassesOutFilter, OutListed, Inv, Accepted, AdmittedIn,
         IsRoutable;
    AcceptedIsAdmitted(hash, s, input);
    if AdmittedIn(hash, s, input) {
      RoutableAlike(hash, s, input, dest);
      if dest != input.src && IsRoutable(s, dest) {
        SettledTable(hash, s, input, dest);
        FilterAgrees(hash, s, input, dest);
      }
    }
  }

  /** The input is an admitted frame that the out-filter of `dest` refuses. */
  ghost predicate RefusedIn(hash: Bytes -> Hash, s: State, input: Input, dest: Id) {
    && AdmittedIn(hash, s, input)
    && var r := Ingest(hash, s, input.src, input.frame, input.header, input.now);
       Filtered(r.state, input.src, dest, input.header, r.srcName)
  }

  /**
   The refusal rule.  The out-filter is charged with a frame exactly when the frame is
   accepted, `dest` is no sniffer and lies on another side, and the filter blocks it,
   whether or not the target would have matched.
   */
  lemma RefusalRule(hash: Bytes -> Hash, s: State, input: Input, dest: Id)
    requires input.Inbound? && Inv(s, input.now)
    ensures RefusedIn(hash, s, input, dest) <==>
      && Accepted(hash, s, input)
      && dest != input.src && IsRoutable(s, dest)
      && var d := s.routing[dest].value;
         && !d.identity.sniffer
         && OtherSide(s, input.src, dest, input.header)
         && !OutListed(d.identity.filters, input.header.msgid, input.header.source,
                       s.routing[input.src].value.endpointName)
  {
    hide CheckAndInsert, Ingest, Contains, TargetMatch, PassesOutFilter, OutListed, Inv, Accepted, AdmittedIn,
         IsRoutable;
    AcceptedIsAdmitted(hash, s, input);
    if AdmittedIn(hash, s, input) {
      RoutableAlike(hash, s, input, dest);
      if dest != input.src && IsRoutable(s, dest) {
        SettledTable(hash, s, input, dest);
        FilterAgrees(hash, s, input, dest);
      }
    }
  }

  /** Each decision, by the table, the lists and the addressees. */
  lemma DecisionRule(header: ParsedHeader, learn: Table, dest: Identity, srcName: string)
    ensures
      var d := Decide(header, learn, dest, srcName);
      var loops := Contains(learn, header.source);
      var listed := OutListed(dest.filters, header.msgid, header.source, srcName);
      var wanted :=
        || header.targetSystem.None? || header.targetSystem.value == 0
        || exists n :: Contains(learn, n) && Addresses(header, n);
      && (d == Admit <==> dest.sniffer || (!loops && listed && wanted))
      && (d == LoopBlocked <==> !dest.sniffer && loops)
      && (d == OutFilterBlocked <==> !dest.sniffer && !loops && !listed)
      && (d == TargetMismatch <==> !dest.sniffer && !loops && listed && !wanted)
  {
    hide Contains, OutListed, PassesOutFilter, TargetMatch, Addresses;
    OutFilterIs(dest.filters, header.msgid, header.source, srcName);
    TargetRule(header, learn);
  }

  // ---------- What the counters count ----------

  ghost predicate DuplicateIn(hash: Bytes -> Hash, s: State, input: Input, src: Id) {
    && input.Inbound? && input.src == src && IsRoutable(s, src)
    && CheckAndInsert(s.dedup, hash(input.frame), input.now).1
  }

  lemma EventKeepsCounters(s: State, e: Event)
    ensures OnEvent(s, e).outFilterDrops == s.outFilterDrops && OnEvent(s, e).dedupDrops == s.dedupDrops
  {
    hide Join, Leave;
  }

  lemma IngestCounts(hash: Bytes -> Hash, s: State, input: Input, id: Id)
    requires input.Inbound?
    ensures
      var s' := Ingest(hash, s, input.src, input.frame, input.header, input.now).state;
      && s'.outFilterDrops == s.outFilterDrops
      && Count(s'.dedupDrops, id) == Count(s.dedupDrops, id) + if DuplicateIn(hash, s, input, id) then 1 else 0
  {
    hide CheckAndInsert, Touched;
  }

  lemma DispatchCounts(s: State, src: Id, frame: Bytes, header: ParsedHeader, srcName: string, dest: Id)
    ensures
      var s' := Dispatch(s, src, frame, header, srcName);
      && s'.dedupDrops == s.dedupDrops
      && Count(s'.outFilterDrops, dest)
           == Count(s.outFilterDrops, dest) + if Filtered(s, src, dest, header, srcName) then 1 else 0
  {
    hide PushedAfter, Decide;
  }

  lemma StepCounts(hash: Bytes -> Hash, s: State, input: Input, id: Id)
    ensures
      var s' := Step(hash, s, input);
      && Count(s'.outFilterDrops, id) == Count(s.outFilterDrops, id) + (if RefusedIn(hash, s, input, id) then 1 else 0)
      && Count(s'.dedupDrops, id) == Count(s.dedupDrops, id) + if DuplicateIn(hash, s, input, id) then 1 else 0
  {
    hide Ingest, Dispatch, Filtered, OnEvent, CheckAndInsert, Count;
    match input {
      case Lifecycle(e) => EventKeepsCounters(s, e);
      case Inbound(src, frame, header, now) =>
        IngestCounts(hash, s, input, id);
        var r := Ingest(hash, s, src, frame, header, now);
        if r.Admitted? {
          DispatchCounts(r.state, src, frame, header, r.srcName, id);
        }
    }
  }
}
