/** SubscriptionLeaseManager in place: the tables are fields, changed by methods. */
module SubscriptionLeaseManagers {
  import opened Wrappers
  import opened DataTracks
  import opened SubscriptionLeases

  /** The loop of minimumIntervalMs(). */
  method MinimumIntervalMs(leases: map<Requester, Lease>) returns (ms: int)
    requires leases != map[]
    ensures ms == MinInterval(leases)
  {
    var first: Requester :| first in leases;
    ms := leases[first].interval;
    ghost var at := first;
    var todo := leases.Keys;
    while todo != {}
      invariant todo <= leases.Keys
      invariant at in leases && leases[at].interval == ms
      invariant forall r: Requester :: r in leases && r !in todo ==> ms <= leases[r].interval
      decreases |todo|
    {
      var r: Requester :| r in todo;
      if leases[r].interval < ms {
        ms := leases[r].interval;
        at := r;
      }
      todo := todo - {r};
    }
    MinimumIsUnique(leases, ms, MinInterval(leases));
  }

  /** A walk over `all` that has passed `done`, each key once, and has `todo` left. */
  ghost predicate Walked(done: seq<TargetKey>, todo: set<TargetKey>, all: set<TargetKey>) {
    && SetOf(done) + todo == all
    && SetOf(done) !! todo
    && (forall i, j :: 0 <= i < j < |done| ==> done[i] != done[j])
  }

  lemma WalkOn(done: seq<TargetKey>, todo: set<TargetKey>, all: set<TargetKey>, key: TargetKey)
    requires Walked(done, todo, all) && key in todo
    ensures Walked(done + [key], todo - {key}, all)
  {
  }

  lemma WalkEnds(s: State, done: seq<TargetKey>, now: int)
    requires Walked(done, {}, s.subs.Keys)
    ensures PrunedInOrder(s, done, now) == PrunedAmong(s, s.subs.Keys, now)
  {
    var walked := SetOf(done);
    assert walked == s.subs.Keys;
    OrderIsIrrelevant(s, done, now);
    assert PrunedInOrder(s, done, now) == PrunedAmong(s, walked, now);
  }

  /** The targets still ahead of the walk have leases. */
  ghost predicate Ahead(subs: map<TargetKey, Subscription>, todo: set<TargetKey>) {
    forall k: TargetKey :: k in todo ==> k in subs && subs[k].leases != map[]
  }

  lemma StillAhead(s: State, todo: set<TargetKey>, key: TargetKey, now: int)
    requires Ahead(s.subs, todo)
    ensures Ahead(PrunedAt(s, key, now).subs, todo - {key})
  {
  }

  class SubscriptionLeaseManager {
    var subscriptions: map<TargetKey, Subscription>
    var sessionLeases: map<string, SessionLease>
    var isShutdown: bool
    var traces: map<TargetKey, seq<Event>>
    const leaseDuration: int

    function Abs(): State
      reads this
    {
      State(subscriptions, sessionLeases, isShutdown, traces)
    }

    ghost predicate Valid()
      reads this
    {
      Inv(Abs())
    }

    constructor (leaseDuration: int)
      ensures Valid() && Abs() == START.state && this.leaseDuration == leaseDuration
    {
      subscriptions, sessionLeases, isShutdown, traces := map[], map[], false, map[];
      this.leaseDuration := leaseDuration;
    }

    method ResolveIdentity(requester: Requester, session: Option<string>) returns (identity: Option<Requester>)
      ensures identity == Identity(sessionLeases, requester, session)
      ensures identity.Some? && requester != "" ==> identity.value == requester
      ensures session.None? || session.value !in sessionLeases ==> (identity.Some? <==> requester != "")
      ensures session.Some? && session.value in sessionLeases ==>
                var bound := sessionLeases[session.value].requester;
                identity == if requester in {"", bound} then Some(bound) else None
    {
      if requester == "" {
        if session.None? || session.value !in sessionLeases {
          return None;
        }
        return Some(sessionLeases[session.value].requester);
      }
      if session.None? {
        return Some(requester);
      }
      if session.value in sessionLeases && sessionLeases[session.value].requester != requester {
        return None;
      }
      return Some(requester);
    }

    /** Not `ok` stands for the exception, which leaves the table as it is. */
    method RenewSessionLease(requester: Requester, session: Option<string>, expiry: int) returns (ok: bool)
      modifies this`sessionLeases
      ensures ok == !RenewalConflicts(old(sessionLeases), requester, session)
      ensures sessionLeases
              == if ok then SessionRenewed(old(sessionLeases), requester, session, expiry) else old(sessionLeases)
      ensures session.None? || !ok ==> sessionLeases == old(sessionLeases)
      ensures session.None? ==> ok
      ensures session.Some? ==>
                (ok <==> session.value !in old(sessionLeases)
                         || old(sessionLeases)[session.value].requester == requester)
      ensures session.Some? && ok ==>
                sessionLeases == old(sessionLeases)[session.value := SessionLease(requester, expiry)]
    {
      if session.None? {
        return true;
      }
      if session.value !in sessionLeases {
        sessionLeases := sessionLeases[session.value := SessionLease(requester, expiry)];
      } else if sessionLeases[session.value].requester != requester {
        return false;
      }
      sessionLeases := sessionLeases[session.value := sessionLeases[session.value].(expiry := expiry)];
      return true;
    }

    method Renew(key: TargetKey, r: Requester, lease: Lease, publish: PublishOutcome) returns (status: Status)
      requires key in subscriptions
      modifies this`subscriptions, this`traces
      ensures subscriptions == old(subscriptions)[key := Renewed(old(subscriptions)[key], r, lease, publish)]
      ensures traces == Traced(old(traces), key, RenewEvents(old(subscriptions)[key], publish))
      ensures status == StatusOf(subscriptions[key])
      ensures var before, after := old(subscriptions)[key], subscriptions[key];
              && after.kind == before.kind && after.name == before.name
              && after.leases == before.leases[r := lease]
              && (!before.runtime.Data? ==> after.runtime == before.runtime)
              && (before.runtime.Data? ==>
                    && after.runtime.Data? && IsMinimum(after.runtime.publisher.interval, after.leases)
                    && (IsLive(after) <==> IsLive(before) || publish == Works))
    {
      var sub := subscriptions[key];
      sub := sub.(leases := sub.leases[r := lease]);
      traces := Traced(traces, key, RenewEvents(sub, publish));
      if sub.runtime.Data? {
        assert r in sub.leases;
        var minimum := MinimumIntervalMs(sub.leases);
        var publisher := WithInterval(sub.runtime.publisher, minimum);
        sub := sub.(runtime := Data(AfterPublish(publisher, publish)));
      }
      subscriptions := subscriptions[key := sub];
      status := StatusOf(sub);
    }

    method Create(kind: Kind, name: string, r: Requester, lease: Lease, a: Answer) returns (status: Option<Status>)
      requires MakeKey(kind, name) !in subscriptions
      modifies this`subscriptions, this`traces
      ensures status.None? <==> a.creation.CannotCreate?
      ensures status.None? ==> subscriptions == old(subscriptions) && traces == old(traces)
      ensures status.Some? ==>
                && subscriptions == old(subscriptions)[MakeKey(kind, name) := Created(kind, name, r, lease, a)]
                && traces == Traced(old(traces), MakeKey(kind, name), CreateEvents(a))
                && status.value == StatusOf(Created(kind, name, r, lease, a))
      ensures status.Some? ==>
                var sub := subscriptions[MakeKey(kind, name)];
                && sub.kind == kind && sub.name == name && sub.leases == map[r := lease]
                && (a.creation.VideoTrack? ==> sub.runtime == Video)
                && (a.creation.AudioTrack? ==> sub.runtime == Audio)
                && (a.creation.DataTrack? ==>
                      && sub.runtime.Data? && sub.runtime.publisher.interval == lease.interval
                      && sub.runtime.publisher.publication == if a.publish == Works then Some(lease.interval) else None)
    {
      var leases := map[r := lease];
      var runtime: Runtime;
      match a.creation {
        case CannotCreate => return None;
        case AudioTrack => runtime := Audio;
        case VideoTrack => runtime := Video;
        case DataTrack =>
          assert r in leases;
          var minimum := MinimumIntervalMs(leases);
          runtime := Data(AfterPublish(WithInterval(NEW_PUBLISHER, minimum), a.publish));
      }
      var sub := Subscription(kind, name, leases, runtime);
      traces := Traced(traces, MakeKey(kind, name), CreateEvents(a));
      subscriptions := subscriptions[MakeKey(kind, name) := sub];
      status := Some(StatusOf(sub));
    }

    method AppendDemandStatus(r: Requester, d: Demand, expiry: int, a: Answer) returns (status: Status)
      requires Valid()
      modifies this`subscriptions, this`traces
      ensures Valid()
      ensures Abs() == DemandApplied(old(Abs()), r, d, expiry, a)
      ensures status == DemandStatus(old(Abs()), r, d, expiry, a)
      ensures status == Forbidden(d.kind, d.name) <==> d.kind.Topic? && !a.allowed
      ensures !status.Active? ==> Abs() == old(Abs())
      ensures !status.Active? ==> status in {Forbidden(d.kind, d.name), NotFound(d.kind, d.name)}
      ensures status.Active? ==>
                && !isShutdown && a.name == Some(status.name) && status.kind == d.kind
                && MakeKey(d.kind, a.name.value) in subscriptions
                && var leases := subscriptions[MakeKey(d.kind, a.name.value)].leases;
                r in leases && leases[r].expiry == expiry
    {
      hide Inv, Renewed, Created;
      DemandKeepsInv(Abs(), r, d, expiry, a);
      StatusTellsTheOutcome(Abs(), r, d, expiry, a);
      RefusedDemandChangesNothing(Abs(), r, d, expiry, a);
      if d.kind.Topic? && !a.allowed {
        return Forbidden(d.kind, d.name);
      }
      if isShutdown || a.name.None? {
        return NotFound(d.kind, d.name);
      }
      var key := MakeKey(d.kind, a.name.value);
      var lease := Lease(if d.preferred.Some? && d.preferred.value > 0 then d.preferred.value else 0, expiry);
      if key in subscriptions {
        status := Renew(key, r, lease, a.publish);
      } else {
        var created := Create(d.kind, a.name.value, r, lease, a);
        status := if created.Some? then created.value else NotFound(d.kind, d.name);
      }
    }

    /** createStatusReport(): the demands in order, and then the unsupported entries. */
    method CreateStatusReport(r: Requester, hb: Heartbeat, expiry: int, answers: seq<Answer>)
      returns (report: seq<Status>)
      requires Valid() && |answers| == |hb.demands|
      modifies this`subscriptions, this`traces
      ensures Valid()
      ensures Abs() == DemandsApplied(old(Abs()), r, hb.demands, expiry, answers, |hb.demands|)
      ensures report == Statuses(old(Abs()), r, hb.demands, expiry, answers, |hb.demands|) + Refusals(hb.unsupported)
    {
      hide Inv, DemandApplied, DemandStatus;
      ghost var before := Abs();
      report := [];
      for i := 0 to |hb.demands|
        invariant Valid()
        invariant Abs() == DemandsApplied(before, r, hb.demands, expiry, answers, i)
        invariant report == Statuses(before, r, hb.demands, expiry, answers, i)
      {
        var status := AppendDemandStatus(r, hb.demands[i], expiry, answers[i]);
        report := report + [status];
      }
      ghost var statuses := report;
      for i := 0 to |hb.unsupported|
        invariant report == statuses + Refusals(hb.unsupported)[..i]
      {
        report := report + [UnsupportedKind(hb.unsupported[i].kind, hb.unsupported[i].name)];
      }
    }

    method HandleHeartbeat(requester: Requester, hb: Heartbeat, now: int, answers: seq<Answer>)
      returns (report: seq<Status>)
      requires Valid() && |answers| == |hb.demands|
      modifies this
      ensures Valid()
      ensures Abs() == Heard(old(Abs()), requester, hb, now + leaseDuration, answers)
      ensures report == Report(old(Abs()), requester, hb, now + leaseDuration, answers)
    {
      var identity := ResolveIdentity(requester, hb.session);
      IdentityIsKnown(sessionLeases, requester, hb.session);
      if identity.None? {
        return [];
      }
      var r := identity.value;
      var expiry := now + leaseDuration;
      SessionRenewalKeepsInv(Abs(), r, hb.session, expiry);
      var ok := RenewSessionLease(r, hb.session, expiry);
      assert ok;
      report := CreateStatusReport(r, hb, expiry, answers);
    }

    method PruneSessionLeases(now: int)
      modifies this`sessionLeases
      ensures sessionLeases == LiveSessions(old(sessionLeases), now)
      ensures forall id: string ::
                id in sessionLeases <==> id in old(sessionLeases) && now < old(sessionLeases)[id].expiry
      ensures forall id: string :: id in sessionLeases ==> sessionLeases[id] == old(sessionLeases)[id]
    {
      ghost var all := sessionLeases;
      var todo := sessionLeases.Keys;
      while todo != {}
        invariant todo <= all.Keys
        invariant sessionLeases == map id | id in all && (id in todo || now < all[id].expiry) :: all[id]
        decreases |todo|
      {
        var id: string :| id in todo;
        if sessionLeases[id].expiry <= now {
          sessionLeases := sessionLeases - {id};
        }
        todo := todo - {id};
      }
    }

    /** The inner loop of pruneLeases(). */
    static method EraseExpired(leases: map<Requester, Lease>, now: int)
      returns (live: map<Requester, Lease>, removedAny: bool)
      ensures live == LiveLeases(leases, now)
      ensures forall r: Requester :: r in live <==> r in leases && now < leases[r].expiry
      ensures forall r: Requester :: r in live ==> live[r] == leases[r]
      ensures removedAny == (live != leases)
    {
      live, removedAny := leases, false;
      var todo := leases.Keys;
      while todo != {}
        invariant todo <= leases.Keys
        invariant live == map r | r in leases && (r in todo || now < leases[r].expiry) :: leases[r]
        invariant removedAny == (live != leases)
        decreases |todo|
      {
        var r: Requester :| r in todo;
        if leases[r].expiry <= now {
          live := live - {r};
          removedAny := true;
          assert r in leases && r !in live;
        }
        todo := todo - {r};
      }
    }

    method PruneOne(key: TargetKey, now: int)
      requires key in subscriptions && subscriptions[key].leases != map[]
      modifies this`subscriptions, this`traces
      ensures Abs() == PrunedAt(old(Abs()), key, now)
    {
      var sub := subscriptions[key];
      var live, removedAny := EraseExpired(sub.leases, now);
      if !removedAny {
        assert subscriptions[key := sub] == subscriptions;
        return;
      }
      if live != map[] {
        sub := sub.(leases := live);
        if sub.runtime.Data? {
          var minimum := MinimumIntervalMs(live);
          sub := sub.(runtime := Data(WithInterval(sub.runtime.publisher, minimum)));
        }
        subscriptions := subscriptions[key := sub];
        return;
      }
      traces := Traced(traces, key, EndEvents(sub));
      subscriptions := subscriptions - {key};
    }

    method PruneLeases(now: int)
      requires Ahead(subscriptions, subscriptions.Keys)
      modifies this`subscriptions, this`traces
      ensures Abs() == PrunedAmong(old(Abs()), old(subscriptions).Keys, now)
    {
      ghost var before := Abs();
      ghost var all := subscriptions.Keys;
      ghost var done: seq<TargetKey> := [];
      var todo := subscriptions.Keys;
      while todo != {}
        invariant Ahead(subscriptions, todo)
        invariant Walked(done, todo, all)
        invariant Abs() == PrunedInOrder(before, done, now)
        decreases |todo|
      {
        var key: TargetKey :| key in todo;
        WalkOn(done, todo, all, key);
        PruneOneMore(before, done, key, now);
        StillAhead(Abs(), todo, key, now);
        PruneOne(key, now);
        todo := todo - {key};
        done := done + [key];
      }
      WalkEnds(before, done, now);
    }

    method PruneExpiredLeases(now: int)
      requires Valid()
      modifies this
      ensures Valid()
      ensures Abs() == Pruned(old(Abs()), now)
    {
      PruneKeepsInv(Abs(), now);
      if isShutdown {
        return;
      }
      assert Ahead(subscriptions, subscriptions.Keys) by {
        assert forall k: TargetKey :: k in subscriptions ==> SubValid(k, subscriptions[k]);
      }
      PruneSessionLeases(now);
      PruneLeases(now);
    }

    method Shutdown()
      requires Valid()
      modifies this
      ensures Valid()
      ensures Abs() == ShutDown(old(Abs()))
      ensures isShutdown && subscriptions == map[]
      ensures if old(isShutdown) then sessionLeases == old(sessionLeases) else sessionLeases == map[]
      ensures old(isShutdown) ==> traces == old(traces)
    {
      ShutdownKeepsInv(Abs());
      if isShutdown {
        return;
      }
      isShutdown := true;
      sessionLeases := map[];
      var owned := subscriptions;
      subscriptions := map[];
      DestroyAll(owned);
    }

    method Destroy(key: TargetKey, sub: Subscription)
      modifies this`traces
      ensures traces == Traced(old(traces), key, EndEvents(sub))
    {
      traces := Traced(traces, key, EndEvents(sub));
    }

    /** owned_subscriptions.clear() */
    method DestroyAll(owned: map<TargetKey, Subscription>)
      modifies this`traces
      ensures traces == old(traces) + Closings(old(traces), owned, owned.Keys)
    {
      ghost var before := traces;
      ghost var done: set<TargetKey> := {};
      var todo := owned.Keys;
      NothingClosed(before, owned);
      while todo != {}
        invariant todo !! done && todo + done == owned.Keys
        invariant traces == before + Closings(before, owned, done)
        decreases |todo|
      {
        var key: TargetKey :| key in todo;
        CloseOneMore(before, owned, done, key);
        Destroy(key, owned[key]);
        todo := todo - {key};
        done := done + {key};
      }
    }
  }
}
