/** SubscriptionLeaseManager: heartbeats renew leases on shared publishers, and unrenewed leases expire.

    `State` holds the two tables, and functions on it say what a heartbeat, a prune and a shutdown do.
    Class SubscriptionLeaseManager does the same in place. A flat relation from (target, requester) to
    lease is the specification that the nested table is proved to implement. */
module SubscriptionLeases {
  import opened Wrappers
  import opened DataTracks

  type Requester = string
  type TargetKey = string

  datatype Kind = Topic | OtherVideo | OtherAudio

  function Label(kind: Kind): string {
    match kind
    case Topic => "topic"
    case OtherVideo => "other_video"
    case OtherAudio => "other_audio"
  }

  function MakeKey(kind: Kind, name: string): TargetKey {
    Label(kind) + ":" + name
  }

  datatype Lease = Lease(interval: int, expiry: int)

  datatype Runtime = Data(publisher: Publisher) | Video | Audio

  datatype Subscription = Subscription(kind: Kind, name: string, leases: map<Requester, Lease>, runtime: Runtime)

  datatype SessionLease = SessionLease(requester: Requester, expiry: int)

  datatype Demand = Demand(kind: Kind, name: string, preferred: Option<int>)

  datatype Unsupported = Unsupported(kind: string, name: Option<string>)

  datatype Heartbeat = Heartbeat(session: Option<string>, demands: seq<Demand>, unsupported: seq<Unsupported>)

  /** What the outside says about one demand: the access policy, name resolution (which may throw), how
      the target would be delivered, and how publishing its data track would go. */
  datatype Creation = CannotCreate | DataTrack | VideoTrack | AudioTrack

  datatype Answer = Answer(allowed: bool, name: Option<string>, creation: Creation, publish: PublishOutcome)

  datatype Status =
    | Active(kind: Kind, name: string, published: bool, interval: int)
    | Forbidden(kind: Kind, name: string)
    | NotFound(kind: Kind, name: string)
    | UnsupportedKind(rawKind: string, rawName: Option<string>)

  /** traces: what happened on the data track of each target. */
  datatype State = State(
    subs: map<TargetKey, Subscription>,
    sessions: map<string, SessionLease>,
    shutdown: bool,
    traces: map<TargetKey, seq<Event>>)

  function Trace(traces: map<TargetKey, seq<Event>>, key: TargetKey): seq<Event> {
    if key in traces then traces[key] else []
  }

  function Traced(traces: map<TargetKey, seq<Event>>, key: TargetKey, events: seq<Event>): map<TargetKey, seq<Event>> {
    traces[key := Trace(traces, key) + events]
  }

  // ---------------------------------------------------------------------------------------------
  // The minimum interval
  // ---------------------------------------------------------------------------------------------

  ghost predicate IsMinimum(ms: int, leases: map<Requester, Lease>) {
    && (exists r: Requester :: r in leases && leases[r].interval == ms)
    && (forall r: Requester :: r in leases ==> ms <= leases[r].interval)
  }

  lemma {:induction false} MinimumExists(leases: map<Requester, Lease>)
    requires leases != map[]
    ensures exists ms: int :: IsMinimum(ms, leases)
    decreases |leases|
  {
    var r: Requester :| r in leases;
    var rest := leases - {r};
    if rest == map[] {
      assert rest.Keys == {};
      assert forall q: Requester :: q in leases ==> q == r || q in rest;
      assert IsMinimum(leases[r].interval, leases);
    } else {
      MinimumExists(rest);
      var ms: int :| IsMinimum(ms, rest);
      var least := if leases[r].interval < ms then leases[r].interval else ms;
      var q: Requester :| q in rest && rest[q].interval == ms;
      assert q in leases && leases[q].interval == ms;
      assert forall p: Requester :: p in leases ==> p == r || (p in rest && rest[p] == leases[p]);
      assert IsMinimum(least, leases);
    }
  }

  ghost function MinInterval(leases: map<Requester, Lease>): (ms: int)
    requires leases != map[]
    ensures IsMinimum(ms, leases)
  {
    MinimumExists(leases);
    var ms: int :| IsMinimum(ms, leases);
    ms
  }

  // ---------------------------------------------------------------------------------------------
  // What a heartbeat, a prune and a shutdown do
  // ---------------------------------------------------------------------------------------------

  /** A live lease of a session authenticates a heartbeat without identity; one with an identity must not
      use a session that is bound to another. */
  function Identity(sessions: map<string, SessionLease>, requester: Requester, session: Option<string>)
    : Option<Requester>
  {
    if requester == "" then
      if session.Some? && session.value in sessions then Some(sessions[session.value].requester) else None
    else if session.Some? && session.value in sessions && sessions[session.value].requester != requester then None
    else Some(requester)
  }

  /** The exception of renewSessionLease(). */
  predicate RenewalConflicts(sessions: map<string, SessionLease>, requester: Requester, session: Option<string>) {
    session.Some? && session.value in sessions && sessions[session.value].requester != requester
  }

  function SessionRenewed(sessions: map<string, SessionLease>, requester: Requester, session: Option<string>,
                          expiry: int)
    : map<string, SessionLease>
  {
    if session.None? then sessions else sessions[session.value := SessionLease(requester, expiry)]
  }

  /** The interval a lease is applied with: absent and negative preferences become 0. */
  function Applied(preferred: Option<int>): int {
    if preferred.Some? && preferred.value > 0 then preferred.value else 0
  }

  ghost function Renewed(sub: Subscription, r: Requester, lease: Lease, publish: PublishOutcome): Subscription {
    var leases := sub.leases[r := lease];
    if !sub.runtime.Data? then sub.(leases := leases)
    else
      assert r in leases;
      var p := WithInterval(sub.runtime.publisher, MinInterval(leases));
      sub.(leases := leases, runtime := Data(AfterPublish(p, publish)))
  }

  function RenewEvents(sub: Subscription, publish: PublishOutcome): seq<Event> {
    if sub.runtime.Data? then PublishEvents(sub.runtime.publisher, publish) else []
  }

  function Created(kind: Kind, name: string, r: Requester, lease: Lease, a: Answer): Subscription
    requires !a.creation.CannotCreate?
  {
    var p := WithInterval(NEW_PUBLISHER, lease.interval);
    var runtime := match a.creation
                   case DataTrack => Data(AfterPublish(p, a.publish))
                   case VideoTrack => Video
                   case AudioTrack => Audio;
    Subscription(kind, name, map[r := lease], runtime)
  }

  function CreateEvents(a: Answer): seq<Event> {
    if a.creation.DataTrack? then PublishEvents(NEW_PUBLISHER, a.publish) else []
  }

  function StatusOf(sub: Subscription): Status {
    if sub.runtime.Data?
    then Active(sub.kind, sub.name, sub.runtime.publisher.publication.Some?, sub.runtime.publisher.interval)
    else Active(sub.kind, sub.name, true, 0)
  }

  /** Whether a demand gets as far as the table. */
  predicate Admitted(shutdown: bool, d: Demand, a: Answer) {
    (d.kind.Topic? ==> a.allowed) && !shutdown && a.name.Some?
  }

  ghost function DemandApplied(s: State, r: Requester, d: Demand, expiry: int, a: Answer): State {
    if !Admitted(s.shutdown, d, a) then s
    else
      var key := MakeKey(d.kind, a.name.value);
      var lease := Lease(Applied(d.preferred), expiry);
      if key in s.subs then
        s.(subs := s.subs[key := Renewed(s.subs[key], r, lease, a.publish)],
           traces := Traced(s.traces, key, RenewEvents(s.subs[key], a.publish)))
      else if a.creation.CannotCreate? then s
      else
        s.(subs := s.subs[key := Created(d.kind, a.name.value, r, lease, a)],
           traces := Traced(s.traces, key, CreateEvents(a)))
  }

  ghost function DemandStatus(s: State, r: Requester, d: Demand, expiry: int, a: Answer): Status {
    if d.kind.Topic? && !a.allowed then Forbidden(d.kind, d.name)
    else if !Admitted(s.shutdown, d, a) then NotFound(d.kind, d.name)
    else
      var key := MakeKey(d.kind, a.name.value);
      if key !in s.subs && a.creation.CannotCreate? then NotFound(d.kind, d.name)
      else StatusOf(DemandApplied(s, r, d, expiry, a).subs[key])
  }

  /** The first n demands of a heartbeat, in order. */
  ghost function DemandsApplied(s: State, r: Requester, demands: seq<Demand>, expiry: int, answers: seq<Answer>,
                                n: nat): State
    requires n <= |demands| == |answers|
  {
    if n == 0 then s
    else DemandApplied(DemandsApplied(s, r, demands, expiry, answers, n - 1), r, demands[n - 1], expiry, answers[n - 1])
  }

  ghost function Heard(s: State, requester: Requester, hb: Heartbeat, expiry: int, answers: seq<Answer>): State
    requires |answers| == |hb.demands|
  {
    match Identity(s.sessions, requester, hb.session)
    case None => s
    case Some(r) =>
      var t := s.(sessions := SessionRenewed(s.sessions, r, hb.session, expiry));
      DemandsApplied(t, r, hb.demands, expiry, answers, |hb.demands|)
  }

  function LiveLeases(leases: map<Requester, Lease>, now: int): map<Requester, Lease> {
    map r | r in leases && now < leases[r].expiry :: leases[r]
  }

  function LiveSessions(sessions: map<string, SessionLease>, now: int): map<string, SessionLease> {
    map id | id in sessions && now < sessions[id].expiry :: sessions[id]
  }

  predicate Survives(sub: Subscription, now: int) {
    LiveLeases(sub.leases, now) != map[]
  }

  ghost function SubPruned(sub: Subscription, now: int): Subscription
    requires Survives(sub, now)
  {
    var live := LiveLeases(sub.leases, now);
    if live == sub.leases || !sub.runtime.Data? then sub.(leases := live)
    else sub.(leases := live, runtime := Data(WithInterval(sub.runtime.publisher, MinInterval(live))))
  }

  function EndEvents(sub: Subscription): seq<Event> {
    if sub.runtime.Data? then DestroyEvents(sub.runtime.publisher) else []
  }

  /** One subscription of pruneLeases(). A subscription without leases left is destroyed. */
  ghost function PrunedAt(s: State, key: TargetKey, now: int): State {
    if key !in s.subs then s
    else if Survives(s.subs[key], now) then s.(subs := s.subs[key := SubPruned(s.subs[key], now)])
    else s.(subs := s.subs - {key}, traces := Traced(s.traces, key, EndEvents(s.subs[key])))
  }

  ghost function PrunedInOrder(s: State, keys: seq<TargetKey>, now: int): State
    decreases |keys|
  {
    if keys == [] then s else PrunedAt(PrunedInOrder(s, keys[..|keys| - 1], now), keys[|keys| - 1], now)
  }

  function SetOf(keys: seq<TargetKey>): set<TargetKey> {
    set k | k in keys
  }

  /** What the data tracks of the targets in `keys` look like once those are destroyed. */
  function Closings(traces: map<TargetKey, seq<Event>>, subs: map<TargetKey, Subscription>, keys: set<TargetKey>)
    : map<TargetKey, seq<Event>>
  {
    map k | k in keys && k in subs :: Trace(traces, k) + EndEvents(subs[k])
  }

  function Ending(subs: map<TargetKey, Subscription>, keys: set<TargetKey>, now: int): set<TargetKey> {
    set k | k in keys && k in subs && !Survives(subs[k], now)
  }

  /** The subscriptions among `keys` are pruned. */
  ghost function PrunedAmong(s: State, keys: set<TargetKey>, now: int): State {
    s.(subs := map k | k in s.subs && (k in keys ==> Survives(s.subs[k], now)) ::
                 if k in keys then SubPruned(s.subs[k], now) else s.subs[k],
       traces := s.traces + Closings(s.traces, s.subs, Ending(s.subs, keys, now)))
  }

  ghost function Pruned(s: State, now: int): State {
    if s.shutdown then s
    else PrunedAmong(s, s.subs.Keys, now).(sessions := LiveSessions(s.sessions, now))
  }

  function ShutDown(s: State): State {
    if s.shutdown then s
    else State(map[], map[], true, s.traces + Closings(s.traces, s.subs, s.subs.Keys))
  }

  // ---------------------------------------------------------------------------------------------
  // Targets and their keys
  // ---------------------------------------------------------------------------------------------

  lemma MakeKeyIsInjective(k1: Kind, n1: string, k2: Kind, n2: string)
    requires MakeKey(k1, n1) == MakeKey(k2, n2)
    ensures k1 == k2 && n1 == n2
  {
    var key := MakeKey(k1, n1);
    assert key[0] == Label(k1)[0] && key[0] == Label(k2)[0];
    if !k1.Topic? && !k2.Topic? {
      assert key[6] == Label(k1)[6] && key[6] == Label(k2)[6];
    }
    assert k1 == k2;
    assert key[|Label(k1)| + 1..] == n1 && key[|Label(k2)| + 1..] == n2;
  }

  // ---------------------------------------------------------------------------------------------
  // The invariant
  // ---------------------------------------------------------------------------------------------

  /** A target has a lease; its data publisher is set to the smallest interval, and a live publication
      applies it. */
  ghost predicate SubValid(key: TargetKey, sub: Subscription) {
    && key == MakeKey(sub.kind, sub.name)
    && sub.leases != map[]
    && (forall r: Requester :: r in sub.leases ==> sub.leases[r].interval >= 0)
    && (sub.runtime.Data? ==>
          var p := sub.runtime.publisher;
          IsMinimum(p.interval, sub.leases) && (p.publication.Some? ==> p.publication.value == p.interval))
  }

  predicate IsLive(sub: Subscription) {
    sub.runtime.Data? && sub.runtime.publisher.publication.Some?
  }

  predicate Live(subs: map<TargetKey, Subscription>, key: TargetKey) {
    key in subs && IsLive(subs[key])
  }

  ghost predicate SubsValid(subs: map<TargetKey, Subscription>) {
    forall key: TargetKey :: key in subs ==> SubValid(key, subs[key])
  }

  ghost predicate TracesValid(s: State) {
    forall key: TargetKey :: Alternates(Trace(s.traces, key), Live(s.subs, key))
  }

  ghost predicate SessionsValid(sessions: map<string, SessionLease>) {
    forall id: string :: id in sessions ==> sessions[id].requester != ""
  }

  ghost predicate Inv(s: State) {
    && SubsValid(s.subs)
    && TracesValid(s)
    && SessionsValid(s.sessions)
    && (s.shutdown ==> s.subs == map[])
  }

  lemma MinimumIsUnique(leases: map<Requester, Lease>, a: int, b: int)
    requires IsMinimum(a, leases) && IsMinimum(b, leases)
    ensures a == b
  {
  }

  lemma RenewKeepsSub(key: TargetKey, sub: Subscription, r: Requester, lease: Lease, publish: PublishOutcome)
    requires SubValid(key, sub) && lease.interval >= 0
    ensures SubValid(key, Renewed(sub, r, lease, publish))
  {
  }

  lemma CreateKeepsSub(kind: Kind, name: string, r: Requester, lease: Lease, a: Answer)
    requires !a.creation.CannotCreate? && lease.interval >= 0
    ensures SubValid(MakeKey(kind, name), Created(kind, name, r, lease, a))
  {
    var leases := map[r := lease];
    assert r in leases && leases[r].interval == lease.interval;
  }

  lemma PruneKeepsSub(key: TargetKey, sub: Subscription, now: int)
    requires SubValid(key, sub) && Survives(sub, now)
    ensures SubValid(key, SubPruned(sub, now))
    ensures IsLive(SubPruned(sub, now)) == IsLive(sub)
  {
  }

  lemma DemandAlternates(s: State, r: Requester, d: Demand, expiry: int, a: Answer)
    requires TracesValid(s) && Admitted(s.shutdown, d, a)
    ensures var key := MakeKey(d.kind, a.name.value);
            var t := DemandApplied(s, r, d, expiry, a);
            Alternates(Trace(t.traces, key), Live(t.subs, key))
  {
    var key := MakeKey(d.kind, a.name.value);
    var trace := Trace(s.traces, key);
    assert Alternates(trace, Live(s.subs, key));
    if key in s.subs && s.subs[key].runtime.Data? {
      PublishingAlternates(trace, s.subs[key].runtime.publisher, a.publish);
    } else if key !in s.subs && a.creation.DataTrack? {
      PublishingAlternates(trace, NEW_PUBLISHER, a.publish);
    } else {
      assert trace + [] == trace;
    }
  }

  lemma DemandKeepsTraces(s: State, r: Requester, d: Demand, expiry: int, a: Answer)
    requires TracesValid(s)
    ensures TracesValid(DemandApplied(s, r, d, expiry, a))
  {
    var t := DemandApplied(s, r, d, expiry, a);
    if Admitted(s.shutdown, d, a) {
      var key := MakeKey(d.kind, a.name.value);
      DemandAlternates(s, r, d, expiry, a);
      forall k: TargetKey ensures Alternates(Trace(t.traces, k), Live(t.subs, k)) {
        assert Alternates(Trace(s.traces, k), Live(s.subs, k));
        assert k != key ==> Trace(t.traces, k) == Trace(s.traces, k) && Live(t.subs, k) == Live(s.subs, k);
      }
    }
  }

  lemma DemandKeepsInv(s: State, r: Requester, d: Demand, expiry: int, a: Answer)
    requires Inv(s)
    ensures var t := DemandApplied(s, r, d, expiry, a);
            Inv(t) && t.shutdown == s.shutdown && t.sessions == s.sessions
  {
    DemandKeepsTraces(s, r, d, expiry, a);
    if Admitted(s.shutdown, d, a) {
      var key := MakeKey(d.kind, a.name.value);
      var lease := Lease(Applied(d.preferred), expiry);
      if key in s.subs {
        RenewKeepsSub(key, s.subs[key], r, lease, a.publish);
      } else if !a.creation.CannotCreate? {
        CreateKeepsSub(d.kind, a.name.value, r, lease, a);
      }
    }
  }

  lemma {:induction false} DemandsKeepInv(s: State, r: Requester, demands: seq<Demand>, expiry: int,
                                          answers: seq<Answer>, n: nat)
    requires Inv(s) && n <= |demands| == |answers|
    ensures var t := DemandsApplied(s, r, demands, expiry, answers, n);
            Inv(t) && t.shutdown == s.shutdown && t.sessions == s.sessions
  {
    if n > 0 {
      DemandsKeepInv(s, r, demands, expiry, answers, n - 1);
      var before := DemandsApplied(s, r, demands, expiry, answers, n - 1);
      DemandKeepsInv(before, r, demands[n - 1], expiry, answers[n - 1]);
    }
  }

  lemma IdentityIsKnown(sessions: map<string, SessionLease>, requester: Requester, session: Option<string>)
    requires SessionsValid(sessions)
    ensures var identity := Identity(sessions, requester, session);
            && (identity.Some? ==> identity.value != "" && !RenewalConflicts(sessions, identity.value, session))
            && (requester != "" && identity.Some? ==> identity.value == requester)
  {
  }

  /** Who a heartbeat is from: the participant that LiveKit names, unless its session is bound to another;
      without a name, whoever the session is bound to. */
  lemma IdentityIsExact(sessions: map<string, SessionLease>, requester: Requester, session: Option<string>,
                        r: Requester)
    ensures Identity(sessions, requester, session) == Some(r) <==>
              var bound := session.Some? && session.value in sessions;
              || (requester == r != "" && (bound ==> sessions[session.value].requester == r))
              || (requester == "" && bound && sessions[session.value].requester == r)
  {
  }

  lemma SessionRenewalKeepsInv(s: State, r: Requester, session: Option<string>, expiry: int)
    requires Inv(s) && r != ""
    ensures Inv(s.(sessions := SessionRenewed(s.sessions, r, session, expiry)))
  {
  }

  lemma BeatKeepsInv(s: State, requester: Requester, hb: Heartbeat, expiry: int, answers: seq<Answer>)
    requires Inv(s) && |answers| == |hb.demands|
    ensures Inv(Heard(s, requester, hb, expiry, answers))
  {
    IdentityIsKnown(s.sessions, requester, hb.session);
    var identity := Identity(s.sessions, requester, hb.session);
    if identity.Some? {
      var t := s.(sessions := SessionRenewed(s.sessions, identity.value, hb.session, expiry));
      SessionRenewalKeepsInv(s, identity.value, hb.session, expiry);
      DemandsKeepInv(t, identity.value, hb.demands, expiry, answers, |hb.demands|);
    }
  }

  lemma EndingAlternates(s: State, key: TargetKey)
    requires TracesValid(s) && key in s.subs
    ensures Alternates(Trace(s.traces, key) + EndEvents(s.subs[key]), false)
  {
  }

  lemma PruneAlternates(s: State, now: int, key: TargetKey)
    requires TracesValid(s) && (key in s.subs ==> SubValid(key, s.subs[key]))
    ensures var t := PrunedAmong(s, s.subs.Keys, now);
            Alternates(Trace(t.traces, key), Live(t.subs, key))
  {
    var closed := Closings(s.traces, s.subs, Ending(s.subs, s.subs.Keys, now));
    assert Alternates(Trace(s.traces, key), Live(s.subs, key));
    if key !in s.subs {
      assert key !in closed;
    } else if Survives(s.subs[key], now) {
      assert key !in closed;
      PruneKeepsSub(key, s.subs[key], now);
    } else {
      assert key in closed;
      EndingAlternates(s, key);
    }
  }

  lemma PruneKeepsTraces(s: State, now: int)
    requires Inv(s)
    ensures TracesValid(PrunedAmong(s, s.subs.Keys, now))
  {
    var t := PrunedAmong(s, s.subs.Keys, now);
    forall key: TargetKey ensures Alternates(Trace(t.traces, key), Live(t.subs, key)) {
      PruneAlternates(s, now, key);
    }
  }

  lemma PruneKeepsInv(s: State, now: int)
    requires Inv(s)
    ensures Inv(Pruned(s, now))
  {
    if !s.shutdown {
      PruneKeepsTraces(s, now);
      var t := PrunedAmong(s, s.subs.Keys, now);
      var u := Pruned(s, now);
      forall key: TargetKey | key in u.subs ensures SubValid(key, u.subs[key]) {
        PruneKeepsSub(key, s.subs[key], now);
      }
      forall key: TargetKey ensures Alternates(Trace(u.traces, key), Live(u.subs, key)) {
        assert Alternates(Trace(t.traces, key), Live(t.subs, key));
      }
    }
  }

  lemma ShutdownKeepsInv(s: State)
    requires Inv(s)
    ensures Inv(ShutDown(s))
  {
    var t := ShutDown(s);
    forall key: TargetKey ensures Alternates(Trace(t.traces, key), Live(t.subs, key)) {
      assert Alternates(Trace(s.traces, key), Live(s.subs, key));
      if key in s.subs && !s.shutdown {
        EndingAlternates(s, key);
      }
    }
  }

  // ---------------------------------------------------------------------------------------------
  // Runs
  // ---------------------------------------------------------------------------------------------

  datatype Op =
    | Beat(requester: Requester, heartbeat: Heartbeat, answers: seq<Answer>)
    | Prune
    | Shutdown
    | Tick(elapsed: nat)

  datatype World = World(state: State, now: int)

  const START := World(State(map[], map[], false, map[]), 0)

  predicate Enabled(op: Op) {
    op.Beat? ==> |op.answers| == |op.heartbeat.demands|
  }

  /** `duration` is how long a lease lasts without renewal. The clock never runs backwards. */
  ghost function Step(w: World, op: Op, duration: int): World
    requires Enabled(op)
  {
    match op
    case Beat(requester, hb, answers) => w.(state := Heard(w.state, requester, hb, w.now + duration, answers))
    case Prune => w.(state := Pruned(w.state, w.now))
    case Shutdown => w.(state := ShutDown(w.state))
    case Tick(elapsed) => w.(now := w.now + elapsed)
  }

  predicate Runs(ops: seq<Op>) {
    forall i :: 0 <= i < |ops| ==> Enabled(ops[i])
  }

  ghost function Exec(w: World, ops: seq<Op>, duration: int): World
    requires Runs(ops)
    decreases |ops|
  {
    if ops == [] then w else Step(Exec(w, ops[..|ops| - 1], duration), ops[|ops| - 1], duration)
  }

  lemma StepKeepsInv(w: World, op: Op, duration: int)
    requires Inv(w.state) && Enabled(op)
    ensures Inv(Step(w, op, duration).state)
  {
    match op
    case Beat(requester, hb, answers) => BeatKeepsInv(w.state, requester, hb, w.now + duration, answers);
    case Prune => PruneKeepsInv(w.state, w.now);
    case Shutdown => ShutdownKeepsInv(w.state);
    case Tick(elapsed) =>
  }

  lemma {:induction false} RunKeepsInv(w: World, ops: seq<Op>, duration: int)
    requires Inv(w.state) && Runs(ops)
    ensures Inv(Exec(w, ops, duration).state)
    decreases |ops|
  {
    if ops != [] {
      RunKeepsInv(w, ops[..|ops| - 1], duration);
      StepKeepsInv(Exec(w, ops[..|ops| - 1], duration), ops[|ops| - 1], duration);
    }
  }

  // ---------------------------------------------------------------------------------------------
  // The flat relation
  // ---------------------------------------------------------------------------------------------

  type Rows = imap<(TargetKey, Requester), Lease>

  ghost function Flatten(subs: map<TargetKey, Subscription>): Rows {
    imap p: (TargetKey, Requester) | p.0 in subs && p.1 in subs[p.0].leases :: subs[p.0].leases[p.1]
  }

  ghost predicate HasRow(rows: Rows, key: TargetKey) {
    exists r: Requester :: (key, r) in rows
  }

  /** A demand upserts one row of its requester, when the target has rows already or can be created. */
  ghost function FlatDemand(rows: Rows, shutdown: bool, r: Requester, d: Demand, expiry: int, a: Answer): Rows {
    if d.kind.Topic? && !a.allowed then rows
    else if shutdown || a.name.None? then rows
    else
      var key := MakeKey(d.kind, a.name.value);
      if HasRow(rows, key) || !a.creation.CannotCreate?
      then rows[(key, r) := Lease(if d.preferred.Some? && d.preferred.value > 0 then d.preferred.value else 0, expiry)]
      else rows
  }

  ghost function FlatDemands(rows: Rows, shutdown: bool, r: Requester, demands: seq<Demand>, expiry: int,
                             answers: seq<Answer>, n: nat): Rows
    requires n <= |demands| == |answers|
  {
    if n == 0 then rows
    else
      var before := FlatDemands(rows, shutdown, r, demands, expiry, answers, n - 1);
      FlatDemand(before, shutdown, r, demands[n - 1], expiry, answers[n - 1])
  }

  datatype Flat = Flat(rows: Rows, sessions: map<string, SessionLease>, shutdown: bool, now: int)

  ghost function FlatStep(f: Flat, op: Op, duration: int): Flat
    requires Enabled(op)
  {
    match op
    case Beat(requester, hb, answers) =>
      (match Identity(f.sessions, requester, hb.session)
       case None => f
       case Some(r) =>
         f.(sessions := if hb.session.None? then f.sessions
                        else f.sessions[hb.session.value := SessionLease(r, f.now + duration)],
            rows := FlatDemands(f.rows, f.shutdown, r, hb.demands, f.now + duration, answers, |hb.demands|)))
    case Prune =>
      if f.shutdown then f
      else f.(rows := imap p | p in f.rows && f.now < f.rows[p].expiry :: f.rows[p],
              sessions := map id | id in f.sessions && f.now < f.sessions[id].expiry :: f.sessions[id])
    case Shutdown => if f.shutdown then f else Flat(imap[], map[], true, f.now)
    case Tick(elapsed) => f.(now := f.now + elapsed)
  }

  ghost function FlatExec(f: Flat, ops: seq<Op>, duration: int): Flat
    requires Runs(ops)
    decreases |ops|
  {
    if ops == [] then f else FlatStep(FlatExec(f, ops[..|ops| - 1], duration), ops[|ops| - 1], duration)
  }

  ghost function Flattened(w: World): Flat {
    Flat(Flatten(w.state.subs), w.state.sessions, w.state.shutdown, w.now)
  }

  lemma TargetsAreTheRowsGrouped(subs: map<TargetKey, Subscription>, key: TargetKey)
    requires SubsValid(subs)
    ensures key in subs <==> HasRow(Flatten(subs), key)
  {
    if key in subs {
      assert SubValid(key, subs[key]);
      var r: Requester :| r in subs[key].leases;
      assert (key, r) in Flatten(subs);
    }
  }

  lemma UpsertIsFlat(subs: map<TargetKey, Subscription>, key: TargetKey, sub: Subscription, r: Requester, lease: Lease)
    requires sub.leases == (if key in subs then subs[key].leases else map[])[r := lease]
    ensures Flatten(subs[key := sub]) == Flatten(subs)[(key, r) := lease]
  {
  }

  lemma DemandIsFlat(s: State, r: Requester, d: Demand, expiry: int, a: Answer)
    requires SubsValid(s.subs)
    ensures Flatten(DemandApplied(s, r, d, expiry, a).subs) == FlatDemand(Flatten(s.subs), s.shutdown, r, d, expiry, a)
  {
    if Admitted(s.shutdown, d, a) {
      var key := MakeKey(d.kind, a.name.value);
      var lease := Lease(Applied(d.preferred), expiry);
      TargetsAreTheRowsGrouped(s.subs, key);
      if key in s.subs {
        UpsertIsFlat(s.subs, key, Renewed(s.subs[key], r, lease, a.publish), r, lease);
      } else if !a.creation.CannotCreate? {
        UpsertIsFlat(s.subs, key, Created(d.kind, a.name.value, r, lease, a), r, lease);
      }
    }
  }

  lemma {:induction false} DemandsAreFlat(s: State, r: Requester, demands: seq<Demand>, expiry: int,
                                          answers: seq<Answer>, n: nat)
    requires Inv(s) && n <= |demands| == |answers|
    ensures Flatten(DemandsApplied(s, r, demands, expiry, answers, n).subs)
            == FlatDemands(Flatten(s.subs), s.shutdown, r, demands, expiry, answers, n)
  {
    if n > 0 {
      var before := DemandsApplied(s, r, demands, expiry, answers, n - 1);
      DemandsAreFlat(s, r, demands, expiry, answers, n - 1);
      assert SubsValid(before.subs) && before.shutdown == s.shutdown by {
        DemandsKeepInv(s, r, demands, expiry, answers, n - 1);
      }
      DemandIsFlat(before, r, demands[n - 1], expiry, answers[n - 1]);
    }
  }

  lemma PrunedLeases(s: State, now: int, key: TargetKey)
    ensures var t := PrunedAmong(s, s.subs.Keys, now);
            && (key in t.subs <==> key in s.subs && Survives(s.subs[key], now))
            && (key in t.subs ==> t.subs[key].leases == LiveLeases(s.subs[key].leases, now))
  {
  }

  lemma PrunedRow(s: State, now: int, key: TargetKey, r: Requester)
    ensures var rows := Flatten(s.subs);
            var live := Flatten(PrunedAmong(s, s.subs.Keys, now).subs);
            && ((key, r) in live <==> (key, r) in rows && now < rows[(key, r)].expiry)
            && ((key, r) in live ==> live[(key, r)] == rows[(key, r)])
  {
    PrunedLeases(s, now, key);
    if key in s.subs {
      assert r in LiveLeases(s.subs[key].leases, now) ==> Survives(s.subs[key], now);
    }
  }

  /** A prune keeps exactly the rows that have not expired. */
  lemma PruneIsFlat(s: State, now: int)
    ensures var rows := Flatten(s.subs);
            Flatten(PrunedAmong(s, s.subs.Keys, now).subs) == imap p | p in rows && now < rows[p].expiry :: rows[p]
  {
    forall p: (TargetKey, Requester)
      ensures var rows := Flatten(s.subs);
              var live := Flatten(PrunedAmong(s, s.subs.Keys, now).subs);
              && (p in live <==> p in rows && now < rows[p].expiry)
              && (p in live ==> live[p] == rows[p])
    {
      PrunedRow(s, now, p.0, p.1);
    }
  }

  lemma BeatIsFlat(w: World, op: Op, duration: int)
    requires Inv(w.state) && Enabled(op) && op.Beat?
    ensures Flattened(Step(w, op, duration)) == FlatStep(Flattened(w), op, duration)
  {
    var s, expiry := w.state, w.now + duration;
    IdentityIsKnown(s.sessions, op.requester, op.heartbeat.session);
    var identity := Identity(s.sessions, op.requester, op.heartbeat.session);
    if identity.Some? {
      var t := s.(sessions := SessionRenewed(s.sessions, identity.value, op.heartbeat.session, expiry));
      SessionRenewalKeepsInv(s, identity.value, op.heartbeat.session, expiry);
      DemandsAreFlat(t, identity.value, op.heartbeat.demands, expiry, op.answers, |op.heartbeat.demands|);
      DemandsKeepInv(t, identity.value, op.heartbeat.demands, expiry, op.answers, |op.heartbeat.demands|);
    }
  }

  lemma StepIsFlat(w: World, op: Op, duration: int)
    requires Inv(w.state) && Enabled(op)
    ensures Flattened(Step(w, op, duration)) == FlatStep(Flattened(w), op, duration)
  {
    match op
    case Beat(_, _, _) => BeatIsFlat(w, op, duration);
    case Prune =>
      if !w.state.shutdown {
        PruneIsFlat(w.state, w.now);
      }
    case Shutdown =>
      if !w.state.shutdown {
        assert Flatten(map[]) == imap[];
      }
    case Tick(elapsed) =>
  }

  /** The nested table is the grouping of the flat relation, over every run. */
  lemma {:induction false} RunIsFlat(w: World, ops: seq<Op>, duration: int)
    requires Inv(w.state) && Runs(ops)
    ensures Flattened(Exec(w, ops, duration)) == FlatExec(Flattened(w), ops, duration)
    ensures forall key: TargetKey ::
              key in Exec(w, ops, duration).state.subs <==> HasRow(FlatExec(Flattened(w), ops, duration).rows, key)
    decreases |ops|
  {
    if ops != [] {
      RunIsFlat(w, ops[..|ops| - 1], duration);
      RunKeepsInv(w, ops[..|ops| - 1], duration);
      StepIsFlat(Exec(w, ops[..|ops| - 1], duration), ops[|ops| - 1], duration);
    }
    RunKeepsInv(w, ops, duration);
    forall key: TargetKey
      ensures key in Exec(w, ops, duration).state.subs <==> HasRow(FlatExec(Flattened(w), ops, duration).rows, key)
    {
      TargetsAreTheRowsGrouped(Exec(w, ops, duration).state.subs, key);
    }
  }

  // ---------------------------------------------------------------------------------------------
  // What follows for every run
  // ---------------------------------------------------------------------------------------------

  /** A data publisher applies the smallest interval of its leases, never a negative one. */
  lemma PublishersApplyTheMinimum(ops: seq<Op>, duration: int, key: TargetKey)
    requires Runs(ops)
    requires key in Exec(START, ops, duration).state.subs
    ensures var sub := Exec(START, ops, duration).state.subs[key];
            && sub.leases != map[]
            && (sub.runtime.Data? ==>
                  && sub.runtime.publisher.interval == MinInterval(sub.leases) >= 0
                  && sub.runtime.publisher.publication in {None, Some(MinInterval(sub.leases))})
  {
    RunKeepsInv(START, ops, duration);
    var sub := Exec(START, ops, duration).state.subs[key];
    assert SubValid(key, sub);
    if sub.runtime.Data? {
      MinimumIsUnique(sub.leases, sub.runtime.publisher.interval, MinInterval(sub.leases));
    }
  }

  /** Over a whole run, each data track is published and unpublished in turn; it is published now iff its
      target is in the table with a live publication. */
  lemma TracksAlternate(ops: seq<Op>, duration: int, key: TargetKey)
    requires Runs(ops)
    ensures var s := Exec(START, ops, duration).state;
            Alternates(Trace(s.traces, key), Live(s.subs, key))
  {
    RunKeepsInv(START, ops, duration);
  }

  /** A kind and a name share a publisher with no other kind and name, and have one publisher at most. */
  lemma OnePublisherPerTarget(ops: seq<Op>, duration: int, k1: TargetKey, k2: TargetKey)
    requires Runs(ops)
    requires k1 in Exec(START, ops, duration).state.subs && k2 in Exec(START, ops, duration).state.subs
    ensures var subs := Exec(START, ops, duration).state.subs;
            k1 == k2 <==> subs[k1].kind == subs[k2].kind && subs[k1].name == subs[k2].name
  {
    RunKeepsInv(START, ops, duration);
    var subs := Exec(START, ops, duration).state.subs;
    assert SubValid(k1, subs[k1]) && SubValid(k2, subs[k2]);
  }

  lemma DemandFindsItsOwnTarget(s: State, kind: Kind, name: string)
    requires Inv(s) && MakeKey(kind, name) in s.subs
    ensures s.subs[MakeKey(kind, name)].kind == kind && s.subs[MakeKey(kind, name)].name == name
  {
    var sub := s.subs[MakeKey(kind, name)];
    assert SubValid(MakeKey(kind, name), sub);
    MakeKeyIsInjective(kind, name, sub.kind, sub.name);
  }

  /** After shutdown() no target comes back, whatever is heard, pruned or shut down again. */
  lemma {:induction false} NoTargetAfterShutdown(w: World, ops: seq<Op>, duration: int)
    requires Inv(w.state) && w.state.shutdown && Runs(ops)
    ensures Exec(w, ops, duration).state.shutdown && Exec(w, ops, duration).state.subs == map[]
    decreases |ops|
  {
    RunKeepsInv(w, ops, duration);
    if ops != [] {
      var before := Exec(w, ops[..|ops| - 1], duration);
      NoTargetAfterShutdown(w, ops[..|ops| - 1], duration);
      RunKeepsInv(w, ops[..|ops| - 1], duration);
      var op := ops[|ops| - 1];
      if op.Beat? && Identity(before.state.sessions, op.requester, op.heartbeat.session).Some? {
        var r := Identity(before.state.sessions, op.requester, op.heartbeat.session).value;
        IdentityIsKnown(before.state.sessions, op.requester, op.heartbeat.session);
        var expiry := before.now + duration;
        SessionRenewalKeepsInv(before.state, r, op.heartbeat.session, expiry);
        var sessions := SessionRenewed(before.state.sessions, r, op.heartbeat.session, expiry);
        DemandsKeepInv(before.state.(sessions := sessions), r, op.heartbeat.demands, expiry, op.answers, |op.answers|);
      }
    }
  }

  ghost predicate Demanded(demands: seq<Demand>, answers: seq<Answer>, n: nat, key: TargetKey)
    requires n <= |demands| == |answers|
  {
    exists i :: 0 <= i < n && answers[i].name.Some? && key == MakeKey(demands[i].kind, answers[i].name.value)
  }

  lemma {:induction false} DemandsTouchOwnRows(rows: Rows, shutdown: bool, r: Requester, demands: seq<Demand>,
                                               expiry: int, answers: seq<Answer>, n: nat, key: TargetKey, q: Requester)
    requires n <= |demands| == |answers|
    requires q != r || !Demanded(demands, answers, n, key)
    ensures var after := FlatDemands(rows, shutdown, r, demands, expiry, answers, n);
            && ((key, q) in after <==> (key, q) in rows)
            && ((key, q) in rows ==> after[(key, q)] == rows[(key, q)])
  {
    if n > 0 {
      assert q == r ==> !Demanded(demands, answers, n - 1, key) by {
        if Demanded(demands, answers, n - 1, key) {
          var i :| 0 <= i < n - 1 && answers[i].name.Some? && key == MakeKey(demands[i].kind, answers[i].name.value);
          assert Demanded(demands, answers, n, key);
        }
      }
      DemandsTouchOwnRows(rows, shutdown, r, demands, expiry, answers, n - 1, key, q);
    }
  }

  /** A heartbeat leaves alone every lease of another requester, and its own leases on targets it omits. */
  lemma HeartbeatTouchesOwnDemands(w: World, op: Op, duration: int, key: TargetKey, q: Requester)
    requires Inv(w.state) && Enabled(op) && op.Beat?
    requires Identity(w.state.sessions, op.requester, op.heartbeat.session) != Some(q)
             || !Demanded(op.heartbeat.demands, op.answers, |op.answers|, key)
    ensures var rows, after := Flatten(w.state.subs), Flatten(Step(w, op, duration).state.subs);
            && ((key, q) in after <==> (key, q) in rows)
            && ((key, q) in rows ==> after[(key, q)] == rows[(key, q)])
  {
    BeatIsFlat(w, op, duration);
    var identity := Identity(w.state.sessions, op.requester, op.heartbeat.session);
    if identity.Some? {
      DemandsTouchOwnRows(Flatten(w.state.subs), w.state.shutdown, identity.value, op.heartbeat.demands,
                          w.now + duration, op.answers, |op.answers|, key, q);
    }
  }

  // ---------------------------------------------------------------------------------------------
  // Sessions
  // ---------------------------------------------------------------------------------------------

  ghost predicate SessionsExpireInTime(w: World, duration: int) {
    forall id: string :: id in w.state.sessions ==> w.state.sessions[id].expiry <= w.now + duration
  }

  lemma BeatSessions(w: World, op: Op, duration: int)
    requires Inv(w.state) && Enabled(op) && op.Beat?
    ensures Step(w, op, duration).state.sessions
            == match Identity(w.state.sessions, op.requester, op.heartbeat.session)
               case None => w.state.sessions
               case Some(r) => SessionRenewed(w.state.sessions, r, op.heartbeat.session, w.now + duration)
  {
    var s, expiry := w.state, w.now + duration;
    IdentityIsKnown(s.sessions, op.requester, op.heartbeat.session);
    var identity := Identity(s.sessions, op.requester, op.heartbeat.session);
    if identity.Some? {
      SessionRenewalKeepsInv(s, identity.value, op.heartbeat.session, expiry);
      DemandsKeepInv(s.(sessions := SessionRenewed(s.sessions, identity.value, op.heartbeat.session, expiry)),
                     identity.value, op.heartbeat.demands, expiry, op.answers, |op.answers|);
    }
  }

  /** While a session is in the table its requester stays the same and its expiry never moves back. */
  lemma SessionsStayBound(w: World, op: Op, duration: int, id: string)
    requires Inv(w.state) && SessionsExpireInTime(w, duration) && Enabled(op)
    requires id in w.state.sessions && id in Step(w, op, duration).state.sessions
    ensures var before, after := w.state.sessions[id], Step(w, op, duration).state.sessions[id];
            before.requester == after.requester != "" && before.expiry <= after.expiry
  {
    if op.Beat? {
      BeatSessions(w, op, duration);
    }
  }

  lemma StepKeepsExpiries(w: World, op: Op, duration: int)
    requires Inv(w.state) && SessionsExpireInTime(w, duration) && Enabled(op)
    ensures SessionsExpireInTime(Step(w, op, duration), duration)
  {
    if op.Beat? {
      BeatSessions(w, op, duration);
    }
  }

  /** In every run, no session lasts longer than one lease duration, and the exception of
      renewSessionLease() is never thrown: an identity that resolves does not conflict. */
  lemma {:induction false} SessionRenewalNeverThrows(ops: seq<Op>, duration: int, requester: Requester,
                                                     session: Option<string>)
    requires Runs(ops)
    ensures var w := Exec(START, ops, duration);
            && SessionsExpireInTime(w, duration)
            && (Identity(w.state.sessions, requester, session).Some? ==>
                  !RenewalConflicts(w.state.sessions, Identity(w.state.sessions, requester, session).value, session))
    decreases |ops|
  {
    RunKeepsInv(START, ops, duration);
    IdentityIsKnown(Exec(START, ops, duration).state.sessions, requester, session);
    if ops != [] {
      SessionRenewalNeverThrows(ops[..|ops| - 1], duration, requester, session);
      RunKeepsInv(START, ops[..|ops| - 1], duration);
      StepKeepsExpiries(Exec(START, ops[..|ops| - 1], duration), ops[|ops| - 1], duration);
    }
  }

  /** The documented rule for a heartbeat without identity asks for a session that has not expired. */
  predicate AnonymousAllowed(sessions: map<string, SessionLease>, session: Option<string>, now: int) {
    session.Some? && session.value in sessions && now < sessions[session.value].expiry
  }

  /** The code meets the documented rule exactly when the session it looks up is not one that has expired
      and still awaits the prune timer. */
  lemma AnonymousHeartbeats(sessions: map<string, SessionLease>, session: Option<string>, now: int)
    ensures (Identity(sessions, "", session).Some? <==> AnonymousAllowed(sessions, session, now))
            <==> !(session.Some? && session.value in sessions && sessions[session.value].expiry <= now)
  {
  }

  /** A session that expired and was not pruned yet still authenticates, and is even renewed. */
  lemma ExpiredSessionAuthenticates()
    ensures var hello := Beat("alice", Heartbeat(Some("tab"), [], []), []);
            var later := Beat("", Heartbeat(Some("tab"), [], []), []);
            var w := Exec(START, [hello, Tick(45000)], 45000);
            && !AnonymousAllowed(w.state.sessions, Some("tab"), w.now)
            && Step(w, later, 45000).state.sessions == map["tab" := SessionLease("alice", 90000)]
  {
    var hello := Beat("alice", Heartbeat(Some("tab"), [], []), []);
    var one, two := [hello], [hello, Tick(45000)];
    assert one[..0] == [] && two[..1] == one;
    assert Exec(START, one[..0], 45000) == START;
    var w1 := Exec(START, one, 45000);
    assert w1.state.sessions == map["tab" := SessionLease("alice", 45000)];
    assert Exec(START, two, 45000) == w1.(now := 45000);
  }

  // ---------------------------------------------------------------------------------------------
  // The status report
  // ---------------------------------------------------------------------------------------------

  /** The statuses of the first n demands, each as of the moment it was handled. */
  ghost function Statuses(s: State, r: Requester, demands: seq<Demand>, expiry: int, answers: seq<Answer>, n: nat)
    : (report: seq<Status>)
    requires n <= |demands| == |answers|
    ensures |report| == n
  {
    if n == 0 then []
    else
      var before := DemandsApplied(s, r, demands, expiry, answers, n - 1);
      Statuses(s, r, demands, expiry, answers, n - 1)
      + [DemandStatus(before, r, demands[n - 1], expiry, answers[n - 1])]
  }

  /** Each unsupported entry is answered with its own kind and name. */
  function Refusals(unsupported: seq<Unsupported>): (report: seq<Status>)
    ensures |report| == |unsupported|
    ensures forall i :: 0 <= i < |report| ==>
              && report[i].UnsupportedKind?
              && report[i].rawKind == unsupported[i].kind && report[i].rawName == unsupported[i].name
  {
    seq(|unsupported|, i requires 0 <= i < |unsupported| => UnsupportedKind(unsupported[i].kind, unsupported[i].name))
  }

  ghost function Report(s: State, requester: Requester, hb: Heartbeat, expiry: int, answers: seq<Answer>): seq<Status>
    requires |answers| == |hb.demands|
  {
    match Identity(s.sessions, requester, hb.session)
    case None => []
    case Some(r) =>
      var t := s.(sessions := SessionRenewed(s.sessions, r, hb.session, expiry));
      Statuses(t, r, hb.demands, expiry, answers, |hb.demands|) + Refusals(hb.unsupported)
  }

  lemma {:induction false} StatusOfEach(s: State, r: Requester, demands: seq<Demand>, expiry: int,
                                        answers: seq<Answer>, n: nat, i: nat)
    requires i < n <= |demands| == |answers|
    ensures Statuses(s, r, demands, expiry, answers, n)[i]
            == DemandStatus(DemandsApplied(s, r, demands, expiry, answers, i), r, demands[i], expiry, answers[i])
  {
    hide DemandStatus, DemandApplied;
    if i < n - 1 {
      StatusOfEach(s, r, demands, expiry, answers, n - 1, i);
    }
  }

  /** The report has one status per demand in their order, each as of the state that the demands before it
      left, and then one per unsupported entry. */
  lemma ReportIsInOrder(s: State, requester: Requester, r: Requester, hb: Heartbeat, expiry: int,
                        answers: seq<Answer>, i: nat)
    requires |answers| == |hb.demands| && i < |hb.demands| + |hb.unsupported|
    requires Identity(s.sessions, requester, hb.session) == Some(r)
    ensures var report, n := Report(s, requester, hb, expiry, answers), |hb.demands|;
            var t := s.(sessions := SessionRenewed(s.sessions, r, hb.session, expiry));
            && |report| == n + |hb.unsupported|
            && report[i] == if i < n then
                              var before := DemandsApplied(t, r, hb.demands, expiry, answers, i);
                              DemandStatus(before, r, hb.demands[i], expiry, answers[i])
                            else
                              UnsupportedKind(hb.unsupported[i - n].kind, hb.unsupported[i - n].name)
  {
    var t := s.(sessions := SessionRenewed(s.sessions, r, hb.session, expiry));
    if i < |hb.demands| {
      StatusOfEach(t, r, hb.demands, expiry, answers, |hb.demands|, i);
    }
  }

  /** What each status tells the client: which demands are refused and why, and for an active one that the
      requester now holds the lease, and at which interval the target is delivered. */
  lemma StatusTellsTheOutcome(s: State, r: Requester, d: Demand, expiry: int, a: Answer)
    requires Inv(s)
    ensures var status := DemandStatus(s, r, d, expiry, a);
            && (status == Forbidden(d.kind, d.name) <==> d.kind.Topic? && !a.allowed)
            && (status == NotFound(d.kind, d.name) <==>
                  && (d.kind.Topic? ==> a.allowed)
                  && (|| s.shutdown || a.name.None?
                      || (MakeKey(d.kind, a.name.value) !in s.subs && a.creation.CannotCreate?)))
            && (status.Active? || status in {Forbidden(d.kind, d.name), NotFound(d.kind, d.name)})
    ensures var status := DemandStatus(s, r, d, expiry, a);
            status.Active? ==>
              && a.name == Some(status.name) && status.kind == d.kind
              && var subs := DemandApplied(s, r, d, expiry, a).subs;
              var key := MakeKey(status.kind, status.name);
              && key in subs && r in subs[key].leases
              && subs[key].leases[r]
                 == Lease(if d.preferred.Some? && d.preferred.value > 0 then d.preferred.value else 0, expiry)
              && (subs[key].runtime.Data? ==>
                    IsMinimum(status.interval, subs[key].leases) && status.published == IsLive(subs[key]))
              && (!subs[key].runtime.Data? ==> status.interval == 0 && status.published)
  {
    DemandKeepsInv(s, r, d, expiry, a);
    if Admitted(s.shutdown, d, a) {
      var key := MakeKey(d.kind, a.name.value);
      if key in s.subs {
        DemandFindsItsOwnTarget(s, d.kind, a.name.value);
      }
      var t := DemandApplied(s, r, d, expiry, a);
      assert key in t.subs ==> SubValid(key, t.subs[key]);
    }
  }

  /** A demand that is not answered as active leaves everything as it was: the leases, the sessions and the
      data tracks. In particular one for a topic that the access policy denies. */
  lemma RefusedDemandChangesNothing(s: State, r: Requester, d: Demand, expiry: int, a: Answer)
    ensures !DemandStatus(s, r, d, expiry, a).Active? ==> DemandApplied(s, r, d, expiry, a) == s
    ensures d.kind.Topic? && !a.allowed ==> DemandApplied(s, r, d, expiry, a) == s
    ensures s.shutdown || a.name.None? ==> DemandApplied(s, r, d, expiry, a) == s
  {
  }

  /** What a demand that is answered as active does to the table: its requester's lease is entered, the
      other leases of the target and the other targets stay. A target that was there keeps its delivery,
      and a new one is delivered as its resolution says. */
  lemma ActiveDemandEntersItsLease(s: State, r: Requester, d: Demand, expiry: int, a: Answer)
    requires DemandStatus(s, r, d, expiry, a).Active?
    ensures a.name.Some?
    ensures var t, key := DemandApplied(s, r, d, expiry, a), MakeKey(d.kind, a.name.value);
            && t == s.(subs := t.subs, traces := t.traces)
            && t.subs.Keys == s.subs.Keys + {key}
            && (forall k: TargetKey :: k in s.subs && k != key ==> t.subs[k] == s.subs[k])
            && (forall k: TargetKey :: k != key ==> Trace(t.traces, k) == Trace(s.traces, k))
            && (if key in s.subs then
                  && t.subs[key] == s.subs[key].(leases := t.subs[key].leases, runtime := t.subs[key].runtime)
                  && (t.subs[key].runtime.Data? <==> s.subs[key].runtime.Data?)
                  && (!s.subs[key].runtime.Data? ==> t.subs[key].runtime == s.subs[key].runtime)
                  && t.subs[key].leases.Keys == s.subs[key].leases.Keys + {r}
                  && (forall q :: q in s.subs[key].leases && q != r ==> t.subs[key].leases[q] == s.subs[key].leases[q])
                else
                  && t.subs[key].kind == d.kind && t.subs[key].name == a.name.value
                  && t.subs[key].leases.Keys == {r}
                  && (t.subs[key].runtime.Data? <==> a.creation.DataTrack?)
                  && (t.subs[key].runtime.Video? <==> a.creation.VideoTrack?)
                  && (t.subs[key].runtime.Audio? <==> a.creation.AudioTrack?))
  {
  }

  /** What it does to the data track of its target: one that is not live is published, again if an earlier
      attempt failed; one that is live is left alone. */
  lemma ActiveDemandPublishes(s: State, r: Requester, d: Demand, expiry: int, a: Answer)
    requires DemandStatus(s, r, d, expiry, a).Active?
    ensures var t, key := DemandApplied(s, r, d, expiry, a), MakeKey(d.kind, a.name.value);
            && key in t.subs
            && (t.subs[key].runtime.Data? ==>
                  && (IsLive(t.subs[key]) <==> Live(s.subs, key) || a.publish == Works)
                  && Trace(t.traces, key) == Trace(s.traces, key)
                     + (if Live(s.subs, key) || a.publish == TrackRefused then []
                        else if a.publish == Works then [PublishTrack]
                        else [PublishTrack, UnpublishTrack]))
            && (!t.subs[key].runtime.Data? ==> Trace(t.traces, key) == Trace(s.traces, key))
  {
    var t, key := DemandApplied(s, r, d, expiry, a), MakeKey(d.kind, a.name.value);
    assert Trace(s.traces, key) + [] == Trace(s.traces, key);
  }

  // ---------------------------------------------------------------------------------------------
  // The end of a target
  // ---------------------------------------------------------------------------------------------

  ghost predicate HasLiveLease(leases: map<Requester, Lease>, now: int) {
    exists r: Requester :: r in leases && now < leases[r].expiry
  }

  lemma SurvivorsHaveLiveLeases(sub: Subscription, now: int)
    ensures Survives(sub, now) <==> HasLiveLease(sub.leases, now)
  {
    var live := LiveLeases(sub.leases, now);
    if live != map[] {
      var r: Requester :| r in live;
    }
    if HasLiveLease(sub.leases, now) {
      var r: Requester :| r in sub.leases && now < sub.leases[r].expiry;
      assert r in live;
    }
  }

  /** A prune keeps the targets with a lease that has not expired, delivered as they were. One that goes
      unpublishes its data track if that is live; no other data track sees an event. */
  lemma PruneEndsTargets(s: State, now: int, key: TargetKey)
    requires !s.shutdown
    ensures var t := Pruned(s, now);
            && (key in t.subs <==> key in s.subs && HasLiveLease(s.subs[key].leases, now))
            && (key in t.subs ==>
                  && t.subs[key].kind == s.subs[key].kind && t.subs[key].name == s.subs[key].name
                  && IsLive(t.subs[key]) == IsLive(s.subs[key])
                  && (t.subs[key].runtime.Data? <==> s.subs[key].runtime.Data?)
                  && (!s.subs[key].runtime.Data? ==> t.subs[key].runtime == s.subs[key].runtime))
            && Trace(t.traces, key)
               == Trace(s.traces, key) + (if Live(s.subs, key) && key !in t.subs then [UnpublishTrack] else [])
            && !t.shutdown
  {
    assert Trace(s.traces, key) + [] == Trace(s.traces, key);
    if key in s.subs {
      SurvivorsHaveLiveLeases(s.subs[key], now);
    }
  }

  /** The first shutdown() empties both tables and unpublishes every live data track once; a later one, and
      a prune after it, does nothing. */
  lemma ShutdownEndsTargets(s: State, now: int, key: TargetKey)
    ensures s.shutdown ==> ShutDown(s) == s && Pruned(s, now) == s
    ensures !s.shutdown ==>
              var t := ShutDown(s);
              && t == State(map[], map[], true, t.traces)
              && Trace(t.traces, key)
                 == Trace(s.traces, key) + (if Live(s.subs, key) then [UnpublishTrack] else [])
  {
    assert Trace(s.traces, key) + [] == Trace(s.traces, key);
  }

  // ---------------------------------------------------------------------------------------------
  // The loop of pruneLeases()
  // ---------------------------------------------------------------------------------------------

  lemma SetOfMore(keys: seq<TargetKey>, k: TargetKey)
    ensures SetOf(keys + [k]) == SetOf(keys) + {k}
  {
  }

  lemma PruneOneMore(s: State, keys: seq<TargetKey>, k: TargetKey, now: int)
    ensures PrunedInOrder(s, keys + [k], now) == PrunedAt(PrunedInOrder(s, keys, now), k, now)
  {
    assert (keys + [k])[..|keys|] == keys;
  }

  lemma NothingClosed(traces: map<TargetKey, seq<Event>>, subs: map<TargetKey, Subscription>)
    ensures traces + Closings(traces, subs, {}) == traces
  {
  }

  lemma PruneOneMoreSub(s: State, keys: set<TargetKey>, k: TargetKey, now: int)
    requires k in s.subs && k !in keys
    ensures PrunedAmong(s, keys + {k}, now).subs == PrunedAt(PrunedAmong(s, keys, now), k, now).subs
  {
  }

  lemma CloseOneMore(traces: map<TargetKey, seq<Event>>, subs: map<TargetKey, Subscription>, keys: set<TargetKey>,
                     k: TargetKey)
    requires k in subs && k !in keys
    ensures traces + Closings(traces, subs, keys + {k})
            == Traced(traces + Closings(traces, subs, keys), k, EndEvents(subs[k]))
  {
  }

  lemma PruneOneMoreTrace(s: State, keys: set<TargetKey>, k: TargetKey, now: int)
    requires k in s.subs && k !in keys
    ensures PrunedAmong(s, keys + {k}, now).traces == PrunedAt(PrunedAmong(s, keys, now), k, now).traces
  {
    var one := PrunedAmong(s, keys, now);
    assert k in one.subs && one.subs[k] == s.subs[k];
    if Survives(s.subs[k], now) {
      assert Ending(s.subs, keys + {k}, now) == Ending(s.subs, keys, now);
    } else {
      assert Ending(s.subs, keys + {k}, now) == Ending(s.subs, keys, now) + {k};
      CloseOneMore(s.traces, s.subs, Ending(s.subs, keys, now), k);
    }
  }

  /** The order in which the table is walked makes no difference. */
  lemma {:induction false} OrderIsIrrelevant(s: State, keys: seq<TargetKey>, now: int)
    requires SetOf(keys) <= s.subs.Keys
    requires forall i, j :: 0 <= i < j < |keys| ==> keys[i] != keys[j]
    ensures PrunedInOrder(s, keys, now) == PrunedAmong(s, SetOf(keys), now)
    decreases |keys|
  {
    if keys == [] {
      var all := PrunedAmong(s, SetOf(keys), now);
      assert all.subs == s.subs && all.traces == s.traces;
    } else {
      var n := |keys| - 1;
      assert keys == keys[..n] + [keys[n]];
      SetOfMore(keys[..n], keys[n]);
      OrderIsIrrelevant(s, keys[..n], now);
      PruneOneMoreSub(s, SetOf(keys[..n]), keys[n], now);
      PruneOneMoreTrace(s, SetOf(keys[..n]), keys[n], now);
    }
  }
}
