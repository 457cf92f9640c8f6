/** RosServiceCaller under concurrency: call(), cancelForRequester(), executeWaitable() and shutdown() on
    any threads, against a service that answers late, twice or not at all.

    What each section does to the book is ServiceCaller's. The gate can close and the waitable can be
    detached while another thread is inside state_mutex, so call() is three steps there: admission,
    entry into the table, and the sync. shutdown() is made outside execute(); ServiceWaitableUse has what
    happens to one made inside it. */
module ServiceProtocol {
  import opened Wrappers
  import opened ServiceCaller

  type Tid = nat

  // ---------------------------------------------------------------------------------------------
  // Settling: what cancel, timeout, response and shutdown have in common
  // ---------------------------------------------------------------------------------------------

  /** No inflight call is settled, and no two of them are the same call. */
  ghost predicate BookOk(b: Book) {
    && (forall k: Key :: k in b.inflight ==> b.inflight[k].id !in b.outcomes)
    && (forall k: Key, j: Key :: k in b.inflight && j in b.inflight && b.inflight[k].id == b.inflight[j].id ==> k == j)
  }

  predicate AnsweredBy(o: Outcome, k: Key, responses: set<Response>) {
    o.Value? ==> exists r :: r in responses && r.key == k && r.payload == o.payload
  }

  /** From b to c some calls left the table and exactly those were settled, with a value only if one of
      the responses carried that value under the call's own key. */
  ghost predicate Settles(b: Book, c: Book, responses: set<Response>) {
    && (forall k: Key :: k in c.inflight ==> k in b.inflight && c.inflight[k] == b.inflight[k])
    && (forall id: CallId :: id in b.outcomes ==> id in c.outcomes && c.outcomes[id] == b.outcomes[id])
    && (forall k: Key :: k in b.inflight && k !in c.inflight ==> b.inflight[k].id in c.outcomes)
    && (forall id: CallId :: id in c.outcomes && id !in b.outcomes ==>
          exists k: Key :: k in b.inflight && k !in c.inflight && b.inflight[k].id == id
                           && AnsweredBy(c.outcomes[id], k, responses))
  }

  lemma FailureSettles(b: Book, m: Match, error: Error)
    requires BookOk(b)
    ensures Settles(b, FailedWhere(b, m, error), {}) && BookOk(FailedWhere(b, m, error))
  {
    var c := FailedWhere(b, m, error);
    var fail := Failures(b.inflight, b.inflight.Keys, m, error);
    forall id: CallId | id in c.outcomes && id !in b.outcomes
      ensures exists k: Key :: k in b.inflight && k !in c.inflight && b.inflight[k].id == id
                               && AnsweredBy(c.outcomes[id], k, {})
    {
      assert id in fail;
      var k :| k in b.inflight && Matches(m, b.inflight[k]) && b.inflight[k].id == id;
      assert k !in c.inflight;
    }
    forall k: Key | k in b.inflight && k !in c.inflight ensures b.inflight[k].id in c.outcomes {
      assert Matches(m, b.inflight[k]) && k in b.inflight.Keys;
      assert b.inflight[k].id in fail;
    }
  }

  lemma SettlesTwice(b: Book, c: Book, d: Book, r: set<Response>, q: set<Response>)
    requires Settles(b, c, r) && Settles(c, d, q)
    ensures Settles(b, d, r + q)
  {
    forall id: CallId | id in d.outcomes && id !in b.outcomes
      ensures exists k: Key :: k in b.inflight && k !in d.inflight && b.inflight[k].id == id
                               && AnsweredBy(d.outcomes[id], k, r + q)
    {
      if id in c.outcomes {
        var k: Key :| k in b.inflight && k !in c.inflight && b.inflight[k].id == id && AnsweredBy(c.outcomes[id], k, r);
        assert k !in d.inflight && AnsweredBy(d.outcomes[id], k, r + q);
      } else {
        var k: Key :| k in c.inflight && k !in d.inflight && c.inflight[k].id == id && AnsweredBy(d.outcomes[id], k, q);
        assert k in b.inflight && AnsweredBy(d.outcomes[id], k, r + q);
      }
    }
  }

  lemma DeliverySettles(b: Book, r: Response)
    requires BookOk(b)
    ensures Settles(b, Delivered(b, r), {r}) && BookOk(Delivered(b, r))
  {
  }

  function Among(responses: seq<Response>): set<Response> {
    set r | r in responses
  }

  lemma {:induction false} DeliveriesSettle(b: Book, responses: seq<Response>)
    requires BookOk(b)
    ensures Settles(b, DeliveredAll(b, responses), Among(responses)) && BookOk(DeliveredAll(b, responses))
    decreases |responses|
  {
    if responses != [] {
      var n := |responses| - 1;
      DeliveriesSettle(b, responses[..n]);
      var c := DeliveredAll(b, responses[..n]);
      DeliverySettles(c, responses[n]);
      SettlesTwice(b, c, Delivered(c, responses[n]), Among(responses[..n]), {responses[n]});
      assert Among(responses) == Among(responses[..n]) + {responses[n]};
    }
  }

  lemma FewerCalls(m: map<Key, Call>, n: map<Key, Call>, r: Requester)
    requires forall k: Key :: k in n ==> k in m && n[k] == m[k]
    ensures CountOf(n, r) <= CountOf(m, r)
  {
    Subset(KeysOf(n, r), KeysOf(m, r));
  }

  lemma {:induction false} Subset(a: set<Key>, b: set<Key>)
    requires a <= b
    ensures |a| <= |b|
    decreases |a|
  {
    if a != {} {
      var x :| x in a;
      Subset(a - {x}, b - {x});
    }
  }

  // ---------------------------------------------------------------------------------------------
  // The earliest deadline
  // ---------------------------------------------------------------------------------------------

  lemma {:induction false} EarliestExists(m: map<Key, Call>)
    ensures exists d: Option<int> :: IsEarliest(d, m)
    decreases |m|
  {
    if m == map[] {
      assert IsEarliest(None, m);
    } else {
      var k :| k in m;
      var n := m - {k};
      EarliestExists(n);
      var d :| IsEarliest(d, n);
      var least := if d.None? || m[k].deadline < d.value then m[k].deadline else d.value;
      if d.None? {
        assert n.Keys == {};
        assert forall j: Key :: j in m ==> j == k || j in n;
      } else {
        var j: Key :| j in n && n[j].deadline == d.value;
        assert j in m && m[j].deadline == d.value;
        assert forall i: Key :: i in m ==> i == k || (i in n && n[i] == m[i]);
      }
      assert IsEarliest(Some(least), m);
    }
  }

  ghost function Earliest(m: map<Key, Call>): (d: Option<int>)
    ensures IsEarliest(d, m)
  {
    EarliestExists(m);
    var d :| IsEarliest(d, m);
    d
  }

  // ---------------------------------------------------------------------------------------------
  // Threads and steps
  // ---------------------------------------------------------------------------------------------

  /** Named, Resolved and Admitted are inside call() with a promise in hand; Admitted and Inserted hold
      state_mutex. Executing, InGate, Leaving and Executed are inside execute(), which uses the waitable
      throughout; InGate and Leaving are inside the gate. The rest are the stages of shutdown(): Stopping
      spins until nobody uses the waitable. */
  datatype Pc =
    | Free
    | Named(id: CallId, requester: Requester)
    | Resolved(id: CallId, requester: Requester)
    | Admitted(id: CallId, requester: Requester)
    | Inserted
    | Executing
    | InGate
    | Leaving
    | Executed
    | Closing
    | Detaching
    | Detached
    | Stopping
    | Finishing

  /** next: the number of calls so far. sent: the call whose request went out under a key. arrived: what
      the service has answered. finished: some shutdown() has completed its last section. */
  datatype Log = Log(next: CallId, sent: map<Key, CallId>, arrived: set<Response>, finished: bool)

  /** users: the threads inside execute(); stopped: no further one can begin. */
  datatype Waitable = Waitable(
    closed: bool, active: Option<Tid>, attached: bool, timer: Option<int>, users: set<Tid>, stopped: bool)

  datatype Vars = Vars(
    book: Book, mutex: Option<Tid>, waitable: Waitable, now: int, threads: map<Tid, Pc>, log: Log)

  function At(v: Vars, t: Tid): Pc {
    if t in v.threads then v.threads[t] else Free
  }

  function Moved(v: Vars, t: Tid, pc: Pc): Vars {
    v.(threads := v.threads[t := pc])
  }

  datatype Step =
    | Begin(t: Tid, requester: Requester)
    | Resolve(t: Tid, ok: bool)
    | Admit(t: Tid)
    | Insert(t: Tid, service: string, interfaceType: string, timeout: Option<int>, start: Start)
    | Sync(t: Tid)
    | Cancel(requester: Requester)
    | BeginUse(t: Tid)
    | EnterGate(t: Tid)
    | Work(t: Tid, responses: seq<Response>)
    | LeaveGate(t: Tid)
    | EndUse(t: Tid)
    | Close(t: Tid)
    | GateDrained(t: Tid)
    | Detach(t: Tid)
    | StopUse(t: Tid)
    | StopReturns(t: Tid)
    | Finish(t: Tid)
    | Tick(now: int)
    | Arrive(response: Response)

  predicate IsCall(s: Step) {
    s.Begin? || s.Resolve? || s.Admit? || s.Insert? || s.Sync?
  }

  /** The steps that settle many calls at once. */
  predicate IsSettling(s: Step) {
    s.Cancel? || s.Work? || s.Finish?
  }

  /** The middleware gives each request of a client a sequence number of its own. */
  predicate FreshKey(v: Vars, start: Start) {
    start.Sent? ==> start.key !in v.log.sent
  }

  /** The gate is open and exclusive. */
  predicate MayEnter(q: Waitable) {
    !q.closed && q.active.None?
  }

  predicate Enabled(v: Vars, s: Step) {
    match s
    case Begin(t, _) => At(v, t).Free?
    case Resolve(t, _) => At(v, t).Named?
    case Admit(t) => At(v, t).Resolved? && v.mutex.None?
    case Insert(t, _, _, _, start) => At(v, t).Admitted? && FreshKey(v, start)
    case Sync(t) => At(v, t).Inserted?
    case Cancel(_) => v.mutex.None?
    case BeginUse(t) => At(v, t).Free? && !v.waitable.stopped
    case EnterGate(t) => At(v, t).Executing? && MayEnter(v.waitable)
    case Work(t, responses) => At(v, t).InGate? && v.mutex.None? && forall r :: r in responses ==> r in v.log.arrived
    case LeaveGate(t) => At(v, t).Leaving?
    case EndUse(t) => At(v, t).Executed? || (At(v, t).Executing? && !MayEnter(v.waitable))
    case Close(t) => At(v, t).Free?
    case GateDrained(t) => At(v, t).Closing? && v.waitable.active.None?
    case Detach(t) => At(v, t).Detaching?
    case StopUse(t) => At(v, t).Detached?
    case StopReturns(t) => At(v, t).Stopping? && v.waitable.users == {}
    case Finish(t) => At(v, t).Finishing? && v.mutex.None?
    case Tick(now) => v.now <= now
    case Arrive(_) => true
  }

  ghost function Synced(v: Vars): Vars {
    if v.waitable.attached then v.(waitable := v.waitable.(timer := Earliest(v.book.inflight))) else v
  }

  ghost function ApplyCall(v: Vars, s: Step): Vars
    requires IsCall(s) && Enabled(v, s)
  {
    match s
    case Begin(t, requester) =>
      var w := v.(log := v.log.(next := v.log.next + 1));
      if v.waitable.closed then w.(book := Refused(v.book, v.log.next, ShutDown))
      else if requester == "" then w.(book := Refused(v.book, v.log.next, MissingRequester))
      else Moved(w, t, Named(v.log.next, requester))
    case Resolve(t, ok) =>
      var pc := At(v, t);
      if ok then Moved(v, t, Resolved(pc.id, pc.requester))
      else Moved(v.(book := Refused(v.book, pc.id, TypeUnresolved)), t, Free)
    case Admit(t) =>
      var pc := At(v, t);
      if v.waitable.closed then Moved(v.(book := Refused(v.book, pc.id, ShutDown)), t, Free)
      else if CountOf(v.book.inflight, pc.requester) >= MAX_INFLIGHT_PER_REQUESTER
        then Moved(v.(book := Refused(v.book, pc.id, LimitReached)), t, Free)
      else Moved(v.(mutex := Some(t)), t, Admitted(pc.id, pc.requester))
    case Insert(t, service, interfaceType, timeout, start) =>
      var pc := At(v, t);
      var call := Call(pc.id, service, interfaceType, pc.requester, v.now + Timeout(timeout));
      var w := v.(book := Entered(v.book, call, start));
      if start.DidNotStart? then Moved(w.(mutex := None), t, Free)
      else
        var u := w.(log := v.log.(sent := v.log.sent[start.key := pc.id]));
        if start.key in v.book.inflight then Moved(u.(mutex := None), t, Free) else Moved(u, t, Inserted)
    case Sync(t) =>
      Moved(Synced(v).(mutex := None), t, Free)
  }

  /** cancelForRequester(), executeWaitable()'s section, and the last section of shutdown(). */
  ghost function ApplySettling(v: Vars, s: Step): Vars
    requires IsSettling(s) && Enabled(v, s)
  {
    match s
    case Cancel(requester) =>
      if requester == "" then v
      else Synced(v.(book := FailedWhere(v.book, ByRequester(requester), Disconnected)))
    case Work(t, responses) =>
      if v.waitable.closed then Moved(v, t, Leaving)
      else
        var b := FailedWhere(DeliveredAll(v.book, responses), Expired(v.now), TimedOut);
        Moved(Synced(v.(book := b)), t, Leaving)
    case Finish(t) =>
      Moved(v.(book := FailedWhere(v.book, Everyone, ShutDown), log := v.log.(finished := true)), t, Free)
  }

  /** Only the call that detaches the waitable stops it. */
  ghost function ApplyOther(v: Vars, s: Step): Vars
    requires !IsCall(s) && !IsSettling(s) && Enabled(v, s)
  {
    var q := v.waitable;
    match s
    case BeginUse(t) => Moved(v.(waitable := q.(users := q.users + {t})), t, Executing)
    case EnterGate(t) => Moved(v.(waitable := q.(active := Some(t))), t, InGate)
    case LeaveGate(t) => Moved(v.(waitable := q.(active := None)), t, Executed)
    case EndUse(t) => Moved(v.(waitable := q.(users := q.users - {t})), t, Free)
    case Close(t) => Moved(v.(waitable := q.(closed := true)), t, Closing)
    case GateDrained(t) => Moved(v, t, Detaching)
    case Detach(t) => Moved(v.(waitable := q.(attached := false)), t, if q.attached then Detached else Finishing)
    case StopUse(t) => Moved(v.(waitable := q.(stopped := true)), t, Stopping)
    case StopReturns(t) => Moved(v, t, Finishing)
    case Tick(now) => v.(now := now)
    case Arrive(response) => v.(log := v.log.(arrived := v.log.arrived + {response}))
  }

  ghost function Apply(v: Vars, s: Step): Vars
    requires Enabled(v, s)
  {
    if IsCall(s) then ApplyCall(v, s) else if IsSettling(s) then ApplySettling(v, s) else ApplyOther(v, s)
  }

  ghost const INIT := Vars(Book(map[], map[]), None, Waitable(false, None, true, None, {}, false), 0, map[],
                           Log(0, map[], {}, false))

  ghost predicate Runs(v: Vars, steps: seq<Step>)
    decreases |steps|
  {
    steps == [] || (Enabled(v, steps[0]) && Runs(Apply(v, steps[0]), steps[1..]))
  }

  ghost function Exec(v: Vars, steps: seq<Step>): Vars
    requires Runs(v, steps)
    decreases |steps|
  {
    if steps == [] then v else Exec(Apply(v, steps[0]), steps[1..])
  }

  // ---------------------------------------------------------------------------------------------
  // The invariant
  // ---------------------------------------------------------------------------------------------

  predicate HoldsId(pc: Pc, id: CallId) {
    (pc.Named? || pc.Resolved? || pc.Admitted?) && pc.id == id
  }

  ghost predicate IsInflight(b: Book, id: CallId) {
    exists k: Key :: k in b.inflight && b.inflight[k].id == id
  }

  ghost predicate IsHeld(v: Vars, id: CallId) {
    exists t: Tid :: HoldsId(At(v, t), id)
  }

  /** Every call so far is settled, in the table, or held by the thread that makes it. */
  ghost predicate PlacesInv(v: Vars) {
    forall id: CallId :: id < v.log.next ==> id in v.book.outcomes || IsInflight(v.book, id) || IsHeld(v, id)
  }

  /** And in one of these places only. */
  ghost predicate IdsInv(v: Vars) {
    && BookOk(v.book)
    && (forall id: CallId :: id in v.book.outcomes || IsInflight(v.book, id) ==> id < v.log.next)
    && (forall t: Tid, id: CallId {:trigger HoldsId(At(v, t), id)} :: HoldsId(At(v, t), id) ==>
          id < v.log.next && id !in v.book.outcomes && !IsInflight(v.book, id))
    && (forall t: Tid, u: Tid, id: CallId :: HoldsId(At(v, t), id) && HoldsId(At(v, u), id) ==> t == u)
  }

  ghost predicate MutexInv(v: Vars) {
    && (forall t: Tid :: At(v, t).Admitted? || At(v, t).Inserted? <==> v.mutex == Some(t))
    && (forall t: Tid :: At(v, t).InGate? || At(v, t).Leaving? <==> v.waitable.active == Some(t))
    && (forall t: Tid :: Uses(At(v, t)) <==> t in v.waitable.users)
  }

  predicate Uses(pc: Pc) {
    pc.Executing? || pc.InGate? || pc.Leaving? || pc.Executed?
  }

  /** The slot that the thread inside state_mutex has reserved for r and not yet committed. */
  function Reserved(v: Vars, r: Requester): nat {
    if v.mutex.Some? && At(v, v.mutex.value).Admitted? && At(v, v.mutex.value).requester == r then 1 else 0
  }

  ghost predicate QuotaInv(v: Vars) {
    forall r: Requester :: CountOf(v.book.inflight, r) + Reserved(v, r) <= MAX_INFLIGHT_PER_REQUESTER
  }

  /** The value of call `id` arrived under the key that its own request was sent with. */
  ghost predicate OwnAnswer(l: Log, id: CallId, payload: Payload) {
    exists r: Response :: r in l.arrived && r.key in l.sent && l.sent[r.key] == id && r.payload == payload
  }

  ghost predicate AnswersInv(b: Book, l: Log) {
    && (forall k: Key :: k in b.inflight ==> k in l.sent && l.sent[k] == b.inflight[k].id)
    && (forall id: CallId :: id in b.outcomes && b.outcomes[id].Value? ==> OwnAnswer(l, id, b.outcomes[id].payload))
  }

  /** The timer agrees with the table except between a call's entry and its sync. */
  ghost predicate TimerInv(v: Vars) {
    v.waitable.attached && !(v.mutex.Some? && At(v, v.mutex.value).Inserted?) ==>
      IsEarliest(v.waitable.timer, v.book.inflight)
  }

  /** A thread past the first stage of shutdown() has closed the gate; past the third, detached. */
  predicate StopsInOrder(v: Vars, t: Tid) {
    var pc := At(v, t);
    && (pc.Closing? || pc.Detaching? || pc.Detached? || pc.Stopping? || pc.Finishing? ==> v.waitable.closed)
    && (pc.Detached? || pc.Stopping? || pc.Finishing? ==> !v.waitable.attached)
    && (pc.Stopping? ==> v.waitable.stopped)
  }

  /** Once a shutdown() has finished the table is empty and nobody can be past admission. */
  ghost predicate ShutdownInv(v: Vars) {
    && (forall t: Tid :: StopsInOrder(v, t))
    && (!v.waitable.attached ==> v.waitable.closed)
    && (v.log.finished ==> v.waitable.closed && !v.waitable.attached && v.book.inflight == map[] && v.mutex.None?)
  }

  ghost predicate Inv(v: Vars) {
    && PlacesInv(v) && IdsInv(v) && MutexInv(v) && QuotaInv(v)
    && AnswersInv(v.book, v.log) && TimerInv(v) && ShutdownInv(v)
  }

  predicate Moves(s: Step, t: Tid) {
    !s.Cancel? && !s.Tick? && !s.Arrive? && s.t == t
  }

  lemma Frame(v: Vars, s: Step)
    requires Enabled(v, s)
    ensures forall u: Tid :: !Moves(s, u) ==> At(Apply(v, s), u) == At(v, u)
  {
  }

  // A call moves from place to place.

  lemma CallKeepsPlaces(v: Vars, s: Step)
    requires PlacesInv(v) && IdsInv(v) && IsCall(s) && Enabled(v, s)
    ensures PlacesInv(ApplyCall(v, s))
  {
    var w := ApplyCall(v, s);
    Frame(v, s);
    forall id: CallId | id < w.log.next
      ensures id in w.book.outcomes || IsInflight(w.book, id) || IsHeld(w, id)
    {
      if id == v.log.next {
        assert id in w.book.outcomes || HoldsId(At(w, s.t), id);
      } else if id in v.book.outcomes {
        assert id in w.book.outcomes;
      } else if IsInflight(v.book, id) {
        var k: Key :| k in v.book.inflight && v.book.inflight[k].id == id;
        assert k in w.book.inflight && w.book.inflight[k].id == id;
      } else {
        var t: Tid :| HoldsId(At(v, t), id);
        if HoldsId(At(w, t), id) {
        } else if s.Insert? && s.start.Sent? && id !in w.book.outcomes {
          assert w.book.inflight[s.start.key].id == id;
        }
      }
    }
  }

  lemma InflightIds(b: Book, c: Book)
    requires forall k: Key :: k in c.inflight ==> k in b.inflight && c.inflight[k] == b.inflight[k]
    ensures forall id: CallId :: IsInflight(c, id) ==> IsInflight(b, id)
  {
  }

  lemma RefusedBookOk(b: Book, id: CallId, error: Error)
    requires BookOk(b) && !IsInflight(b, id)
    ensures BookOk(Refused(b, id, error))
  {
  }

  lemma BeginKeepsIds(v: Vars, s: Step)
    requires IdsInv(v) && s.Begin? && Enabled(v, s)
    ensures IdsInv(ApplyCall(v, s))
  {
    var w := ApplyCall(v, s);
    Frame(v, s);
    InflightIds(v.book, w.book);
    RefusedBookOk(v.book, v.log.next, ShutDown);
    RefusedBookOk(v.book, v.log.next, MissingRequester);
    forall u: Tid, id: CallId | HoldsId(At(w, u), id)
      ensures HoldsId(At(v, u), id) || (Moves(s, u) && id == v.log.next)
    {
      assert Moves(s, u) || At(w, u) == At(v, u);
    }
  }

  /** Thread t's call x leaves its hands, for the table or for good; nothing else moves. */
  lemma CallLeavesHands(v: Vars, w: Vars, t: Tid, x: CallId)
    requires IdsInv(v) && BookOk(w.book) && w.log.next == v.log.next && HoldsId(At(v, t), x)
    requires !HoldsId(At(w, t), x) || (x !in w.book.outcomes && !IsInflight(w.book, x))
    requires forall u: Tid, i: CallId :: HoldsId(At(w, u), i) ==> HoldsId(At(v, u), i)
    requires forall i: CallId :: IsInflight(w.book, i) ==> IsInflight(v.book, i) || i == x
    requires forall i: CallId :: i in w.book.outcomes ==> i in v.book.outcomes || i == x
    ensures IdsInv(w)
  {
  }

  lemma AdmitKeepsIds(v: Vars, s: Step)
    requires IdsInv(v) && (s.Resolve? || s.Admit?) && Enabled(v, s)
    ensures IdsInv(ApplyCall(v, s))
  {
    var w := ApplyCall(v, s);
    Frame(v, s);
    var id := At(v, s.t).id;
    assert HoldsId(At(v, s.t), id);
    InflightIds(v.book, w.book);
    RefusedBookOk(v.book, id, TypeUnresolved);
    RefusedBookOk(v.book, id, ShutDown);
    RefusedBookOk(v.book, id, LimitReached);
    forall u: Tid, i: CallId | HoldsId(At(w, u), i) ensures HoldsId(At(v, u), i) {
      assert Moves(s, u) || At(w, u) == At(v, u);
    }
    CallLeavesHands(v, w, s.t, id);
  }

  lemma EnteredBook(b: Book, c: Call, start: Start)
    requires BookOk(b) && c.id !in b.outcomes && !IsInflight(b, c.id)
    ensures BookOk(Entered(b, c, start))
    ensures forall id: CallId :: IsInflight(Entered(b, c, start), id) ==> IsInflight(b, id) || id == c.id
    ensures forall id: CallId :: id in Entered(b, c, start).outcomes ==> id in b.outcomes || id == c.id
  {
  }

  lemma InsertKeepsIds(v: Vars, s: Step)
    requires IdsInv(v) && s.Insert? && Enabled(v, s)
    ensures IdsInv(ApplyCall(v, s))
  {
    var w := ApplyCall(v, s);
    var pc := At(v, s.t);
    Frame(v, s);
    assert HoldsId(pc, pc.id);
    EnteredBook(v.book, Call(pc.id, s.service, s.interfaceType, pc.requester, v.now + Timeout(s.timeout)), s.start);
    forall u: Tid, id: CallId | HoldsId(At(w, u), id) ensures HoldsId(At(v, u), id) {
      assert Moves(s, u) || At(w, u) == At(v, u);
    }
    CallLeavesHands(v, w, s.t, pc.id);
  }

  lemma SyncKeepsIds(v: Vars, s: Step)
    requires IdsInv(v) && s.Sync? && Enabled(v, s)
    ensures IdsInv(ApplyCall(v, s))
  {
    Frame(v, s);
    SameHolders(v, ApplyCall(v, s));
  }

  lemma CallKeepsIds(v: Vars, s: Step)
    requires IdsInv(v) && IsCall(s) && Enabled(v, s)
    ensures IdsInv(ApplyCall(v, s))
  {
    if s.Begin? {
      BeginKeepsIds(v, s);
    } else if s.Insert? {
      InsertKeepsIds(v, s);
    } else if s.Sync? {
      SyncKeepsIds(v, s);
    } else {
      AdmitKeepsIds(v, s);
    }
  }

  lemma CallKeepsMutex(v: Vars, s: Step)
    requires MutexInv(v) && IsCall(s) && Enabled(v, s)
    ensures MutexInv(ApplyCall(v, s))
  {
    Frame(v, s);
  }

  lemma CallKeepsQuota(v: Vars, s: Step)
    requires MutexInv(v) && QuotaInv(v) && IsCall(s) && Enabled(v, s)
    ensures QuotaInv(ApplyCall(v, s))
  {
    var w := ApplyCall(v, s);
    Frame(v, s);
    forall r: Requester ensures CountOf(w.book.inflight, r) + Reserved(w, r) <= MAX_INFLIGHT_PER_REQUESTER {
      assert CountOf(v.book.inflight, r) + Reserved(v, r) <= MAX_INFLIGHT_PER_REQUESTER;
      if s.Insert? && s.start.Sent? && s.start.key !in v.book.inflight {
        CountAfterInsert(v.book.inflight, s.start.key, w.book.inflight[s.start.key], r);
      }
    }
  }

  lemma CallKeepsAnswers(v: Vars, s: Step)
    requires AnswersInv(v.book, v.log) && IsCall(s) && Enabled(v, s)
    ensures AnswersInv(ApplyCall(v, s).book, ApplyCall(v, s).log)
  {
    var w := ApplyCall(v, s);
    forall id: CallId, p: Payload | OwnAnswer(v.log, id, p) ensures OwnAnswer(w.log, id, p) {
    }
  }

  lemma CallKeepsTimer(v: Vars, s: Step)
    requires MutexInv(v) && TimerInv(v) && IsCall(s) && Enabled(v, s)
    ensures TimerInv(ApplyCall(v, s))
  {
  }

  lemma CallKeepsShutdown(v: Vars, s: Step)
    requires MutexInv(v) && ShutdownInv(v) && IsCall(s) && Enabled(v, s)
    ensures ShutdownInv(ApplyCall(v, s))
  {
    Frame(v, s);
    forall t: Tid ensures StopsInOrder(ApplyCall(v, s), t) {
      assert StopsInOrder(v, t) && (Moves(s, t) ==> t == s.t);
    }
  }

  // Cancel, timeout, response and shutdown settle calls of the table.

  lemma MoreResponses(b: Book, c: Book, r: set<Response>, q: set<Response>)
    requires Settles(b, c, r) && r <= q
    ensures Settles(b, c, q)
  {
  }

  lemma SettlingSettles(v: Vars, s: Step)
    requires BookOk(v.book) && IsSettling(s) && Enabled(v, s)
    ensures Settles(v.book, ApplySettling(v, s).book, v.log.arrived) && BookOk(ApplySettling(v, s).book)
  {
    match s
    case Cancel(r) =>
      FailureSettles(v.book, ByRequester(r), Disconnected);
      MoreResponses(v.book, FailedWhere(v.book, ByRequester(r), Disconnected), {}, v.log.arrived);
    case Finish(_) =>
      FailureSettles(v.book, Everyone, ShutDown);
      MoreResponses(v.book, FailedWhere(v.book, Everyone, ShutDown), {}, v.log.arrived);
    case Work(_, responses) =>
      var c := DeliveredAll(v.book, responses);
      DeliveriesSettle(v.book, responses);
      FailureSettles(c, Expired(v.now), TimedOut);
      SettlesTwice(v.book, c, FailedWhere(c, Expired(v.now), TimedOut), Among(responses), {});
      MoreResponses(v.book, FailedWhere(c, Expired(v.now), TimedOut), Among(responses) + {}, v.log.arrived);
  }

  lemma SettlingMovesNobodyWithACall(v: Vars, s: Step)
    requires IsSettling(s) && Enabled(v, s)
    ensures forall u: Tid, id: CallId :: HoldsId(At(ApplySettling(v, s), u), id) <==> HoldsId(At(v, u), id)
    ensures ApplySettling(v, s).log.next == v.log.next
  {
  }

  lemma SettlingKeepsPlaces(v: Vars, s: Step)
    requires PlacesInv(v) && BookOk(v.book) && IsSettling(s) && Enabled(v, s)
    ensures PlacesInv(ApplySettling(v, s))
  {
    var w := ApplySettling(v, s);
    SettlingSettles(v, s);
    SettlingMovesNobodyWithACall(v, s);
    forall id: CallId | id < w.log.next
      ensures id in w.book.outcomes || IsInflight(w.book, id) || IsHeld(w, id)
    {
      if id in v.book.outcomes {
        assert id in w.book.outcomes;
      } else if IsInflight(v.book, id) {
        var k: Key :| k in v.book.inflight && v.book.inflight[k].id == id;
        if k in w.book.inflight {
          assert w.book.inflight[k].id == id;
        }
      } else {
        var t: Tid :| HoldsId(At(v, t), id);
        assert HoldsId(At(w, t), id);
      }
    }
  }

  lemma SettledIdsWereInflight(b: Book, c: Book, r: set<Response>)
    requires Settles(b, c, r)
    ensures forall id: CallId :: id in c.outcomes ==> id in b.outcomes || IsInflight(b, id)
  {
  }

  lemma SettlingKeepsIds(v: Vars, s: Step)
    requires IdsInv(v) && IsSettling(s) && Enabled(v, s)
    ensures IdsInv(ApplySettling(v, s))
  {
    SettlingSettles(v, s);
    SettlingMovesNobodyWithACall(v, s);
    var w := ApplySettling(v, s);
    InflightIds(v.book, w.book);
    SettledIdsWereInflight(v.book, w.book, v.log.arrived);
    SameHolders(v, w);
  }

  lemma SameHolders(v: Vars, w: Vars)
    requires IdsInv(v) && BookOk(w.book) && w.log.next == v.log.next
    requires forall u: Tid, id: CallId :: HoldsId(At(w, u), id) <==> HoldsId(At(v, u), id)
    requires forall id: CallId :: IsInflight(w.book, id) ==> IsInflight(v.book, id)
    requires forall id: CallId :: id in w.book.outcomes ==> id in v.book.outcomes || IsInflight(v.book, id)
    ensures IdsInv(w)
  {
  }

  lemma SettlingKeepsMutex(v: Vars, s: Step)
    requires MutexInv(v) && IsSettling(s) && Enabled(v, s)
    ensures MutexInv(ApplySettling(v, s))
  {
  }

  lemma SettlingKeepsQuota(v: Vars, s: Step)
    requires BookOk(v.book) && QuotaInv(v) && IsSettling(s) && Enabled(v, s)
    ensures QuotaInv(ApplySettling(v, s))
  {
    var w := ApplySettling(v, s);
    SettlingSettles(v, s);
    forall r: Requester ensures CountOf(w.book.inflight, r) + Reserved(w, r) <= MAX_INFLIGHT_PER_REQUESTER {
      FewerCalls(v.book.inflight, w.book.inflight, r);
      assert CountOf(v.book.inflight, r) + Reserved(v, r) <= MAX_INFLIGHT_PER_REQUESTER;
    }
  }

  lemma SettlingKeepsAnswers(v: Vars, s: Step)
    requires BookOk(v.book) && AnswersInv(v.book, v.log) && IsSettling(s) && Enabled(v, s)
    ensures AnswersInv(ApplySettling(v, s).book, ApplySettling(v, s).log)
  {
    var w := ApplySettling(v, s);
    SettlingSettles(v, s);
    assert w.log.sent == v.log.sent && w.log.arrived == v.log.arrived;
    SettledAnswers(v.book, w.book, v.log, w.log);
  }

  lemma SettledAnswers(b: Book, c: Book, l: Log, m: Log)
    requires AnswersInv(b, l) && Settles(b, c, l.arrived) && m.sent == l.sent && m.arrived == l.arrived
    ensures AnswersInv(c, m)
  {
  }

  lemma SettlingKeepsTimer(v: Vars, s: Step)
    requires MutexInv(v) && TimerInv(v) && ShutdownInv(v) && IsSettling(s) && Enabled(v, s)
    ensures TimerInv(ApplySettling(v, s))
  {
    assert s.Finish? ==> StopsInOrder(v, s.t);
  }

  lemma SettlingKeepsShutdown(v: Vars, s: Step)
    requires MutexInv(v) && ShutdownInv(v) && IsSettling(s) && Enabled(v, s)
    ensures ShutdownInv(ApplySettling(v, s))
  {
    assert s.Finish? ==> StopsInOrder(v, s.t);
    Frame(v, s);
    forall t: Tid ensures StopsInOrder(ApplySettling(v, s), t) {
      assert StopsInOrder(v, t) && (Moves(s, t) ==> t == s.t);
    }
  }

  // The remaining steps leave the book alone.

  lemma OtherMovesNobodyWithACall(v: Vars, s: Step)
    requires !IsCall(s) && !IsSettling(s) && Enabled(v, s)
    ensures forall u: Tid, id: CallId :: HoldsId(At(ApplyOther(v, s), u), id) <==> HoldsId(At(v, u), id)
    ensures ApplyOther(v, s).book == v.book && ApplyOther(v, s).log.next == v.log.next
    ensures ApplyOther(v, s).mutex == v.mutex
  {
  }

  lemma OtherKeepsPlacesAndIds(v: Vars, s: Step)
    requires PlacesInv(v) && IdsInv(v) && !IsCall(s) && !IsSettling(s) && Enabled(v, s)
    ensures PlacesInv(ApplyOther(v, s)) && IdsInv(ApplyOther(v, s))
  {
    hide ApplyOther, Enabled;
    var w := ApplyOther(v, s);
    OtherMovesNobodyWithACall(v, s);
    SameHolders(v, w);
    forall id: CallId | IsHeld(v, id) ensures IsHeld(w, id) {
      var t: Tid :| HoldsId(At(v, t), id);
      assert HoldsId(At(w, t), id);
    }
  }

  lemma OtherKeepsMutex(v: Vars, s: Step)
    requires MutexInv(v) && !IsCall(s) && !IsSettling(s) && Enabled(v, s)
    ensures MutexInv(ApplyOther(v, s))
  {
  }

  lemma OtherKeepsQuotaAndTimer(v: Vars, s: Step)
    requires MutexInv(v) && QuotaInv(v) && TimerInv(v) && !IsCall(s) && !IsSettling(s) && Enabled(v, s)
    ensures QuotaInv(ApplyOther(v, s)) && TimerInv(ApplyOther(v, s))
  {
  }

  lemma OtherKeepsAnswers(v: Vars, s: Step)
    requires AnswersInv(v.book, v.log) && !IsCall(s) && !IsSettling(s) && Enabled(v, s)
    ensures AnswersInv(ApplyOther(v, s).book, ApplyOther(v, s).log)
  {
  }

  lemma OtherKeepsShutdown(v: Vars, s: Step)
    requires ShutdownInv(v) && !IsCall(s) && !IsSettling(s) && Enabled(v, s)
    ensures ShutdownInv(ApplyOther(v, s))
  {
    assert s.Detach? ==> StopsInOrder(v, s.t);
    Frame(v, s);
    forall t: Tid ensures StopsInOrder(ApplyOther(v, s), t) {
      assert StopsInOrder(v, t) && (Moves(s, t) ==> t == s.t);
    }
  }

  lemma StepKeepsInv(v: Vars, s: Step)
    requires Inv(v) && Enabled(v, s)
    ensures Inv(Apply(v, s))
  {
    if IsCall(s) {
      CallKeepsPlaces(v, s);
      CallKeepsIds(v, s);
      CallKeepsMutex(v, s);
      CallKeepsQuota(v, s);
      CallKeepsAnswers(v, s);
      CallKeepsTimer(v, s);
      CallKeepsShutdown(v, s);
    } else if IsSettling(s) {
      SettlingKeepsPlaces(v, s);
      SettlingKeepsIds(v, s);
      SettlingKeepsMutex(v, s);
      SettlingKeepsQuota(v, s);
      SettlingKeepsAnswers(v, s);
      SettlingKeepsTimer(v, s);
      SettlingKeepsShutdown(v, s);
    } else {
      OtherKeepsPlacesAndIds(v, s);
      OtherKeepsMutex(v, s);
      OtherKeepsQuotaAndTimer(v, s);
      OtherKeepsAnswers(v, s);
      OtherKeepsShutdown(v, s);
    }
  }

  /** What was settled stays as it was settled. */
  lemma StepKeepsOutcomes(v: Vars, s: Step)
    requires Inv(v) && Enabled(v, s)
    ensures forall id: CallId :: id in v.book.outcomes ==>
              id in Apply(v, s).book.outcomes && Apply(v, s).book.outcomes[id] == v.book.outcomes[id]
  {
    if IsCall(s) {
      assert s.Begin? || s.Sync? || HoldsId(At(v, s.t), At(v, s.t).id);
    } else if IsSettling(s) {
      SettlingSettles(v, s);
    }
  }

  lemma {:induction false} RunKeepsInv(v: Vars, steps: seq<Step>)
    requires Inv(v) && Runs(v, steps)
    ensures Inv(Exec(v, steps))
    decreases |steps|
  {
    if steps != [] {
      StepKeepsInv(v, steps[0]);
      RunKeepsInv(Apply(v, steps[0]), steps[1..]);
    }
  }

  lemma InitInv()
    ensures Inv(INIT)
  {
  }

  // ---------------------------------------------------------------------------------------------
  // What holds in every run
  // ---------------------------------------------------------------------------------------------

  /** Each call() so far is in exactly one place: its future is settled, or it is inflight under one key,
      or its own thread has still to settle it or enter it. */
  lemma EveryCallIsInOnePlace(steps: seq<Step>, id: CallId)
    requires Runs(INIT, steps)
    ensures var v := Exec(INIT, steps);
            && (id < v.log.next <==> id in v.book.outcomes || IsInflight(v.book, id) || IsHeld(v, id))
            && !(id in v.book.outcomes && IsInflight(v.book, id))
            && !(id in v.book.outcomes && IsHeld(v, id))
            && !(IsInflight(v.book, id) && IsHeld(v, id))
  {
    InitInv();
    RunKeepsInv(INIT, steps);
  }

  /** A future is settled once: its outcome is the same in every later state. */
  lemma {:induction false} OutcomesAreFinal(v: Vars, steps: seq<Step>, id: CallId)
    requires Inv(v) && Runs(v, steps) && id in v.book.outcomes
    ensures id in Exec(v, steps).book.outcomes && Exec(v, steps).book.outcomes[id] == v.book.outcomes[id]
    decreases |steps|
  {
    if steps != [] {
      StepKeepsOutcomes(v, steps[0]);
      StepKeepsInv(v, steps[0]);
      OutcomesAreFinal(Apply(v, steps[0]), steps[1..], id);
    }
  }

  /** A value is the payload of a response that arrived under the key of that call's own request, even
      when late or repeated responses to other calls arrive on the same client. */
  lemma ValuesAreOwnAnswers(steps: seq<Step>, id: CallId)
    requires Runs(INIT, steps)
    ensures var v := Exec(INIT, steps);
            id in v.book.outcomes && v.book.outcomes[id].Value? ==>
              exists r: Response :: r in v.log.arrived && r.key in v.log.sent && v.log.sent[r.key] == id
                                    && r.payload == v.book.outcomes[id].payload
  {
    InitInv();
    RunKeepsInv(INIT, steps);
    var v := Exec(INIT, steps);
    if id in v.book.outcomes && v.book.outcomes[id].Value? {
      assert OwnAnswer(v.log, id, v.book.outcomes[id].payload);
    }
  }

  /** The check for a duplicate pending key never fires. */
  lemma KeysAreNeverDuplicated(steps: seq<Step>, s: Step)
    requires Runs(INIT, steps) && s.Insert? && s.start.Sent? && Enabled(Exec(INIT, steps), s)
    ensures s.start.key !in Exec(INIT, steps).book.inflight
  {
    InitInv();
    RunKeepsInv(INIT, steps);
  }

  /** Once any shutdown() has returned the table is empty and stays empty, whatever call() it raced. */
  lemma NothingInflightAfterShutdown(before: seq<Step>, after: seq<Step>)
    requires Runs(INIT, before) && Exec(INIT, before).log.finished && Runs(Exec(INIT, before), after)
    ensures Exec(Exec(INIT, before), after).book.inflight == map[]
  {
    InitInv();
    RunKeepsInv(INIT, before);
    RunKeepsInv(Exec(INIT, before), after);
    FinishedStays(Exec(INIT, before), after);
  }

  lemma {:induction false} FinishedStays(v: Vars, steps: seq<Step>)
    requires v.log.finished && Runs(v, steps)
    ensures Exec(v, steps).log.finished
    decreases |steps|
  {
    if steps != [] {
      FinishedStays(Apply(v, steps[0]), steps[1..]);
    }
  }

  /** Whose slot is reserved, in the terms of the counters. */
  function Reservation(v: Vars): Option<Requester> {
    if v.mutex.Some? && At(v, v.mutex.value).Admitted? then Some(At(v, v.mutex.value).requester) else None
  }

  /** No requester ever has more than four calls in the table and being admitted, together; so counters
      that agree with the table and the reservation are between 1 and 4 for every key that they have. */
  lemma QuotaIsKept(steps: seq<Step>, r: Requester, counts: map<Requester, int>)
    requires Runs(INIT, steps)
    ensures CountOf(Exec(INIT, steps).book.inflight, r) + Reserved(Exec(INIT, steps), r) <= 4
    ensures var v := Exec(INIT, steps);
            CountsAgree(counts, v.book.inflight, Reservation(v)) && r in counts ==> 1 <= counts[r] <= 4
  {
    InitInv();
    RunKeepsInv(INIT, steps);
  }

  /** While the waitable is attached and state_mutex is free, the timer holds the earliest deadline of
      the table, and none exactly if the table is empty. */
  lemma TimerHoldsEarliestDeadline(steps: seq<Step>)
    requires Runs(INIT, steps)
    ensures var v := Exec(INIT, steps);
            v.waitable.attached && v.mutex.None? ==>
              && (v.waitable.timer.None? <==> v.book.inflight == map[])
              && IsEarliest(v.waitable.timer, v.book.inflight)
  {
    InitInv();
    RunKeepsInv(INIT, steps);
  }

  /** Right after executeWaitable() has run on an open gate, every remaining deadline is in the future. */
  lemma NoExpiredCallIsLeft(v: Vars, s: Step)
    requires s.Work? && Enabled(v, s) && !v.waitable.closed
    ensures forall k: Key :: k in Apply(v, s).book.inflight ==> v.now < Apply(v, s).book.inflight[k].deadline
  {
  }

  // ---------------------------------------------------------------------------------------------
  // Who is refused, and what leaves the table
  // ---------------------------------------------------------------------------------------------

  /** call() settles its future at once exactly if the gate is closed or the requester is missing. */
  lemma BeginRefuses(v: Vars, t: Tid, requester: Requester)
    requires Inv(v) && Enabled(v, Begin(t, requester))
    ensures var w := Apply(v, Begin(t, requester));
            var id := v.log.next;
            && (id in w.book.outcomes <==> v.waitable.closed || requester == "")
            && (id in w.book.outcomes ==>
                  w.book.outcomes[id] == Failed(if v.waitable.closed then ShutDown else MissingRequester))
            && (id !in w.book.outcomes ==> At(w, t) == Named(id, requester))
            && w.book.inflight == v.book.inflight
  {
  }

  /** Under state_mutex a call goes on exactly if the gate is open and fewer than four calls of its requester
      are inflight. */
  lemma AdmitRefuses(v: Vars, t: Tid)
    requires Inv(v) && Enabled(v, Admit(t))
    ensures var w := Apply(v, Admit(t));
            var id := At(v, t).id;
            var count := CountOf(v.book.inflight, At(v, t).requester);
            && (id !in w.book.outcomes <==> !v.waitable.closed && count < 4)
            && (id !in w.book.outcomes ==> w.mutex == Some(t) && At(w, t) == Admitted(id, At(v, t).requester))
            && (id in w.book.outcomes ==>
                  w.book.outcomes[id] == Failed(if v.waitable.closed then ShutDown else LimitReached))
  {
    assert HoldsId(At(v, t), At(v, t).id);
  }

  /** A call that was sent enters the table under its key with what it asked for, and its deadline is the
      requested timeout from now if that is positive, and two seconds otherwise. */
  lemma InsertEnters(v: Vars, s: Step)
    requires Inv(v) && s.Insert? && Enabled(v, s)
    ensures var w := Apply(v, s);
            var id, requester := At(v, s.t).id, At(v, s.t).requester;
            && (s.start.DidNotStart? ==>
                  w.book.inflight == v.book.inflight && w.book.outcomes == v.book.outcomes[id := Failed(StartFailed)])
            && (s.start.Sent? ==>
                  var ms := if s.timeout.Some? && s.timeout.value > 0 then s.timeout.value else 2000;
                  var call := Call(id, s.service, s.interfaceType, requester, v.now + ms);
                  w.book.inflight == v.book.inflight[s.start.key := call] && w.book.outcomes == v.book.outcomes)
  {
  }

  /** A cancel fails exactly the inflight calls of its requester, and no other promise is touched. */
  lemma CancelFailsOwnCalls(v: Vars, requester: Requester)
    requires Enabled(v, Cancel(requester))
    ensures var w := Apply(v, Cancel(requester));
            && (requester == "" ==> w == v)
            && (requester != "" ==>
                  var picked := set k | k in v.book.inflight && v.book.inflight[k].requester == requester;
                  FailsExactly(v.book, w.book, picked, Disconnected))
  {
    CancelIsExact(v.book, requester, Disconnected);
  }

  /** An execute on an open gate settles exactly the calls that a response answers, and then exactly those
      whose deadline is not in the future. */
  lemma WorkSettlesAnsweredAndLate(v: Vars, s: Step, k: Key)
    requires s.Work? && Enabled(v, s)
    ensures var w := Apply(v, s);
            && (v.waitable.closed ==> w.book == v.book)
            && (!v.waitable.closed ==>
                  (k in w.book.inflight <==>
                     && k in v.book.inflight && v.now < v.book.inflight[k].deadline
                     && forall i :: 0 <= i < |s.responses| ==> s.responses[i].key != k))
            && (!v.waitable.closed ==>
                  var answered := DeliveredAll(v.book, s.responses);
                  var late := set k | k in answered.inflight && answered.inflight[k].deadline <= v.now;
                  FailsExactly(answered, w.book, late, TimedOut))
  {
    DeliveryTakesTheAnswered(v.book, s.responses, k);
    TimeoutIsExact(DeliveredAll(v.book, s.responses), v.now, TimedOut);
  }

  /** The last section of shutdown() fails every call that is left. */
  lemma FinishFailsEverything(v: Vars, t: Tid)
    requires Enabled(v, Finish(t))
    ensures FailsExactly(v.book, Apply(v, Finish(t)).book, v.book.inflight.Keys, ShutDown)
  {
    ShutdownIsExact(v.book, ShutDown);
  }

  // ---------------------------------------------------------------------------------------------
  // Every call can be completed
  // ---------------------------------------------------------------------------------------------

  /** How far a thread is from the end of what it is in. */
  function PcRank(pc: Pc): nat {
    match pc
    case Free => 0
    case Inserted => 1
    case Admitted(_, _) => 2
    case Resolved(_, _) => 3
    case Named(_, _) => 4
    case Executed => 1
    case Leaving => 2
    case InGate => 3
    case Executing => 4
    case Finishing => 1
    case Stopping => 2
    case Detached => 3
    case Detaching => 4
    case Closing => 5
  }

  function ActiveRank(v: Vars): nat {
    if v.waitable.active.Some? then PcRank(At(v, v.waitable.active.value)) else 0
  }

  function HolderRank(v: Vars): nat {
    if v.mutex.Some? then 1 else 0
  }

  /** w is closer than v to the end of what t is in. */
  predicate Closer(w: Vars, v: Vars, t: Tid) {
    var (a, d) := (PcRank(At(w, t)), PcRank(At(v, t)));
    var (b, e) := (|w.waitable.users|, |v.waitable.users|);
    var (c, f) := (ActiveRank(w), ActiveRank(v));
    a < d || (a == d && (b < e || (b == e && (c < f || (c == f && HolderRank(w) < HolderRank(v))))))
  }

  predicate IsNewWork(s: Step) {
    s.Begin? || s.Cancel? || s.BeginUse? || s.Close? || s.Tick? || s.Arrive?
  }

  /** Somebody waits for state_mutex: its holder gives up its call or syncs, and lets go. */
  lemma LetTheHolderGo(v: Vars, t: Tid) returns (s: Step)
    requires MutexInv(v) && v.mutex.Some?
    ensures Enabled(v, s) && !IsNewWork(s) && Closer(Apply(v, s), v, t)
  {
    var h := v.mutex.value;
    assert At(v, h).Admitted? || At(v, h).Inserted?;
    s := if At(v, h).Admitted? then Insert(h, "", "", None, DidNotStart) else Sync(h);
    Frame(v, s);
  }

  /** Somebody waits for the gate to drain: the thread inside does its work and leaves. */
  lemma LetTheActiveLeave(v: Vars, t: Tid) returns (s: Step)
    requires MutexInv(v) && v.waitable.active.Some?
    ensures Enabled(v, s) && !IsNewWork(s) && Closer(Apply(v, s), v, t)
  {
    var u := v.waitable.active.value;
    assert At(v, u).InGate? || At(v, u).Leaving?;
    if At(v, u).Leaving? {
      s := LeaveGate(u);
    } else if v.mutex.None? {
      s := Work(u, []);
    } else {
      s := LetTheHolderGo(v, t);
    }
    Frame(v, s);
  }

  /** The stop spins: the gate is closed, so each thread inside execute() comes to its end. */
  lemma LetAUserEnd(v: Vars, t: Tid) returns (s: Step)
    requires MutexInv(v) && v.waitable.closed && v.waitable.users != {}
    ensures Enabled(v, s) && !IsNewWork(s) && Closer(Apply(v, s), v, t)
  {
    var u: Tid :| u in v.waitable.users;
    assert Uses(At(v, u));
    if At(v, u).Executing? || At(v, u).Executed? {
      s := EndUse(u);
    } else {
      s := LetTheActiveLeave(v, t);
    }
    Frame(v, s);
  }

  /** The thread's own next step, if it waits for nobody. */
  function Own(v: Vars, t: Tid): Step {
    match At(v, t)
    case Named(_, _) => Resolve(t, false)
    case Resolved(_, _) => Admit(t)
    case Admitted(_, _) => Insert(t, "", "", None, DidNotStart)
    case Inserted => Sync(t)
    case Executing => if MayEnter(v.waitable) then EnterGate(t) else EndUse(t)
    case InGate => Work(t, [])
    case Leaving => LeaveGate(t)
    case Executed => EndUse(t)
    case Closing => GateDrained(t)
    case Detaching => Detach(t)
    case Detached => StopUse(t)
    case Stopping => StopReturns(t)
    case _ => Finish(t)
  }

  lemma OwnStep(v: Vars, t: Tid)
    requires !At(v, t).Free? && Enabled(v, Own(v, t))
    ensures !IsNewWork(Own(v, t)) && PcRank(At(Apply(v, Own(v, t)), t)) < PcRank(At(v, t))
  {
  }

  lemma Advance(v: Vars, t: Tid) returns (s: Step)
    requires Inv(v) && !At(v, t).Free?
    ensures Enabled(v, s) && !IsNewWork(s) && Closer(Apply(v, s), v, t)
  {
    var pc := At(v, t);
    assert StopsInOrder(v, t);
    if Enabled(v, Own(v, t)) {
      s := Own(v, t);
      OwnStep(v, t);
    } else if pc.Closing? {
      s := LetTheActiveLeave(v, t);
    } else if pc.Stopping? {
      s := LetAUserEnd(v, t);
    } else {
      s := LetTheHolderGo(v, t);
    }
  }

  /** No reachable state is a deadlock between the gate, state_mutex and the stop of the waitable: some run
      completes any call(), execute() or shutdown() in progress, without anything new beginning. */
  lemma {:induction false} CallCanComplete(v: Vars, t: Tid) returns (steps: seq<Step>)
    requires Inv(v)
    ensures Runs(v, steps) && At(Exec(v, steps), t).Free?
    ensures forall i :: 0 <= i < |steps| ==> !IsNewWork(steps[i])
    decreases PcRank(At(v, t)), |v.waitable.users|, ActiveRank(v), HolderRank(v)
  {
    steps := [];
    if !At(v, t).Free? {
      var s := Advance(v, t);
      StepKeepsInv(v, s);
      var rest := CallCanComplete(Apply(v, s), t);
      steps := [s] + rest;
      assert steps[1..] == rest;
    }
  }

  lemma NoDeadlock(before: seq<Step>, t: Tid)
    requires Runs(INIT, before)
    ensures exists after: seq<Step> ::
              Runs(Exec(INIT, before), after) && At(Exec(Exec(INIT, before), after), t).Free?
  {
    InitInv();
    RunKeepsInv(INIT, before);
    var after := CallCanComplete(Exec(INIT, before), t);
  }

  /** When the stop that shutdown() makes returns, no thread is inside execute(), and none comes back in any
      later run. */
  lemma {:induction false} NobodyExecutesAfterStop(v: Vars, t: Tid, after: seq<Step>)
    requires Inv(v) && Enabled(v, StopReturns(t)) && Runs(Apply(v, StopReturns(t)), after)
    ensures forall u: Tid :: !Uses(At(Exec(Apply(v, StopReturns(t)), after), u))
  {
    var w := Apply(v, StopReturns(t));
    assert StopsInOrder(v, t);
    StepKeepsInv(v, StopReturns(t));
    StoppedStaysUnused(w, after);
  }

  lemma {:induction false} StoppedStaysUnused(v: Vars, steps: seq<Step>)
    requires Inv(v) && v.waitable.stopped && v.waitable.users == {} && Runs(v, steps)
    ensures forall u: Tid :: !Uses(At(Exec(v, steps), u))
    decreases |steps|
  {
    if steps != [] {
      var s := steps[0];
      StepKeepsInv(v, s);
      assert s.EndUse? ==> Uses(At(v, s.t));
      StoppedStaysUnused(Apply(v, s), steps[1..]);
    }
  }
}
