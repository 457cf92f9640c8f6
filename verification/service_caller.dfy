/** RosServiceCaller: the table of inflight calls, the per-requester counters, and the deadline timer.

    `Book` is the table together with the promises that have been fulfilled; functions on it say what
    each section under state_mutex does. Class Impl does the same in place, one entry at a time, and
    keeps `inflight_counts` in step with the table. */
module ServiceCaller {
  import opened Wrappers

  type Requester = string
  type CallId = nat
  type Payload = seq<nat>

  const MAX_INFLIGHT_PER_REQUESTER := 4
  const DEFAULT_TIMEOUT_MS := 2000

  /** rcl sequence numbers are client-local. */
  datatype Key = Key(client: nat, sequence: int)

  datatype Call = Call(id: CallId, service: string, interfaceType: string, requester: Requester, deadline: int)

  datatype Error =
    | ShutDown
    | MissingRequester
    | TypeUnresolved
    | LimitReached
    | StartFailed
    | DuplicateKey
    | TimedOut
    | Disconnected
    | ConversionFailed

  datatype Outcome = Value(service: string, interfaceType: string, payload: Payload) | Failed(error: Error)

  datatype Book = Book(inflight: map<Key, Call>, outcomes: map<CallId, Outcome>)

  // ---------------------------------------------------------------------------------------------
  // What the sections do to the book
  // ---------------------------------------------------------------------------------------------

  /** The three conditions that failMatchingCalls() is called with. */
  datatype Match = ByRequester(requester: Requester) | Expired(now: int) | Everyone

  predicate Matches(m: Match, c: Call) {
    match m
    case ByRequester(requester) => c.requester == requester
    case Expired(now) => now >= c.deadline
    case Everyone => true
  }

  function Settled(b: Book, k: Key, o: Outcome): Book
    requires k in b.inflight
  {
    Book(b.inflight - {k}, b.outcomes[b.inflight[k].id := o])
  }

  function Spared(inflight: map<Key, Call>, keys: set<Key>, m: Match): map<Key, Call> {
    map k | k in inflight && !(k in keys && Matches(m, inflight[k])) :: inflight[k]
  }

  function Failures(inflight: map<Key, Call>, keys: set<Key>, m: Match, error: Error): map<CallId, Outcome> {
    map k | k in inflight && k in keys && Matches(m, inflight[k]) :: inflight[k].id := Failed(error)
  }

  /** The calls among `keys` that match are failed. */
  function FailedAmong(b: Book, keys: set<Key>, m: Match, error: Error): Book {
    Book(Spared(b.inflight, keys, m), b.outcomes + Failures(b.inflight, keys, m, error))
  }

  function FailedWhere(b: Book, m: Match, error: Error): Book {
    FailedAmong(b, b.inflight.Keys, m, error)
  }

  /** A taken response; `converts` says whether serializing it back succeeds. */
  datatype Response = Response(key: Key, payload: Payload, converts: bool)

  function Answer(c: Call, r: Response): Outcome {
    if r.converts then Value(c.service, c.interfaceType, r.payload) else Failed(ConversionFailed)
  }

  function Delivered(b: Book, r: Response): Book {
    if r.key in b.inflight then Settled(b, r.key, Answer(b.inflight[r.key], r)) else b
  }

  function DeliveredAll(b: Book, responses: seq<Response>): Book
    decreases |responses|
  {
    if responses == [] then b
    else Delivered(DeliveredAll(b, responses[..|responses| - 1]), responses[|responses| - 1])
  }

  function Refused(b: Book, id: CallId, error: Error): Book {
    b.(outcomes := b.outcomes[id := Failed(error)])
  }

  /** Creating the client, building the request and sending it: it fails, or yields a key. */
  datatype Start = DidNotStart | Sent(key: Key)

  function Entered(b: Book, c: Call, start: Start): Book {
    match start
    case DidNotStart => Refused(b, c.id, StartFailed)
    case Sent(key) =>
      if key in b.inflight then Refused(b, c.id, DuplicateKey) else b.(inflight := b.inflight[key := c])
  }

  function Timeout(requested: Option<int>): int {
    if requested.Some? && requested.value > 0 then requested.value else DEFAULT_TIMEOUT_MS
  }

  // ---------------------------------------------------------------------------------------------
  // Which calls leave, and with what
  // ---------------------------------------------------------------------------------------------

  /** From b to c exactly the calls under `picked` left the table, each of them failed with `error`, and no
      other promise was touched. */
  ghost predicate FailsExactly(b: Book, c: Book, picked: set<Key>, error: Error) {
    && c.inflight == b.inflight - picked
    && (forall k: Key :: k in picked && k in b.inflight ==>
          b.inflight[k].id in c.outcomes && c.outcomes[b.inflight[k].id] == Failed(error))
    && (forall id: CallId :: (forall k: Key :: k in picked && k in b.inflight ==> b.inflight[k].id != id) ==>
          (id in c.outcomes <==> id in b.outcomes) && (id in c.outcomes ==> c.outcomes[id] == b.outcomes[id]))
  }

  lemma FailedWhereIsExact(b: Book, m: Match, error: Error, picked: set<Key>)
    requires forall k: Key :: k in picked <==> k in b.inflight && Matches(m, b.inflight[k])
    ensures FailsExactly(b, FailedWhere(b, m, error), picked, error)
  {
    var c := FailedWhere(b, m, error);
    assert c.inflight == b.inflight - picked;
    var failures := Failures(b.inflight, b.inflight.Keys, m, error);
    forall k: Key | k in picked ensures b.inflight[k].id in failures && failures[b.inflight[k].id] == Failed(error) {
      assert k in b.inflight && k in b.inflight.Keys && Matches(m, b.inflight[k]);
    }
  }

  lemma CancelIsExact(b: Book, requester: Requester, error: Error)
    ensures FailsExactly(b, FailedWhere(b, ByRequester(requester), error),
                         (set k | k in b.inflight && b.inflight[k].requester == requester), error)
  {
    FailedWhereIsExact(b, ByRequester(requester), error,
                       set k | k in b.inflight && b.inflight[k].requester == requester);
  }

  /** A call has timed out exactly if its deadline is not in the future. */
  lemma TimeoutIsExact(b: Book, now: int, error: Error)
    ensures FailsExactly(b, FailedWhere(b, Expired(now), error),
                         (set k | k in b.inflight && b.inflight[k].deadline <= now), error)
  {
    FailedWhereIsExact(b, Expired(now), error, set k | k in b.inflight && b.inflight[k].deadline <= now);
  }

  lemma ShutdownIsExact(b: Book, error: Error)
    ensures FailsExactly(b, FailedWhere(b, Everyone, error), b.inflight.Keys, error)
  {
    FailedWhereIsExact(b, Everyone, error, b.inflight.Keys);
  }

  /** Exactly the calls whose key a response carries are delivered. */
  lemma {:induction false} DeliveryTakesTheAnswered(b: Book, responses: seq<Response>, k: Key)
    ensures var c := DeliveredAll(b, responses);
            && (k in c.inflight <==> k in b.inflight && forall i :: 0 <= i < |responses| ==> responses[i].key != k)
            && (k in c.inflight ==> c.inflight[k] == b.inflight[k])
    decreases |responses|
  {
    if responses != [] {
      var n := |responses| - 1;
      DeliveryTakesTheAnswered(b, responses[..n], k);
      DeliveryTakesTheAnswered(b, responses[..n], responses[n].key);
      assert forall i :: 0 <= i < n ==> responses[..n][i] == responses[i];
    }
  }

  ghost predicate IdsDiffer(b: Book) {
    forall j: Key, k: Key :: j in b.inflight && k in b.inflight && j != k ==> b.inflight[j].id != b.inflight[k].id
  }

  /** A call is settled by the first response that carries its key: with its own service and type and the
      payload of that response, or as failed if it does not convert. */
  lemma {:induction false} DeliverySettlesWithTheFirst(b: Book, responses: seq<Response>, k: Key, i: nat)
    requires IdsDiffer(b) && k in b.inflight && i < |responses| && responses[i].key == k
    requires forall j :: 0 <= j < i ==> responses[j].key != k
    ensures var c := DeliveredAll(b, responses);
            var call := b.inflight[k];
            && call.id in c.outcomes
            && c.outcomes[call.id]
               == if responses[i].converts then Value(call.service, call.interfaceType, responses[i].payload)
                  else Failed(ConversionFailed)
    decreases |responses|
  {
    var n := |responses| - 1;
    var before, last := DeliveredAll(b, responses[..n]), responses[n];
    DeliveryTakesTheAnswered(b, responses[..n], k);
    DeliveryTakesTheAnswered(b, responses[..n], last.key);
    if i < n {
      DeliverySettlesWithTheFirst(b, responses[..n], k, i);
      assert responses[..n][i].key == k && k !in before.inflight;
    }
  }

  // ---------------------------------------------------------------------------------------------
  // Counting and earliest deadlines
  // ---------------------------------------------------------------------------------------------

  function KeysOf(m: map<Key, Call>, r: Requester): set<Key> {
    set k | k in m && m[k].requester == r
  }

  function CountOf(m: map<Key, Call>, r: Requester): nat {
    |KeysOf(m, r)|
  }

  function One(b: bool): nat {
    if b then 1 else 0
  }

  lemma CountAfterInsert(m: map<Key, Call>, k: Key, c: Call, r: Requester)
    requires k !in m
    ensures CountOf(m[k := c], r) == CountOf(m, r) + One(c.requester == r)
  {
    assert KeysOf(m[k := c], r) == KeysOf(m, r) + if c.requester == r then {k} else {};
  }

  lemma CountAfterRemove(m: map<Key, Call>, k: Key, r: Requester)
    requires k in m
    ensures CountOf(m - {k}, r) == CountOf(m, r) - One(m[k].requester == r)
  {
    assert KeysOf(m - {k}, r) == KeysOf(m, r) - if m[k].requester == r then {k} else {};
  }

  /** `inflight_counts` counts the inflight calls of each requester, plus a reservation not yet taken
      over by the table, and has no key for a requester with none. */
  ghost predicate CountsAgree(counts: map<Requester, int>, m: map<Key, Call>, reserved: Option<Requester>) {
    forall r: Requester ::
      var n := CountOf(m, r) + One(reserved == Some(r));
      (r in counts <==> n > 0) && (r in counts ==> counts[r] == n)
  }

  lemma SpareOneLess(inflight: map<Key, Call>, keys: set<Key>, k: Key, m: Match)
    requires k in inflight && k !in keys
    ensures k in Spared(inflight, keys, m)
    ensures Spared(inflight, keys + {k}, m)
            == Spared(inflight, keys, m) - if Matches(m, inflight[k]) then {k} else {}
  {
  }

  lemma FailOneMoreId(inflight: map<Key, Call>, keys: set<Key>, k: Key, m: Match, error: Error)
    requires k in inflight && k !in keys
    ensures Failures(inflight, keys + {k}, m, error)
            == if Matches(m, inflight[k]) then Failures(inflight, keys, m, error)[inflight[k].id := Failed(error)]
               else Failures(inflight, keys, m, error)
  {
  }

  lemma FailOneMore(b: Book, keys: set<Key>, k: Key, m: Match, error: Error)
    requires k in b.inflight && k !in keys
    ensures var one := FailedAmong(b, keys, m, error);
            && k in one.inflight && one.inflight[k] == b.inflight[k]
            && FailedAmong(b, keys + {k}, m, error)
               == if Matches(m, b.inflight[k]) then Settled(one, k, Failed(error)) else one
  {
    hide Failures;
    SpareOneLess(b.inflight, keys, k, m);
    FailOneMoreId(b.inflight, keys, k, m, error);
    var fail := Failures(b.inflight, keys, m, error);
    var id := b.inflight[k].id;
    assert b.outcomes + fail[id := Failed(error)] == (b.outcomes + fail)[id := Failed(error)];
  }

  function FailedAt(b: Book, k: Key, m: Match, error: Error): Book {
    if k in b.inflight && Matches(m, b.inflight[k]) then Settled(b, k, Failed(error)) else b
  }

  /** failMatchingCalls() as its loop runs: one key after the other. */
  function FailedInOrder(b: Book, keys: seq<Key>, m: Match, error: Error): Book
    decreases |keys|
  {
    if keys == [] then b
    else FailedAt(FailedInOrder(b, keys[..|keys| - 1], m, error), keys[|keys| - 1], m, error)
  }

  function SetOf(keys: seq<Key>): set<Key> {
    set k | k in keys
  }

  lemma SetOfMore(keys: seq<Key>, k: Key)
    ensures SetOf(keys + [k]) == SetOf(keys) + {k}
  {
  }

  /** The order in which the table is walked makes no difference. */
  lemma {:induction false} OrderIsIrrelevant(b: Book, keys: seq<Key>, m: Match, error: Error)
    requires SetOf(keys) <= b.inflight.Keys
    ensures FailedInOrder(b, keys, m, error) == FailedAmong(b, SetOf(keys), m, error)
    decreases |keys|
  {
    if keys == [] {
      NoneFail(b, m, error);
    } else {
      var n := |keys| - 1;
      assert keys == keys[..n] + [keys[n]];
      SetOfMore(keys[..n], keys[n]);
      OrderIsIrrelevant(b, keys[..n], m, error);
      if keys[n] in SetOf(keys[..n]) {
        assert SetOf(keys) == SetOf(keys[..n]);
      } else {
        FailOneMore(b, SetOf(keys[..n]), keys[n], m, error);
      }
    }
  }

  lemma NoneFail(b: Book, m: Match, error: Error)
    ensures FailedAmong(b, SetOf([]), m, error) == b
  {
  }

  ghost predicate IsEarliest(d: Option<int>, m: map<Key, Call>) {
    match d
    case None => m == map[]
    case Some(at) => (exists k: Key :: k in m && m[k].deadline == at) && forall k: Key :: k in m ==> at <= m[k].deadline
  }

  class Impl {
    var inflightCalls: map<Key, Call>
    var inflightCounts: map<Requester, int>
    var outcomes: map<CallId, Outcome>
    var attached: bool
    var timer: Option<int>
    ghost var reserved: Option<Requester>

    ghost function Abs(): Book
      reads this
    {
      Book(inflightCalls, outcomes)
    }

    ghost predicate Valid()
      reads this
    {
      && CountsAgree(inflightCounts, inflightCalls, reserved)
      && (forall r: Requester :: r in inflightCounts ==> 1 <= inflightCounts[r] <= MAX_INFLIGHT_PER_REQUESTER)
    }

    constructor ()
      ensures Valid() && reserved == None
      ensures Abs() == Book(map[], map[]) && attached && timer == None
    {
      inflightCalls, inflightCounts, outcomes := map[], map[], map[];
      attached, timer, reserved := true, None, None;
    }

    method ReserveInflightSlot(r: Requester) returns (ok: bool)
      requires Valid() && reserved == None
      modifies this`inflightCounts, this`reserved
      ensures Valid()
      ensures ok == (CountOf(inflightCalls, r) < MAX_INFLIGHT_PER_REQUESTER)
      ensures reserved == if ok then Some(r) else None
    {
      assert (r in inflightCounts <==> CountOf(inflightCalls, r) > 0);
      var current := if r in inflightCounts then inflightCounts[r] else 0;
      if current >= MAX_INFLIGHT_PER_REQUESTER {
        return false;
      }
      inflightCounts := inflightCounts[r := current + 1];
      reserved := Some(r);
      ok := true;
    }

    /** Gives back one slot, of a reservation or of a call about to leave the table. */
    method ReleaseInflightSlot(r: Requester)
      modifies this`inflightCounts
      ensures inflightCounts
              == if r !in old(inflightCounts) then old(inflightCounts)
                 else if old(inflightCounts)[r] <= 1 then old(inflightCounts) - {r}
                 else old(inflightCounts)[r := old(inflightCounts)[r] - 1]
    {
      if r !in inflightCounts {
        return;
      }
      if inflightCounts[r] <= 1 {
        inflightCounts := inflightCounts - {r};
        return;
      }
      inflightCounts := inflightCounts[r := inflightCounts[r] - 1];
    }

    method Settle(k: Key, o: Outcome)
      requires Valid() && k in inflightCalls
      modifies this`inflightCalls, this`inflightCounts, this`outcomes
      ensures Valid()
      ensures Abs() == Settled(old(Abs()), k, o)
      ensures inflightCalls == old(inflightCalls) - {k} && outcomes == old(outcomes)[old(inflightCalls)[k].id := o]
    {
      var call := inflightCalls[k];
      outcomes := outcomes[call.id := o];
      forall r: Requester
        ensures CountOf(inflightCalls - {k}, r) == CountOf(inflightCalls, r) - One(call.requester == r)
      {
        CountAfterRemove(inflightCalls, k, r);
      }
      ReleaseInflightSlot(call.requester);
      inflightCalls := inflightCalls - {k};
    }

    method FailIfMatching(k: Key, m: Match, error: Error)
      requires Valid() && k in inflightCalls
      modifies this`inflightCalls, this`inflightCounts, this`outcomes
      ensures Valid()
      ensures Abs() == FailedAt(old(Abs()), k, m, error)
      ensures old(inflightCalls).Keys - {k} <= inflightCalls.Keys
    {
      if Matches(m, inflightCalls[k]) {
        Settle(k, Failed(error));
      }
    }

    method FailMatchingCalls(m: Match, error: Error)
      requires Valid()
      modifies this`inflightCalls, this`inflightCounts, this`outcomes
      ensures Valid()
      ensures Abs() == FailedWhere(old(Abs()), m, error)
    {
      var todo := inflightCalls.Keys;
      ghost var all, before := todo, Abs();
      ghost var done: seq<Key> := [];
      while todo != {}
        invariant Valid() && todo <= inflightCalls.Keys
        invariant SetOf(done) + todo == all
        invariant Abs() == FailedInOrder(before, done, m, error)
        decreases |todo|
      {
        var k :| k in todo;
        FailIfMatching(k, m, error);
        assert (done + [k])[..|done|] == done;
        SetOfMore(done, k);
        todo := todo - {k};
        done := done + [k];
      }
      assert SetOf(done) == all;
      OrderIsIrrelevant(before, done, m, error);
    }

    /** The responses taken from the clients, one after the other. A response whose key is not in the
        table is dropped: it is never matched by service name. */
    method DrainResponses(responses: seq<Response>)
      requires Valid()
      modifies this`inflightCalls, this`inflightCounts, this`outcomes
      ensures Valid()
      ensures Abs() == DeliveredAll(old(Abs()), responses)
      ensures forall k: Key :: k in inflightCalls <==>
                k in old(inflightCalls) && forall i :: 0 <= i < |responses| ==> responses[i].key != k
    {
      for i := 0 to |responses|
        invariant Valid()
        invariant Abs() == DeliveredAll(old(Abs()), responses[..i])
      {
        assert responses[..i + 1][..i] == responses[..i];
        var r := responses[i];
        if r.key in inflightCalls {
          Settle(r.key, Answer(inflightCalls[r.key], r));
        }
      }
      assert responses[..|responses|] == responses;
      forall k: Key ensures k in inflightCalls <==>
                k in old(inflightCalls) && forall i :: 0 <= i < |responses| ==> responses[i].key != k {
        DeliveryTakesTheAnswered(old(Abs()), responses, k);
      }
    }

    /** syncWaitableLocked(): an attached waitable gets the earliest deadline of the table. */
    method SyncWaitable()
      modifies this`timer
      ensures if attached then IsEarliest(timer, inflightCalls) else timer == old(timer)
    {
      if !attached {
        return;
      }
      var earliest := None;
      var todo := inflightCalls.Keys;
      while todo != {}
        invariant todo <= inflightCalls.Keys
        invariant match earliest
                  case None => todo == inflightCalls.Keys
                  case Some(at) =>
                    && (exists k: Key :: k in inflightCalls && inflightCalls[k].deadline == at)
                    && forall k: Key :: k in inflightCalls && k !in todo ==> at <= inflightCalls[k].deadline
        decreases |todo|
      {
        var k :| k in todo;
        todo := todo - {k};
        if earliest.None? || inflightCalls[k].deadline < earliest.value {
          earliest := Some(inflightCalls[k].deadline);
        }
      }
      timer := earliest;
    }

    /** The destructor of a reservation that was not committed. */
    method GiveBack(r: Requester)
      requires Valid() && reserved == Some(r)
      modifies this`inflightCounts, this`reserved
      ensures Valid() && reserved == None
    {
      ReleaseInflightSlot(r);
      reserved := None;
    }

    /** The call enters the table, and the table takes the reservation over. */
    method Insert(key: Key, call: Call)
      requires Valid() && reserved == Some(call.requester) && key !in inflightCalls
      modifies this`inflightCalls, this`reserved
      ensures Valid() && reserved == None && inflightCalls == old(inflightCalls)[key := call]
    {
      forall r: Requester
        ensures CountOf(inflightCalls[key := call], r) == CountOf(inflightCalls, r) + One(call.requester == r)
      {
        CountAfterInsert(inflightCalls, key, call, r);
      }
      inflightCalls := inflightCalls[key := call];
      reserved := None;
    }

    /** The part of call() under state_mutex: check, reserve, start, enter the table, commit, sync. The
        reservation is given back on every path that does not commit it. */
    method CallLocked(closed: bool, call: Call, start: Start)
      requires Valid() && reserved == None
      modifies this
      ensures Valid() && reserved == None && attached == old(attached)
      ensures Abs() == if closed then Refused(old(Abs()), call.id, ShutDown)
                       else if CountOf(old(inflightCalls), call.requester) >= MAX_INFLIGHT_PER_REQUESTER
                         then Refused(old(Abs()), call.id, LimitReached)
                       else Entered(old(Abs()), call, start)
      ensures var rejected := closed || CountOf(old(inflightCalls), call.requester) >= 4 || start.DidNotStart?
                              || start.key in old(inflightCalls);
              && (!rejected ==> inflightCalls == old(inflightCalls)[start.key := call] && outcomes == old(outcomes))
              && (rejected ==>
                    var error := if closed then ShutDown
                                 else if CountOf(old(inflightCalls), call.requester) >= 4 then LimitReached
                                 else if start.DidNotStart? then StartFailed else DuplicateKey;
                    inflightCalls == old(inflightCalls) && outcomes == old(outcomes)[call.id := Failed(error)])
      ensures inflightCalls != old(inflightCalls) && attached ==> IsEarliest(timer, inflightCalls)
      ensures inflightCalls == old(inflightCalls) ==> timer == old(timer)
    {
      if closed {
        outcomes := outcomes[call.id := Failed(ShutDown)];
        return;
      }
      var ok := ReserveInflightSlot(call.requester);
      if !ok {
        outcomes := outcomes[call.id := Failed(LimitReached)];
        return;
      }
      match start
      case DidNotStart =>
        outcomes := outcomes[call.id := Failed(StartFailed)];
        GiveBack(call.requester);
      case Sent(key) =>
        if key in inflightCalls {
          outcomes := outcomes[call.id := Failed(DuplicateKey)];
          GiveBack(call.requester);
          return;
        }
        Insert(key, call);
        assert key in inflightCalls && key !in old(inflightCalls);
        SyncWaitable();
    }

    method CancelForRequester(requester: Requester)
      requires Valid()
      modifies this
      ensures Valid() && reserved == old(reserved) && attached == old(attached)
      ensures requester == "" ==> Abs() == old(Abs()) && timer == old(timer)
      ensures requester != "" ==> Abs() == FailedWhere(old(Abs()), ByRequester(requester), Disconnected)
      ensures requester != "" ==>
                var picked := set k | k in old(inflightCalls) && old(inflightCalls)[k].requester == requester;
                FailsExactly(old(Abs()), Abs(), picked, Disconnected)
      ensures requester != "" ==> forall k: Key :: k in old(inflightCalls) ==>
                (k in inflightCalls <==> old(inflightCalls)[k].requester != requester)
      ensures requester != "" && attached ==> IsEarliest(timer, inflightCalls)
    {
      if requester == "" {
        return;
      }
      CancelIsExact(Abs(), requester, Disconnected);
      FailMatchingCalls(ByRequester(requester), Disconnected);
      SyncWaitable();
    }

    /** What executeWaitable() does under state_mutex once it has found the gate open. */
    method ExecuteWaitable(responses: seq<Response>, now: int)
      requires Valid()
      modifies this
      ensures Valid() && reserved == old(reserved) && attached == old(attached)
      ensures Abs() == FailedWhere(DeliveredAll(old(Abs()), responses), Expired(now), TimedOut)
      ensures attached ==> IsEarliest(timer, inflightCalls)
      ensures forall k: Key :: k in inflightCalls ==> now < inflightCalls[k].deadline
      ensures forall k: Key :: k in inflightCalls <==>
                && k in old(inflightCalls) && now < old(inflightCalls)[k].deadline
                && forall i :: 0 <= i < |responses| ==> responses[i].key != k
      ensures var answered := DeliveredAll(old(Abs()), responses);
              var late := set k | k in answered.inflight && answered.inflight[k].deadline <= now;
              FailsExactly(answered, Abs(), late, TimedOut)
    {
      ghost var before := Abs();
      DrainResponses(responses);
      TimeoutIsExact(Abs(), now, TimedOut);
      forall k: Key ensures k in inflightCalls ==> inflightCalls[k] == before.inflight[k] {
        DeliveryTakesTheAnswered(before, responses, k);
      }
      FailMatchingCalls(Expired(now), TimedOut);
      SyncWaitable();
    }

    /** The last section of shutdown(). */
    method FailEverything()
      requires Valid()
      modifies this`inflightCalls, this`inflightCounts, this`outcomes
      ensures Valid()
      ensures Abs() == FailedWhere(old(Abs()), Everyone, ShutDown)
      ensures FailsExactly(old(Abs()), Abs(), old(inflightCalls).Keys, ShutDown)
      ensures inflightCalls == map[] && (reserved == None ==> inflightCounts == map[])
    {
      ShutdownIsExact(Abs(), ShutDown);
      FailMatchingCalls(Everyone, ShutDown);
      if reserved == None {
        forall r: Requester ensures r !in inflightCounts {
          assert KeysOf(inflightCalls, r) == {};
          assert CountOf(inflightCalls, r) == 0;
        }
        assert inflightCounts.Keys == {};
      }
    }
  }
}
