/** The lock-free word of ServiceWaitable::use_state_ and GStreamerPipeline::callback_state_: bit 63 says
    stopped, the other bits count the users. A word is a natural number below 2^64, so wrap-around is
    written out. */
module UseWord {
  import opened Wrappers

  const STOP_BIT: nat := 0x8000_0000_0000_0000
  const WORDS: nat := 0x1_0000_0000_0000_0000

  type Word = w: nat | w < WORDS

  predicate IsStopped(w: Word) {
    w >= STOP_BIT
  }

  function Count(w: Word): nat {
    w % STOP_BIT
  }

  function FetchOr(w: Word): Word {
    if IsStopped(w) then w else w + STOP_BIT
  }

  function FetchSub(w: Word): Word {
    if w == 0 then WORDS - 1 else w - 1
  }

  /** state + 1U, as compare_exchange_weak is asked to store it. */
  function Plus1(w: Word): Word {
    (w + 1) % WORDS
  }

  // ---------------------------------------------------------------------------------------------
  // Operations between begin and end
  // ---------------------------------------------------------------------------------------------

  type OpId = nat

  /** Raw has entered the function that calls begin but has not loaded the word yet; Loaded holds the
      value its next exchange expects, which did not have the stop bit. */
  datatype OpPc = Raw | Loaded(seen: Word) | Using

  /** The word, the operations on it, and as a ghost count the operations between begin and end. */
  datatype Use = Use(word: Word, ops: map<OpId, OpPc>, users: set<OpId>)

  function Gone(u: Use, o: OpId): Use {
    u.(ops := u.ops - {o})
  }

  function At(u: Use, o: OpId, pc: OpPc): Use {
    u.(ops := u.ops[o := pc])
  }

  /** `while ((state & stopped) == 0)`: with the stop bit set begin returns false. */
  function Looked(u: Use, o: OpId): Use {
    if IsStopped(u.word) then Gone(u, o) else At(u, o, Loaded(u.word))
  }

  function Exchanged(u: Use, o: OpId, spurious: bool): Use
    requires o in u.ops && u.ops[o].Loaded?
  {
    if u.word != u.ops[o].seen || spurious then Looked(u, o)
    else At(u.(word := Plus1(u.word), users := u.users + {o}), o, Using)
  }

  function Ended(u: Use, o: OpId): Use {
    Gone(u.(word := FetchSub(u.word), users := u.users - {o}), o)
  }

  function Stopped(u: Use): Use {
    u.(word := FetchOr(u.word))
  }

  datatype OpStep =
    | Call(o: OpId)
    | Load(o: OpId)
    | Exchange(o: OpId, spurious: bool)
    | End(o: OpId)

  /** The bound says that fewer than 2^63 operations use the word at once. */
  predicate OpEnabled(u: Use, s: OpStep) {
    match s
    case Call(o) => o !in u.ops
    case Load(o) => o in u.ops && u.ops[o].Raw?
    case Exchange(o, _) => o in u.ops && u.ops[o].Loaded? && |u.users| + 1 < STOP_BIT
    case End(o) => o in u.ops && u.ops[o].Using?
  }

  function OpApply(u: Use, s: OpStep): Use
    requires OpEnabled(u, s)
  {
    match s
    case Call(o) => At(u, o, Raw)
    case Load(o) => Looked(u, o)
    case Exchange(o, spurious) => Exchanged(u, o, spurious)
    case End(o) => Ended(u, o)
  }

  /** The users are the operations past begin, and no operation expects a value with the stop bit. */
  ghost predicate OpsInv(u: Use) {
    && (forall o: OpId :: o in u.users <==> o in u.ops && u.ops[o].Using?)
    && (forall o: OpId :: o in u.ops && u.ops[o].Loaded? ==> !IsStopped(u.ops[o].seen))
  }

  /** The word is 2^63 * stopped + users. */
  predicate Agrees(u: Use) {
    && |u.users| < STOP_BIT
    && u.word == (if IsStopped(u.word) then STOP_BIT else 0) + |u.users|
  }

  lemma OpKeeps(u: Use, s: OpStep)
    requires OpsInv(u) && Agrees(u) && OpEnabled(u, s)
    ensures var w := OpApply(u, s);
            && OpsInv(w) && Agrees(w)
            && IsStopped(w.word) == IsStopped(u.word)
            && (IsStopped(u.word) ==> w.users <= u.users)
  {
  }

  lemma StopKeeps(u: Use)
    requires OpsInv(u) && Agrees(u)
    ensures OpsInv(Stopped(u)) && Agrees(Stopped(u)) && IsStopped(Stopped(u).word)
  {
  }

  /** What the spin loop of stopAndWait() tests. */
  lemma CountIsUsers(u: Use)
    requires Agrees(u)
    ensures Count(u.word) == |u.users|
  {
  }

  // ---------------------------------------------------------------------------------------------
  // The loops, against other threads
  // ---------------------------------------------------------------------------------------------

  /** What other threads do to the word: a step of an operation, or the fetch_or of a stop. */
  datatype Event = Other(op: OpStep) | SetStop

  predicate EventEnabled(u: Use, e: Event) {
    e.Other? ==> OpEnabled(u, e.op)
  }

  function EventApply(u: Use, e: Event): Use
    requires EventEnabled(u, e)
  {
    match e
    case Other(op) => OpApply(u, op)
    case SetStop => Stopped(u)
  }

  ghost predicate Plays(u: Use, events: seq<Event>)
    decreases |events|
  {
    events == [] || (EventEnabled(u, events[0]) && Plays(EventApply(u, events[0]), events[1..]))
  }

  ghost function Played(u: Use, events: seq<Event>): Use
    requires Plays(u, events)
    decreases |events|
  {
    if events == [] then u else Played(EventApply(u, events[0]), events[1..])
  }

  /** Some interleaving of steps leads from u to w. */
  ghost predicate Reaches(u: Use, w: Use) {
    exists events: seq<Event> :: Plays(u, events) && Played(u, events) == w
  }

  lemma ReachesItself(u: Use)
    ensures Reaches(u, u)
  {
    assert Plays(u, []) && Played(u, []) == u;
  }

  lemma {:induction false} PlayOneMore(u: Use, events: seq<Event>, e: Event)
    requires Plays(u, events) && EventEnabled(Played(u, events), e)
    ensures Plays(u, events + [e]) && Played(u, events + [e]) == EventApply(Played(u, events), e)
    decreases |events|
  {
    var more := events + [e];
    if events == [] {
      assert more == [e] && more[1..] == [];
    } else {
      PlayOneMore(EventApply(u, events[0]), events[1..], e);
      assert more[0] == events[0] && more[1..] == events[1..] + [e];
    }
  }

  lemma ReachesOneMore(u: Use, w: Use, e: Event)
    requires Reaches(u, w) && EventEnabled(w, e)
    ensures Reaches(u, EventApply(w, e))
  {
    var events: seq<Event> :| Plays(u, events) && Played(u, events) == w;
    PlayOneMore(u, events, e);
  }

  /** What happens between two looks at the word, and whether the weak exchange then fails for no reason. */
  datatype Turn = Turn(others: seq<Event>, spurious: bool)

  /** StillTrying: the turns are over and the loop is not. */
  datatype Begun = Began | Refused | StillTrying

  /** The word with the operations on it. The methods are the loops of beginUse(), endUse(), stopAndWait()
      and resumeCallbacks(); what other threads do meanwhile comes turn by turn. */
  class UseState {
    var word: Word
    var ops: map<OpId, OpPc>
    var users: set<OpId>

    function Abs(): Use
      reads this
    {
      Use(word, ops, users)
    }

    ghost predicate Valid()
      reads this
    {
      OpsInv(Abs()) && Agrees(Abs())
    }

    constructor ()
      ensures Valid() && Abs() == Use(0, map[], {})
    {
      word, ops, users := 0, map[], {};
    }

    /** Another thread takes a step, if it can. It leaves operation `mine` alone, and room for one more
        user. `before` is the state in which the loop began. */
    method OneEvent(e: Event, mine: Option<OpId>, ghost before: Use)
      requires Valid() && |users| + 1 < STOP_BIT && Reaches(before, Abs())
      modifies this
      ensures Valid() && |users| + 1 < STOP_BIT
      ensures Reaches(before, Abs())
      ensures IsStopped(old(word)) ==> IsStopped(word) && users <= old(users)
      ensures mine.Some? ==> (mine.value in ops <==> mine.value in old(ops))
      ensures mine.Some? && mine.value in ops ==> ops[mine.value] == old(ops)[mine.value]
    {
      if !EventEnabled(Abs(), e) || (e.Other? && mine == Some(e.op.o)) {
        return;
      }
      if e.Other? && e.op.Exchange? && |users| + 2 >= STOP_BIT {
        return;
      }
      ReachesOneMore(before, Abs(), e);
      if e.Other? {
        OpKeeps(Abs(), e.op);
      } else {
        StopKeeps(Abs());
      }
      var u := EventApply(Abs(), e);
      word, ops, users := u.word, u.ops, u.users;
    }

    method Interfere(others: seq<Event>, mine: Option<OpId>, ghost before: Use)
      requires Valid() && |users| + 1 < STOP_BIT && Reaches(before, Abs())
      modifies this
      ensures Valid() && |users| + 1 < STOP_BIT
      ensures Reaches(before, Abs())
      ensures IsStopped(old(word)) ==> IsStopped(word) && users <= old(users)
      ensures mine.Some? ==> (mine.value in ops <==> mine.value in old(ops))
      ensures mine.Some? && mine.value in ops ==> ops[mine.value] == old(ops)[mine.value]
      ensures others == [] ==> Abs() == old(Abs())
    {
      for i := 0 to |others|
        invariant Valid() && |users| + 1 < STOP_BIT
        invariant Reaches(before, Abs())
        invariant IsStopped(old(word)) ==> IsStopped(word) && users <= old(users)
        invariant mine.Some? ==> (mine.value in ops <==> mine.value in old(ops))
        invariant mine.Some? && mine.value in ops ==> ops[mine.value] == old(ops)[mine.value]
        invariant others == [] ==> Abs() == old(Abs())
      {
        OneEvent(others[i], mine, before);
      }
    }

    /** beginUse()/beginCallback(): load, and exchange until the word is as expected or has the stop bit. */
    method BeginUse(o: OpId, turns: seq<Turn>) returns (r: Begun)
      requires Valid() && |users| + 1 < STOP_BIT && o !in ops
      modifies this
      ensures Valid() && Reaches(old(Abs()), Abs())
      ensures r == Began <==> o in users
      ensures r == Refused <==> o !in ops
      ensures r == Refused ==> IsStopped(word)
      ensures IsStopped(old(word)) ==> r == Refused && Abs() == old(Abs())
      ensures !IsStopped(old(word)) && |turns| > 0 && turns[0] == Turn([], false) ==>
                r == Began && word == old(word) + 1 && users == old(users) + {o}
    {
      ghost var before := Abs();
      ReachesItself(before);
      ReachesOneMore(before, Abs(), Other(Call(o)));
      ReachesOneMore(before, At(before, o, Raw), Other(Load(o)));
      var state := word;
      if IsStopped(state) {
        assert Gone(At(before, o, Raw), o) == before;
        return Refused;
      }
      ops := ops[o := Loaded(state)];
      assert Abs() == Looked(At(before, o, Raw), o);
      for i := 0 to |turns|
        invariant Valid() && |users| + 1 < STOP_BIT && Reaches(before, Abs())
        invariant o in ops && ops[o] == Loaded(state)
        invariant i == 0 ==> word == state == before.word && users == before.users
        invariant i > 0 ==> turns[0] != Turn([], false)
        invariant !IsStopped(before.word)
      {
        r, state := Attempt(o, state, turns[i], before);
        if r != StillTrying {
          return;
        }
      }
      r := StillTrying;
    }

    /** One turn: the word may change, and then the exchange is tried. A failed one hands back what it saw,
        and the loop ends if that has the stop bit. */
    method Attempt(o: OpId, state: Word, turn: Turn, ghost before: Use) returns (r: Begun, seen: Word)
      requires Valid() && |users| + 1 < STOP_BIT && Reaches(before, Abs())
      requires o in ops && ops[o] == Loaded(state)
      modifies this
      ensures Valid() && Reaches(before, Abs())
      ensures r == Began <==> o in users
      ensures r == Refused <==> o !in ops
      ensures r == Refused ==> IsStopped(word)
      ensures r == StillTrying ==> |users| + 1 < STOP_BIT && o in ops && ops[o] == Loaded(seen)
      ensures turn == Turn([], false) && old(word) == state ==>
                r == Began && word == state + 1 && users == old(users) + {o}
    {
      Interfere(turn.others, Some(o), before);
      seen := word;
      ReachesOneMore(before, Abs(), Other(Exchange(o, turn.spurious)));
      OpKeeps(Abs(), Exchange(o, turn.spurious));
      if word == state && !turn.spurious {
        word := Plus1(state);
        ops := ops[o := Using];
        users := users + {o};
        return Began, seen;
      }
      if IsStopped(seen) {
        ops := ops - {o};
        return Refused, seen;
      }
      ops := ops[o := Loaded(seen)];
      return StillTrying, seen;
    }

    /** endUse()/endCallback(): the decrement leaves the stop bit alone. */
    method EndUse(o: OpId)
      requires Valid() && o in users
      modifies this
      ensures Valid() && Abs() == Ended(old(Abs()), o)
      ensures users == old(users) - {o} && IsStopped(word) == IsStopped(old(word))
      ensures Count(word) == Count(old(word)) - 1
    {
      OpKeeps(Abs(), End(o));
      CountIsUsers(Abs());
      CountIsUsers(Ended(Abs(), o));
      word := FetchSub(word);
      users := users - {o};
      ops := ops - {o};
    }

    /** stopAndWait()/stopCallbacksAndWait(): set the stop bit, and spin while the count is not zero. Not
        `returned` means that it is still spinning when the turns are over. */
    method StopAndWait(turns: seq<seq<Event>>) returns (returned: bool)
      requires Valid() && |users| + 1 < STOP_BIT
      modifies this
      ensures Valid() && Reaches(old(Abs()), Abs())
      ensures IsStopped(word) && users <= old(users)
      ensures returned <==> users == {}
    {
      ghost var before := Abs();
      ReachesItself(before);
      ReachesOneMore(before, before, SetStop);
      StopKeeps(before);
      word := FetchOr(word);
      var state := word;
      var i := 0;
      while Count(state) != 0 && i < |turns|
        invariant Valid() && |users| + 1 < STOP_BIT && Reaches(before, Abs())
        invariant IsStopped(word) && users <= before.users && state == word
        decreases |turns| - i
      {
        Interfere(turns[i], None, before);
        state := word;
        i := i + 1;
      }
      CountIsUsers(Abs());
      returned := Count(state) == 0;
    }

    /** resumeCallbacks() stores 0 whatever is there. The word still counts the users exactly if there were
        none. */
    method Resume()
      requires Valid()
      modifies this`word
      ensures Valid() <==> users == {}
      ensures users == {} ==> !IsStopped(word)
    {
      word := 0;
    }
  }
}

/** ServiceWaitable: threads that use the waitable between beginUse() and endUse(), and threads inside
    stopAndWait(), which is called when the waitable is removed and again by its destructor. */
module ServiceWaitableUse {
  import opened UseWord

  type Tid = nat

  /** owner: the thread of each operation. stoppers: the threads spinning in stopAndWait(). */
  datatype Vars = Vars(use: Use, owner: map<OpId, Tid>, stoppers: set<Tid>)

  datatype Step = Op(t: Tid, op: OpStep) | Stop(t: Tid) | StopReturns(t: Tid)

  /** A thread may begin a use inside another, but does nothing while it spins. */
  predicate Enabled(v: Vars, s: Step) {
    match s
    case Op(t, op) =>
      t !in v.stoppers && OpEnabled(v.use, op) && (!op.Call? ==> op.o in v.owner && v.owner[op.o] == t)
    case Stop(t) => t !in v.stoppers
    case StopReturns(t) => t in v.stoppers && Count(v.use.word) == 0
  }

  function Apply(v: Vars, s: Step): Vars
    requires Enabled(v, s)
  {
    match s
    case Op(t, op) => v.(use := OpApply(v.use, op), owner := if op.Call? then v.owner[op.o := t] else v.owner)
    case Stop(t) => v.(use := Stopped(v.use), stoppers := v.stoppers + {t})
    case StopReturns(t) => v.(stoppers := v.stoppers - {t})
  }

  const INIT := Vars(Use(0, map[], {}), map[], {})

  predicate Runs(v: Vars, steps: seq<Step>)
    decreases |steps|
  {
    steps == [] || (Enabled(v, steps[0]) && Runs(Apply(v, steps[0]), steps[1..]))
  }

  function Exec(v: Vars, steps: seq<Step>): Vars
    requires Runs(v, steps)
    decreases |steps|
  {
    if steps == [] then v else Exec(Apply(v, steps[0]), steps[1..])
  }

  ghost predicate Inv(v: Vars) {
    && OpsInv(v.use) && Agrees(v.use)
    && (v.stoppers != {} ==> IsStopped(v.use.word))
    && (forall o: OpId :: o in v.use.ops ==> o in v.owner)
  }

  lemma StepKeepsInv(v: Vars, s: Step)
    requires Inv(v) && Enabled(v, s)
    ensures Inv(Apply(v, s))
    ensures IsStopped(v.use.word) ==> IsStopped(Apply(v, s).use.word) && Apply(v, s).use.users <= v.use.users
  {
    match s
    case Op(_, op) => OpKeeps(v.use, op);
    case Stop(_) => StopKeeps(v.use);
    case StopReturns(_) =>
  }

  lemma {:induction false} RunKeepsInv(v: Vars, steps: seq<Step>)
    requires Inv(v) && Runs(v, steps)
    ensures Inv(Exec(v, steps))
    ensures IsStopped(v.use.word) ==>
              IsStopped(Exec(v, steps).use.word) && Exec(v, steps).use.users <= v.use.users
    decreases |steps|
  {
    if steps != [] {
      StepKeepsInv(v, steps[0]);
      RunKeepsInv(Apply(v, steps[0]), steps[1..]);
    }
  }

  /** In every run the word is 2^63 * stopped + users, so the decrement of endUse() never borrows. */
  lemma WordIsFlagPlusUsers(steps: seq<Step>)
    requires Runs(INIT, steps)
    ensures var u := Exec(INIT, steps).use;
            && u.word == (if IsStopped(u.word) then STOP_BIT else 0) + |u.users|
            && (forall o: OpId :: o in u.users <==> o in u.ops && u.ops[o].Using?)
            && (forall o: OpId :: o in u.users ==> Count(u.word) > 0)
  {
    RunKeepsInv(INIT, steps);
    CountIsUsers(Exec(INIT, steps).use);
  }

  /** When stopAndWait() returns nobody uses the waitable, and nobody ever will. */
  lemma StoppedForGood(before: seq<Step>, t: Tid, after: seq<Step>)
    requires Runs(INIT, before) && Enabled(Exec(INIT, before), StopReturns(t))
    requires Runs(Apply(Exec(INIT, before), StopReturns(t)), after)
    ensures Exec(INIT, before).use.users == {}
    ensures Exec(Apply(Exec(INIT, before), StopReturns(t)), after).use.users == {}
  {
    RunKeepsInv(INIT, before);
    var v := Exec(INIT, before);
    CountIsUsers(v.use);
    StepKeepsInv(v, StopReturns(t));
    RunKeepsInv(Apply(v, StopReturns(t)), after);
  }

  // ---------------------------------------------------------------------------------------------
  // Exactly when stopAndWait() can return
  // ---------------------------------------------------------------------------------------------

  /** A use whose own thread spins in stopAndWait(). */
  predicate WaitsForItself(v: Vars, o: OpId) {
    o in v.use.users && o in v.owner && v.owner[o] in v.stoppers
  }

  ghost predicate CanReturn(v: Vars, t: Tid) {
    exists steps: seq<Step> :: Runs(v, steps) && Enabled(Exec(v, steps), StopReturns(t))
  }

  lemma {:induction false} SelfWaitBlocks(v: Vars, o: OpId, t: Tid, steps: seq<Step>)
    requires Inv(v) && WaitsForItself(v, o) && Runs(v, steps)
    ensures !Enabled(Exec(v, steps), StopReturns(t))
    decreases |steps|
  {
    CountIsUsers(v.use);
    if steps != [] {
      var s := steps[0];
      StepKeepsInv(v, s);
      SelfWaitBlocks(Apply(v, s), o, t, steps[1..]);
    }
  }

  lemma {:induction false} OthersEnd(v: Vars, t: Tid)
    requires Inv(v) && t in v.stoppers && forall o: OpId :: o in v.use.users ==> !WaitsForItself(v, o)
    ensures CanReturn(v, t)
    decreases |v.use.users|
  {
    CountIsUsers(v.use);
    if v.use.users == {} {
      assert Runs(v, []) && Exec(v, []) == v;
    } else {
      var o: OpId :| o in v.use.users;
      var s := Op(v.owner[o], End(o));
      var w := Apply(v, s);
      StepKeepsInv(v, s);
      OthersEnd(w, t);
      var steps: seq<Step> :| Runs(w, steps) && Enabled(Exec(w, steps), StopReturns(t));
      assert ([s] + steps)[1..] == steps;
      assert Runs(v, [s] + steps) && Exec(v, [s] + steps) == Exec(w, steps);
    }
  }

  /** stopAndWait() can still return exactly if no thread inside it is between beginUse() and endUse() of
      a use of its own; one such thread blocks every stopper. */
  lemma StopReturnsUnlessSelfWait(v: Vars, t: Tid)
    requires Inv(v) && t in v.stoppers
    ensures CanReturn(v, t) <==> forall o: OpId :: o in v.use.users ==> !WaitsForItself(v, o)
  {
    if forall o: OpId :: o in v.use.users ==> !WaitsForItself(v, o) {
      OthersEnd(v, t);
    } else {
      var o: OpId :| o in v.use.users && WaitsForItself(v, o);
      forall steps: seq<Step> | Runs(v, steps) ensures !Enabled(Exec(v, steps), StopReturns(t)) {
        SelfWaitBlocks(v, o, t, steps);
      }
    }
  }

  /** A thread that begins to execute the waitable and from there, as a shutdown() inside execute() does,
      stops the waitable: no continuation of this run lets it return. */
  lemma StopFromInsideNeverReturns()
    ensures exists steps: seq<Step> ::
              && Runs(INIT, steps)
              && var v := Exec(INIT, steps);
                 v.stoppers == {1} && v.use.users == {0} && v.owner == map[0 := 1] && !CanReturn(v, 1)
  {
    var s0, s1, s2, s3 := Op(1, Call(0)), Op(1, Load(0)), Op(1, Exchange(0, false)), Stop(1);
    var steps := [s0, s1, s2, s3];
    var v1 := Apply(INIT, s0);
    var v2 := Apply(v1, s1);
    assert v2.use == Use(0, map[0 := Loaded(0)], {});
    var v3 := Apply(v2, s2);
    assert v3.use == Use(1, map[0 := Using], {0});
    var v4 := Apply(v3, s3);
    assert steps[1..] == [s1, s2, s3] && steps[1..][1..] == [s2, s3] && steps[1..][1..][1..] == [s3];
    assert Runs(v4, []) && Runs(v3, [s3]) && Runs(v2, [s2, s3]) && Runs(v1, [s1, s2, s3]);
    assert Exec(v3, [s3]) == v4;
    assert Exec(v2, [s2, s3]) == Exec(v3, [s3]);
    assert Exec(v1, [s1, s2, s3]) == Exec(v2, [s2, s3]);
    assert Runs(INIT, steps) && Exec(INIT, steps) == v4;
    RunKeepsInv(INIT, steps);
    assert WaitsForItself(v4, 0);
    StopReturnsUnlessSelfWait(v4, 1);
  }
}
