/** GStreamerPipeline: start() and stop() against raw GStreamer callbacks.

    One thread at a time runs start() or stop(); raw callbacks come from any thread. A callback enters
    the C function while the pipeline's callbacks are installed (`hooked`) and may be arbitrarily late
    to count itself. With `prompt` set, GStreamer is assumed to clear callbacks only when none is
    between its entry and its count. */
module AudioPipeline {
  import opened UseWord

  /** Where start()/stop() is. `again`: the stop belongs to a start(); `stopped`: that start() found a
      pipeline and stopped it, rather than returning from stop() at once. */
  datatype Control =
    | Resting
    | Clearing(again: bool)
    | Flagging(again: bool)
    | Spinning(again: bool)
    | Resuming(stopped: bool)
    | Launching
    | Playing

  datatype Vars = Vars(prompt: bool, use: Use, ctl: Control, hooked: bool, active: bool)

  datatype Step =
    | Callback(op: OpStep)
    | Start
    | Stop
    | ClearCallbacks
    | SetStopBit
    | SpinReturns
    | Resume
    | Launch(ok: bool)
    | Play(ok: bool)

  /** No callback is between its entry and its count. */
  ghost predicate NoneUncounted(u: Use) {
    forall o: OpId :: o in u.ops ==> u.ops[o].Using?
  }

  ghost predicate Enabled(v: Vars, s: Step) {
    match s
    case Callback(op) => OpEnabled(v.use, op) && (op.Call? ==> v.hooked)
    case Start => v.ctl.Resting?
    case Stop => v.ctl.Resting?
    case ClearCallbacks => v.ctl.Clearing? && (v.prompt ==> NoneUncounted(v.use))
    case SetStopBit => v.ctl.Flagging?
    case SpinReturns => v.ctl.Spinning? && Count(v.use.word) == 0
    case Resume => v.ctl.Resuming?
    case Launch(_) => v.ctl.Launching?
    case Play(_) => v.ctl.Playing?
  }

  /** stop() on a pipeline that is not there returns at once; a start() that fails to build a pipeline
      throws with the callbacks resumed; one that fails to play stops what it built. */
  ghost function Apply(v: Vars, s: Step): Vars
    requires Enabled(v, s)
  {
    match s
    case Callback(op) => v.(use := OpApply(v.use, op))
    case Start => v.(ctl := if v.active then Clearing(true) else Resuming(false))
    case Stop => v.(ctl := if v.active then Clearing(false) else Resting)
    case ClearCallbacks => v.(hooked := false, ctl := Flagging(v.ctl.again))
    case SetStopBit => v.(use := Stopped(v.use), ctl := Spinning(v.ctl.again))
    case SpinReturns => v.(active := false, ctl := if v.ctl.again then Resuming(true) else Resting)
    case Resume => v.(use := v.use.(word := 0), ctl := Launching)
    case Launch(ok) => if ok then v.(hooked := true, active := true, ctl := Playing) else v.(ctl := Resting)
    case Play(ok) => v.(ctl := if ok then Resting else Clearing(false))
  }

  ghost function Init(prompt: bool): Vars {
    Vars(prompt, Use(0, map[], {}), Resting, false, false)
  }

  ghost predicate Runs(v: Vars, steps: seq<Step>)
    decreases |steps|
  {
    steps == [] || (Enabled(v, steps[0]) && Runs(Apply(v, steps[0]), steps[1..]))
  }

  ghost function Exec(v: Vars, steps: seq<Step>): Vars
    requires Runs(v, steps)
    decreases |steps|
  {
    if steps == [] then v else Exec(Apply(v, steps[0]), steps[1..])
  }

  /** The control state and the flags agree: callbacks are installed only on a pipeline that is there,
      and while a stop spins, or a start is about to resume after its stop, the stop bit is set. */
  ghost predicate ControlInv(v: Vars) {
    && (v.hooked ==> v.active && (v.ctl.Resting? || v.ctl.Clearing? || v.ctl.Playing?))
    && (v.ctl.Clearing? || v.ctl.Flagging? || v.ctl.Spinning? || v.ctl.Playing? ==> v.active)
    && (v.ctl.Resuming? || v.ctl.Launching? ==> !v.active)
    && (v.ctl.Spinning? ==> IsStopped(v.use.word))
    && (v.ctl == Resuming(true) ==> IsStopped(v.use.word) && v.use.users == {})
  }

  /** Holds in every run, whatever the callbacks do, until a step that breaks the word's agreement. */
  ghost predicate Inv(v: Vars) {
    OpsInv(v.use) && Agrees(v.use) && ControlInv(v)
  }

  /** The only step after which the word can differ from 2^63 * stopped + users: a start() that found no
      pipeline resumes the callbacks while a late callback is inside. That step always breaks it. */
  predicate ErasesUser(v: Vars, s: Step) {
    s.Resume? && v.ctl == Resuming(false) && v.use.users != {}
  }

  lemma AgreementBreaksOnlyByErasing(v: Vars, s: Step)
    requires Inv(v) && Enabled(v, s)
    ensures Agrees(Apply(v, s).use) <==> !ErasesUser(v, s)
    ensures !ErasesUser(v, s) ==> Inv(Apply(v, s))
  {
    CountIsUsers(v.use);
    match s
    case Callback(op) => OpKeeps(v.use, op);
    case SetStopBit => StopKeeps(v.use);
    case _ =>
  }

  /** No step of the run erases a user. */
  ghost predicate NeverErases(v: Vars, steps: seq<Step>)
    requires Runs(v, steps)
    decreases |steps|
  {
    steps == [] || (!ErasesUser(v, steps[0]) && NeverErases(Apply(v, steps[0]), steps[1..]))
  }

  /** The word is 2^63 * stopped + users in every state of the run. */
  ghost predicate AgreesThroughout(v: Vars, steps: seq<Step>)
    requires Runs(v, steps)
    decreases |steps|
  {
    Agrees(v.use) && (steps == [] || AgreesThroughout(Apply(v, steps[0]), steps[1..]))
  }

  /** A run keeps the agreement in all its states exactly if it never erases a user, late callbacks or
      not. */
  lemma {:induction false} RunAgreesUnlessErasing(v: Vars, steps: seq<Step>)
    requires Inv(v) && Runs(v, steps)
    ensures AgreesThroughout(v, steps) <==> NeverErases(v, steps)
    ensures NeverErases(v, steps) ==> Inv(Exec(v, steps))
    decreases |steps|
  {
    if steps != [] {
      AgreementBreaksOnlyByErasing(v, steps[0]);
      if !ErasesUser(v, steps[0]) {
        RunAgreesUnlessErasing(Apply(v, steps[0]), steps[1..]);
      }
    }
  }

  predicate NeverResumes(steps: seq<Step>) {
    forall i :: 0 <= i < |steps| ==> !steps[i].Resume?
  }

  lemma {:induction false} NobodyBeginsWhileStopped(v: Vars, steps: seq<Step>)
    requires Inv(v) && Runs(v, steps) && NeverResumes(steps) && IsStopped(v.use.word) && v.use.users == {}
    ensures Exec(v, steps).use.users == {} && IsStopped(Exec(v, steps).use.word)
    decreases |steps|
  {
    if steps != [] {
      var s := steps[0];
      assert !s.Resume? && NeverResumes(steps[1..]);
      AgreementBreaksOnlyByErasing(v, s);
      if s.Callback? {
        OpKeeps(v.use, s.op);
      }
      NobodyBeginsWhileStopped(Apply(v, s), steps[1..]);
    }
  }

  /** When the spin of a stop returns there are no users, and none can begin before the next start()
      resumes the callbacks, however late they are. */
  lemma StoppedPipelineIsUnused(prompt: bool, before: seq<Step>, after: seq<Step>)
    requires Runs(Init(prompt), before) && NeverErases(Init(prompt), before)
    requires Enabled(Exec(Init(prompt), before), SpinReturns)
    requires Runs(Apply(Exec(Init(prompt), before), SpinReturns), after) && NeverResumes(after)
    ensures Exec(Init(prompt), before).use.users == {}
    ensures Exec(Apply(Exec(Init(prompt), before), SpinReturns), after).use.users == {}
  {
    var v := Exec(Init(prompt), before);
    RunAgreesUnlessErasing(Init(prompt), before);
    CountIsUsers(v.use);
    AgreementBreaksOnlyByErasing(v, SpinReturns);
    NobodyBeginsWhileStopped(Apply(v, SpinReturns), after);
  }

  // ---------------------------------------------------------------------------------------------
  // With prompt callbacks
  // ---------------------------------------------------------------------------------------------

  /** Once the callbacks of a pipeline are cleared, those still there are counted; when the pipeline is
      gone there are none. */
  ghost predicate PromptInv(v: Vars) {
    && v.prompt
    && (!v.hooked ==> NoneUncounted(v.use))
    && (!v.active ==> v.use.users == {})
  }

  lemma PromptStep(v: Vars, s: Step)
    requires Inv(v) && PromptInv(v) && Enabled(v, s)
    ensures Inv(Apply(v, s)) && PromptInv(Apply(v, s))
  {
    AgreementBreaksOnlyByErasing(v, s);
    CountIsUsers(v.use);
    if s.Callback? {
      PromptCallback(v, s.op);
    }
  }

  lemma PromptCallback(v: Vars, op: OpStep)
    requires Inv(v) && PromptInv(v) && Enabled(v, Callback(op))
    ensures !v.hooked ==> NoneUncounted(OpApply(v.use, op))
    ensures !v.active ==> OpApply(v.use, op).users == {}
  {
  }

  /** With prompt callbacks resumeCallbacks() never erases a live user, on any start, stop or failed
      start: in every run the word is 2^63 * stopped + users. */
  lemma {:induction false} PromptRunAgrees(v: Vars, steps: seq<Step>)
    requires Inv(v) && PromptInv(v) && Runs(v, steps)
    ensures Inv(Exec(v, steps)) && PromptInv(Exec(v, steps))
    decreases |steps|
  {
    if steps != [] {
      PromptStep(v, steps[0]);
      PromptRunAgrees(Apply(v, steps[0]), steps[1..]);
    }
  }

  /** With prompt callbacks nothing is under way at all while there is no pipeline. */
  lemma NothingIsUnderWayWithoutPipeline(steps: seq<Step>)
    requires Runs(Init(true), steps) && !Exec(Init(true), steps).active
    ensures Exec(Init(true), steps).use.users == {}
    ensures Exec(Init(true), steps).use.ops == map[]
  {
    PromptRunAgrees(Init(true), steps);
    var u := Exec(Init(true), steps).use;
    assert forall o: OpId :: o in u.ops ==> o in u.users;
    assert u.ops.Keys == {};
  }

  // ---------------------------------------------------------------------------------------------
  // With late callbacks
  // ---------------------------------------------------------------------------------------------

  lemma {:induction false} Extend(init: Vars, steps: seq<Step>, v: Vars, s: Step) returns (more: seq<Step>, w: Vars)
    requires Runs(init, steps) && Exec(init, steps) == v && Enabled(v, s)
    ensures more == steps + [s] && Runs(init, more) && w == Exec(init, more) == Apply(v, s)
    decreases |steps|
  {
    more, w := steps + [s], Apply(v, s);
    if steps == [] {
      assert Exec(w, []) == w;
    } else {
      var rest, _ := Extend(Apply(init, steps[0]), steps[1..], v, s);
      assert more[1..] == rest;
    }
  }

  /** A callback enters a pipeline, is late to count itself, and start() replaces the pipeline. */
  lemma LateCallbackOutlivesStop() returns (steps: seq<Step>, v: Vars)
    ensures Runs(Init(false), steps) && v == Exec(Init(false), steps)
    ensures v == Vars(false, Use(0, map[0 := Raw], {}), Launching, false, false)
  {
    var init := Init(false);
    steps, v := Extend(init, [], init, Start);
    steps, v := Extend(init, steps, v, Resume);
    steps, v := Extend(init, steps, v, Launch(true));
    steps, v := Extend(init, steps, v, Play(true));
    steps, v := Extend(init, steps, v, Callback(Call(0)));
    assert v == Vars(false, Use(0, map[0 := Raw], {}), Resting, true, true);
    steps, v := Extend(init, steps, v, Start);
    steps, v := Extend(init, steps, v, ClearCallbacks);
    steps, v := Extend(init, steps, v, SetStopBit);
    steps, v := Extend(init, steps, v, SpinReturns);
    steps, v := Extend(init, steps, v, Resume);
  }

  /** Without that assumption a live user can be erased: the restart fails to build, the late callback
      counts itself on the resumed word, and the next start() stores 0 while it is inside. When it
      leaves, the decrement borrows from the stop bit. */
  lemma LateCallbackIsErased()
    ensures exists steps: seq<Step> ::
              && Runs(Init(false), steps)
              && Exec(Init(false), steps).use == Use(WORDS - 1, map[], {})
  {
    var init := Init(false);
    var steps, v := LateCallbackOutlivesStop();
    steps, v := Extend(init, steps, v, Launch(false));
    steps, v := Extend(init, steps, v, Callback(Load(0)));
    steps, v := Extend(init, steps, v, Callback(Exchange(0, false)));
    steps, v := Extend(init, steps, v, Start);
    assert v.use == Use(1, map[0 := Using], {0});
    steps, v := Extend(init, steps, v, Resume);
    steps, v := Extend(init, steps, v, Callback(End(0)));
    assert v.use.ops == map[] && v.use.users == {};
  }

  /** Whether a run of the steps leads from v to w. */
  ghost predicate Leads(v: Vars, w: Vars) {
    exists steps: seq<Step> :: Runs(v, steps) && Exec(v, steps) == w
  }

  // ---------------------------------------------------------------------------------------------
  // The pipeline object
  // ---------------------------------------------------------------------------------------------

  /** start() and stop() while callbacks, late ones too, come and go. Each call is a run of the steps
      above; what the callbacks do while a stop spins comes turn by turn. */
  class GStreamerPipeline {
    var callbackState: Word
    var ops: map<OpId, OpPc>
    var users: set<OpId>
    var hooked: bool
    var active: bool
    ghost var ctl: Control

    ghost function Abs(): Vars
      reads this
    {
      Vars(false, Use(callbackState, ops, users), ctl, hooked, active)
    }

    /** Between two calls. */
    ghost predicate Valid()
      reads this
    {
      Inv(Abs()) && ctl.Resting?
    }

    constructor ()
      ensures Valid() && Abs() == Init(false)
    {
      callbackState, ops, users, hooked, active, ctl := 0, map[], {}, false, false, Resting;
    }

    /** Raw callbacks go on, each step if it is possible. */
    method Interfere(turn: seq<OpStep>, ghost init: Vars, ghost steps: seq<Step>) returns (ghost more: seq<Step>)
      requires Runs(init, steps) && Exec(init, steps) == Abs()
      modifies this`callbackState, this`ops, this`users
      ensures Runs(init, more) && Exec(init, more) == Abs()
      ensures Inv(old(Abs())) ==> Inv(Abs())
      ensures Inv(old(Abs())) && IsStopped(old(callbackState)) ==> IsStopped(callbackState) && users <= old(users)
    {
      more := steps;
      for i := 0 to |turn|
        invariant Runs(init, more) && Exec(init, more) == Abs()
        invariant Inv(old(Abs())) ==> Inv(Abs())
        invariant Inv(old(Abs())) && IsStopped(old(callbackState)) ==> IsStopped(callbackState) && users <= old(users)
      {
        if OpEnabled(Use(callbackState, ops, users), turn[i]) && (turn[i].Call? ==> hooked) {
          more := OneStep(turn[i], init, more);
        }
      }
    }

    method OneStep(op: OpStep, ghost init: Vars, ghost steps: seq<Step>) returns (ghost more: seq<Step>)
      requires Runs(init, steps) && Exec(init, steps) == Abs() && Enabled(Abs(), Callback(op))
      modifies this`callbackState, this`ops, this`users
      ensures Runs(init, more) && Exec(init, more) == Abs()
      ensures Inv(old(Abs())) ==> Inv(Abs())
      ensures Inv(old(Abs())) && IsStopped(old(callbackState)) ==> IsStopped(callbackState) && users <= old(users)
    {
      if Inv(Abs()) {
        AgreementBreaksOnlyByErasing(Abs(), Callback(op));
        OpKeeps(Abs().use, op);
      }
      ghost var reached;
      more, reached := Extend(init, steps, Abs(), Callback(op));
      var u := OpApply(Use(callbackState, ops, users), op);
      callbackState, ops, users := u.word, u.ops, u.users;
    }

    /** stop() past its first test: the callbacks are cleared and the stop bit is set. */
    method ClearAndFlag(ghost init: Vars, ghost steps: seq<Step>) returns (ghost more: seq<Step>)
      requires ctl.Clearing? && Runs(init, steps) && Exec(init, steps) == Abs()
      modifies this`callbackState, this`hooked, this`ctl
      ensures Runs(init, more) && Exec(init, more) == Abs()
      ensures !hooked && IsStopped(callbackState) && ctl == Spinning(old(ctl).again)
      ensures callbackState == FetchOr(old(callbackState))
      ensures Inv(old(Abs())) ==> Inv(Abs())
    {
      if Inv(Abs()) {
        StopKeeps(Abs().use);
      }
      ghost var reached;
      more, reached := Extend(init, steps, Abs(), ClearCallbacks);
      hooked, ctl := false, Flagging(ctl.again);
      more, reached := Extend(init, more, Abs(), SetStopBit);
      callbackState, ctl := FetchOr(callbackState), Spinning(ctl.again);
    }

    /** It spins until no callback is counted. Not `returned` means that it is still spinning when the turns
        are over. */
    method Spin(turns: seq<seq<OpStep>>, ghost init: Vars, ghost steps: seq<Step>)
      returns (returned: bool, ghost more: seq<Step>)
      requires ctl.Spinning? && Runs(init, steps) && Exec(init, steps) == Abs()
      modifies this
      ensures Runs(init, more) && Exec(init, more) == Abs()
      ensures hooked == old(hooked)
      ensures returned ==> !active && ctl == if old(ctl).again then Resuming(true) else Resting
      ensures !returned ==> active == old(active) && ctl == old(ctl)
      ensures Inv(old(Abs())) ==> Inv(Abs()) && IsStopped(callbackState) && users <= old(users)
      ensures Inv(old(Abs())) ==> (returned <==> users == {})
      ensures Count(old(callbackState)) == 0 ==> returned && callbackState == old(callbackState) && users == old(users)
    {
      more := steps;
      var i := 0;
      while Count(callbackState) != 0 && i < |turns|
        invariant Runs(init, more) && Exec(init, more) == Abs()
        invariant hooked == old(hooked) && active == old(active) && ctl == old(ctl)
        invariant i == 0 ==> callbackState == old(callbackState) && users == old(users)
        invariant i > 0 ==> Count(old(callbackState)) != 0
        invariant Inv(old(Abs())) ==> Inv(Abs()) && IsStopped(callbackState) && users <= old(users)
        decreases |turns| - i
      {
        more := Interfere(turns[i], init, more);
        i := i + 1;
      }
      returned := Count(callbackState) == 0;
      if Inv(Abs()) {
        CountIsUsers(Abs().use);
      }
      if returned {
        ghost var reached;
        more, reached := Extend(init, more, Abs(), SpinReturns);
        active, ctl := false, if ctl.again then Resuming(true) else Resting;
      }
    }

    method Stop(turns: seq<seq<OpStep>>) returns (returned: bool)
      requires Valid()
      modifies this
      ensures Inv(Abs()) && Leads(old(Abs()), Abs())
      ensures !old(active) ==> returned && Abs() == old(Abs())
      ensures old(active) ==> !hooked && IsStopped(callbackState) && users <= old(users)
      ensures old(active) ==> (returned <==> users == {})
      ensures returned ==> Valid() && !active
    {
      ghost var init := Abs();
      ghost var steps, reached := Extend(init, [], init, Step.Stop);
      if !active {
        return true;
      }
      ctl := Clearing(false);
      steps := ClearAndFlag(init, steps);
      returned, steps := Spin(turns, init, steps);
    }

    /** The first part of start(): stop what is there, and resume the callbacks. */
    method StopAndResume(turns: seq<seq<OpStep>>, ghost init: Vars) returns (returned: bool, ghost steps: seq<Step>)
      requires Valid() && Abs() == init
      modifies this
      ensures Runs(init, steps) && Exec(init, steps) == Abs()
      ensures !returned ==> init.active && Inv(Abs()) && ctl == Spinning(true)
      ensures returned ==> ctl == Launching && callbackState == 0 && !active && !hooked
      ensures returned ==> users == if init.active then {} else init.use.users
      ensures returned ==> (Inv(Abs()) <==> users == {})
    {
      ghost var reached;
      steps, reached := Extend(init, [], init, Step.Start);
      if active {
        ctl := Clearing(true);
        steps := ClearAndFlag(init, steps);
        returned, steps := Spin(turns, init, steps);
        if !returned {
          return;
        }
      } else {
        ctl := Resuming(false);
      }
      steps, reached := Extend(init, steps, Abs(), Step.Resume);
      callbackState, ctl := 0, Launching;
      returned := true;
    }

    /** The second part: build the pipeline and play it; what fails to play is stopped again. `built` and
        `plays` are the outcomes of gst_parse_launch and of the change to PLAYING. */
    method LaunchAndPlay(built: bool, plays: bool, undo: seq<seq<OpStep>>, ghost init: Vars, ghost before: seq<Step>)
      returns (returned: bool, ghost steps: seq<Step>)
      requires ctl == Launching && callbackState == 0 && !active && !hooked && (Inv(Abs()) <==> users == {})
      requires Runs(init, before) && Exec(init, before) == Abs()
      modifies this
      ensures Runs(init, steps) && Exec(init, steps) == Abs()
      ensures returned && ctl.Resting? && active == hooked == (built && plays) && users == old(users)
      ensures callbackState == if built && !plays then STOP_BIT else 0
      ensures Inv(Abs()) <==> users == {}
    {
      ghost var reached;
      steps, reached := Extend(init, before, Abs(), Launch(built));
      returned := true;
      if !built {
        ctl := Resting;
        return;
      }
      hooked, active, ctl := true, true, Playing;
      steps, reached := Extend(init, steps, Abs(), Play(plays));
      if plays {
        ctl := Resting;
        return;
      }
      ctl := Clearing(false);
      steps := ClearAndFlag(init, steps);
      returned, steps := Spin(undo, init, steps);
    }

    /** A start() loses the users of its word exactly if it finds no pipeline while late callbacks are
        inside. */
    method Start(turns: seq<seq<OpStep>>, built: bool, plays: bool, undo: seq<seq<OpStep>>)
      returns (returned: bool, ok: bool)
      requires Valid()
      modifies this
      ensures Leads(old(Abs()), Abs())
      ensures returned ==> ctl.Resting? && active == hooked == ok == (built && plays)
      ensures returned ==> users == if old(active) then {} else old(users)
      ensures returned ==> callbackState == if built && !plays then STOP_BIT else 0
      ensures Inv(Abs()) <==> old(active) || old(users) == {}
    {
      ghost var init := Abs();
      ghost var steps: seq<Step>;
      returned, steps := StopAndResume(turns, init);
      ok := false;
      if !returned {
        return;
      }
      returned, steps := LaunchAndPlay(built, plays, undo, init, steps);
      ok := built && plays;
    }
  }
}
