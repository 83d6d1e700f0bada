/**
 * The session `main` runs once the descriptor is open: create the device,
 * poll stdin and the device until something ends the loop, then destroy
 * the device. `SessionSpec` is its meaning over plain values, with the
 * kernel, the terminal and poll(2) given as oracles; the `Run` method is
 * proved to follow it. The loop of `main` has no bound; here it gets a
 * `fuel` number of iterations, after which the session is reported as
 * still running.
 */
module Session {
  import opened Basics
  import opened Report
  import opened Protocol
  import opened Channel
  import opened Keyboard

  /** The POLLHUP and POLLIN bits of one `revents`. */
  datatype Revents = Revents(hup: bool, pollin: bool)

  /** What poll(2) on stdin and the uhid descriptor did. */
  datatype PollOutcome = PollFailed(errno: Errno) | Polled(stdin: Revents, uhid: Revents)

  /** The oracles the session runs against. */
  datatype Env = Env(frameSize: nat, writeOutcome: nat -> WriteOutcome, readOutcome: nat -> ReadOutcome,
                     keys: nat -> StdinOutcome, poll: nat -> PollOutcome)

  /** Everything the session changes. */
  datatype World = World(mouse: MouseState, written: seq<Frame>, uhidReads: nat, closed: bool, stdinReads: nat)

  /** The value a handler returned and the world it left. */
  datatype Step = Step(ret: int, world: World)

  /** The meaning of one call of `keyboard`. */
  function KeyboardStep(env: Env, w: World): (r: Step)
    ensures r.world.stdinReads == w.stdinReads + 1 && r.world.uhidReads == w.uhidReads
    ensures r.world.closed == w.closed
    ensures r.ret <= 0
  {
    var w1 := w.(stdinReads := w.stdinReads + 1);
    match env.keys(w.stdinReads)
    case StdinFailed(e) => Step(-(e as int), w1)
    case Keys(buf) =>
      if |buf| == 0 then Step(-EFAULT, w1)
      else
        var o := Interpret(buf, w.mouse, env.writeOutcome, |w.written|, env.frameSize);
        Step(o.ret, w1.(mouse := o.state, written := w.written + o.frames))
  }

  /** The meaning of one call of `event`. */
  function EventStep(env: Env, w: World): (r: Step)
    ensures r.world == w.(uhidReads := w.uhidReads + 1)
    ensures r.ret == 0 <==> env.readOutcome(w.uhidReads).ReadFrame? && env.readOutcome(w.uhidReads).count == env.frameSize != 0
    ensures r.ret <= 0
  {
    Step(EventStatus(env.readOutcome(w.uhidReads), env.frameSize), w.(uhidReads := w.uhidReads + 1))
  }

  /** Why the loop of `main` was left. */
  datatype Break = PollError | StdinHup | UhidHup | KeyboardError(code: int) | EventError(code: int)

  /** The outcome of one iteration: a reason to leave the loop, or none. */
  datatype Iter = Iter(stop: Option<Break>, world: World)

  /** One iteration of the loop of `main`, after poll(2) returned `p`. */
  function Iteration(env: Env, w: World, p: PollOutcome): (r: Iter)
    ensures r.world.stdinReads <= w.stdinReads + 1 && r.world.uhidReads <= w.uhidReads + 1
    ensures r.stop.None? ==>
      && p.Polled? && !p.stdin.hup && !p.uhid.hup
      && r.world.stdinReads == w.stdinReads + (if p.stdin.pollin then 1 else 0)
      && r.world.uhidReads == w.uhidReads + (if p.uhid.pollin then 1 else 0)
  {
    match p
    case PollFailed(_) => Iter(Some(PollError), w)
    case Polled(si, ui) =>
      if si.hup then Iter(Some(StdinHup), w)
      else if ui.hup then Iter(Some(UhidHup), w)
      else
        var k := if si.pollin then KeyboardStep(env, w) else Step(0, w);
        if k.ret != 0 then Iter(Some(KeyboardError(k.ret)), k.world)
        else
          var e := if ui.pollin then EventStep(env, k.world) else Step(0, k.world);
          if e.ret != 0 then Iter(Some(EventError(e.ret)), e.world)
          else Iter(None, e.world)
  }

  datatype LoopEnd = Broke(reason: Break) | OutOfFuel

  datatype LoopResult = LoopResult(end: LoopEnd, world: World)

  /** At most `fuel` iterations of the loop, the `k`-th poll next. */
  function Loop(env: Env, w: World, k: nat, fuel: nat): (r: LoopResult)
    ensures r.world.stdinReads <= w.stdinReads + fuel && r.world.uhidReads <= w.uhidReads + fuel
    ensures r.end.Broke? ==> fuel > 0
    decreases fuel
  {
    if fuel == 0 then LoopResult(OutOfFuel, w)
    else
      var it := Iteration(env, w, env.poll(k));
      if it.stop.Some? then LoopResult(Broke(it.stop.value), it.world)
      else Loop(env, it.world, k + 1, fuel - 1)
  }

  /** EXIT_FAILURE, EXIT_SUCCESS, or a loop still going when the fuel ran out. */
  datatype Verdict = ExitFailure | ExitSuccess | StillRunning

  datatype SessionResult = SessionResult(verdict: Verdict, world: World)

  /** The meaning of `main` from the create request on. */
  function SessionSpec(env: Env, w: World, fuel: nat): (r: SessionResult)
    ensures r.verdict == ExitFailure <==> WriteStatus(env.writeOutcome(|w.written|), env.frameSize) != 0
    ensures r.world.stdinReads <= w.stdinReads + fuel && r.world.uhidReads <= w.uhidReads + fuel
  {
    var created := w.(written := w.written + [CreateFrame()]);
    if WriteStatus(env.writeOutcome(|w.written|), env.frameSize) != 0 then
      SessionResult(ExitFailure, created.(closed := true))
    else
      var l := Loop(env, created, 0, fuel);
      match l.end
      case OutOfFuel => SessionResult(StillRunning, l.world)
      case Broke(_) => SessionResult(ExitSuccess, l.world.(written := l.world.written + [Destroy]))
  }

  /** `w'` extends the frame log of `w` by input frames only, and keeps the descriptor open or closed as it was. */
  predicate AppendsInputs(w: World, w': World)
  {
    && |w.written| <= |w'.written|
    && w'.written[..|w.written|] == w.written
    && (forall i :: |w.written| <= i < |w'.written| ==> w'.written[i].Input?)
    && w'.closed == w.closed
  }

  /** `keyboard` writes only input frames and leaves no pulse pending. */
  lemma KeyboardStepFacts(env: Env, w: World)
    ensures var r := KeyboardStep(env, w).world;
      && AppendsInputs(w, r)
      && (AtRest(w.mouse) ==> AtRest(r.mouse))
  {
    match env.keys(w.stdinReads)
    case StdinFailed(_) =>
    case Keys(buf) =>
      if |buf| != 0 {
        var o := Interpret(buf, w.mouse, env.writeOutcome, |w.written|, env.frameSize);
        if AtRest(w.mouse) {
          InterpretKeepsRest(buf, w.mouse, env.writeOutcome, |w.written|, env.frameSize);
        }
        var r := KeyboardStep(env, w).world;
        forall i | |w.written| <= i < |r.written|
          ensures r.written[i].Input?
        {
          assert r.written[i] == o.frames[i - |w.written|];
        }
      }
  }

  /** A failed poll or a hang-up on either descriptor ends the loop before anything is read. */
  lemma IterationHup(env: Env, w: World, p: PollOutcome)
    requires p.PollFailed? || p.stdin.hup || p.uhid.hup
    ensures Iteration(env, w, p).stop.Some? && Iteration(env, w, p).world == w
  {
  }

  /**
   * With both descriptors readable, stdin is handled first, and the device
   * is read exactly when `keyboard` returned zero; a nonzero result of
   * either handler ends the loop with that result as the reason.
   */
  lemma IterationOrder(env: Env, w: World, p: PollOutcome)
    requires p.Polled? && !p.stdin.hup && !p.uhid.hup && p.stdin.pollin && p.uhid.pollin
    ensures var it := Iteration(env, w, p);
      var k := KeyboardStep(env, w);
      && it.world.stdinReads == w.stdinReads + 1
      && (it.world.uhidReads == w.uhidReads + 1 <==> k.ret == 0)
      && (k.ret != 0 ==> it.stop == Some(KeyboardError(k.ret)) && it.world == k.world)
      && (k.ret == 0 ==> it.world.mouse == k.world.mouse && it.world.written == k.world.written)
      && (it.stop.None? <==> k.ret == 0 && EventStep(env, k.world).ret == 0)
  {
    KeyboardStepFacts(env, w);
  }

  /** One iteration reads each descriptor at most once and writes only input frames. */
  lemma IterationFacts(env: Env, w: World, p: PollOutcome)
    ensures var r := Iteration(env, w, p).world;
      && AppendsInputs(w, r)
      && (AtRest(w.mouse) ==> AtRest(r.mouse))
  {
    if p.Polled? && !p.stdin.hup && !p.uhid.hup {
      var k := if p.stdin.pollin then KeyboardStep(env, w) else Step(0, w);
      KeyboardStepFacts(env, w);
    }
  }

  /** The loop writes nothing but input frames and never leaves pulses pending. */
  lemma {:induction false} LoopFacts(env: Env, w: World, k: nat, fuel: nat)
    ensures var r := Loop(env, w, k, fuel).world;
      && AppendsInputs(w, r)
      && (AtRest(w.mouse) ==> AtRest(r.mouse))
    decreases fuel
  {
    if fuel > 0 {
      var it := Iteration(env, w, env.poll(k));
      IterationFacts(env, w, env.poll(k));
      if it.stop.None? {
        LoopFacts(env, it.world, k + 1, fuel - 1);
        var r := Loop(env, w, k, fuel).world;
        assert r.written[..|it.world.written|] == it.world.written;
        assert r.written[..|w.written|] == it.world.written[..|w.written|];
      }
    }
  }

  /**
   * The frames of a session: one create request first; if it failed, nothing
   * else and the descriptor closed; otherwise only input reports, followed
   * by exactly one destroy request when the loop ended.
   */
  lemma SessionFrames(env: Env, w: World, fuel: nat)
    ensures var r := SessionSpec(env, w, fuel);
      && |w.written| < |r.world.written|
      && r.world.written[..|w.written|] == w.written
      && r.world.written[|w.written|] == CreateFrame()
      && (r.verdict == ExitFailure ==> |r.world.written| == |w.written| + 1 && r.world.closed)
      && (r.verdict == ExitSuccess ==>
            && |r.world.written| >= |w.written| + 2
            && r.world.written[|r.world.written| - 1] == Destroy
            && (forall i :: |w.written| < i < |r.world.written| - 1 ==> r.world.written[i].Input?))
      && (r.verdict == StillRunning ==>
            forall i :: |w.written| < i < |r.world.written| ==> r.world.written[i].Input?)
      && (r.verdict != ExitFailure ==> r.world.closed == w.closed)
  {
    var created := w.(written := w.written + [CreateFrame()]);
    if WriteStatus(env.writeOutcome(|w.written|), env.frameSize) == 0 {
      LoopFacts(env, created, 0, fuel);
      var l := Loop(env, created, 0, fuel);
      assert l.world.written[..|created.written|] == created.written;
      assert l.world.written[|w.written|] == created.written[|w.written|];
      var r := SessionSpec(env, w, fuel);
      assert r.world.written[..|l.world.written|] == l.world.written;
    }
  }

  /** A session started from the zeroed globals never leaves a pulse pending. */
  lemma SessionKeepsRest(env: Env, w: World, fuel: nat)
    requires AtRest(w.mouse)
    ensures AtRest(SessionSpec(env, w, fuel).world.mouse)
  {
    var created := w.(written := w.written + [CreateFrame()]);
    LoopFacts(env, created, 0, fuel);
  }

  /** The environment the objects stand for. */
  function EnvOf(fd: UhidDevice, term: Terminal, poll: nat -> PollOutcome): (env: Env)
  {
    Env(fd.frameSize, fd.writeOutcome, fd.readOutcome, term.input, poll)
  }

  /** The world the objects hold. */
  ghost function WorldOf(fd: UhidDevice, term: Terminal, mouse: Mouse): (w: World)
    reads fd, term, mouse
  {
    World(mouse.State(), fd.written, fd.readCount, fd.closed, term.readCount)
  }

  /**
   * One turn of the loop of `main`, after poll(2) returned `p`: `stop` says
   * whether it breaks out of the loop.
   */
  method Turn(fd: UhidDevice, term: Terminal, mouse: Mouse, p: PollOutcome, ghost poll: nat -> PollOutcome) returns (stop: bool)
    modifies fd, term, mouse
    ensures var it := Iteration(EnvOf(fd, term, poll), old(WorldOf(fd, term, mouse)), p);
      stop == it.stop.Some? && WorldOf(fd, term, mouse) == it.world
  {
    if p.PollFailed? || p.stdin.hup || p.uhid.hup {
      return true;
    }
    var ret;
    if p.stdin.pollin {
      ret := mouse.Keyboard(fd, term);
      if ret != 0 {
        return true;
      }
    }
    if p.uhid.pollin {
      var notice;
      ret, notice := fd.Event();
      if ret != 0 {
        return true;
      }
    }
    stop := false;
  }

  /**
   * `main` from `create` on, over an open descriptor `fd`, stdin `term`,
   * the globals `mouse` and the outcomes `poll` of successive poll(2) calls.
   */
  method Run(fd: UhidDevice, term: Terminal, mouse: Mouse, poll: nat -> PollOutcome, fuel: nat)
    returns (verdict: Verdict)
    modifies fd, term, mouse
    ensures SessionResult(verdict, WorldOf(fd, term, mouse))
         == SessionSpec(EnvOf(fd, term, poll), old(WorldOf(fd, term, mouse)), fuel)
  {
    ghost var env := EnvOf(fd, term, poll);
    var ret := fd.CreateDevice();
    if ret != 0 {
      fd.Close();
      return ExitFailure;
    }
    ghost var start := WorldOf(fd, term, mouse);
    var k := 0;
    var stopped := false;
    while k < fuel
      invariant 0 <= k <= fuel
      invariant Loop(env, start, 0, fuel) == Loop(env, WorldOf(fd, term, mouse), k, fuel - k)
      decreases fuel - k
    {
      stopped := Turn(fd, term, mouse, poll(k), poll);
      if stopped {
        break;
      }
      k := k + 1;
    }
    if !stopped {
      return StillRunning;
    }
    fd.DestroyDevice();
    verdict := ExitSuccess;
  }
}
