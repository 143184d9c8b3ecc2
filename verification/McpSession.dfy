/** One task owns the SDK contexts of an MCP session while callers come and go
    (adapters/mcp_python_sdk_client.py). Every stretch of code between two awaits is
    one atomic step, and steps of all tasks interleave freely. */
module McpSession {
  import opened Common

  // ---- the owner and its callers -------------------------------------------

  datatype SdkContext = Transport | Session

  /** Where the owner task is suspended. */
  datatype OwnerPhase = Created | EnteringTransport | EnteringSession | Initializing | Serving | Exiting | Done

  /** `_session_client`: waiting for readiness, joining a cancelled start, or over. */
  datatype StarterPhase = WaitingReady | JoiningStart | Returned | Failed

  /** `aclose`: joining the owner, or over. */
  datatype CloserPhase = JoiningClose | Closed

  /** What the run has done so far, oldest first. */
  datatype Event = Enter(c: SdkContext) | Exit(c: SdkContext) | Dispatched | CloseRequested | TornDown

  datatype Client = Client(
    owner: OwnerPhase,
    entered: seq<SdkContext>,
    session: bool,
    ready: bool,
    stop: bool,
    closing: bool,
    tearingDown: bool,
    cancelled: bool,
    served: bool,
    starter: StarterPhase,
    closers: map<nat, CloserPhase>,
    log: seq<Event>)

  const NEW_CLIENT :=
    Client(Created, [], false, false, false, false, false, false, false, WaitingReady, map[], [])

  /** `ok == false` is an error or a cancellation raised at the await; an owner that its
      starter has cancelled does not get past the await otherwise. */
  datatype Step =
    | OwnerStarts
    | OwnerCancelledUnstarted
    | TransportEntered(ok: bool)
    | SessionEntered(ok: bool)
    | Initialized(ok: bool)
    | StopServing(ok: bool)
    | ContextExited
    | StarterResumes
    | StarterCancelled
    | StarterJoined
    | CloseCalled(closer: nat)
    | CloserCancelled(closer: nat)
    | CloserJoined(closer: nat)
    | ToolCalled

  /** `_require_session` passes. */
  predicate SessionAvailable(c: Client)
  {
    !c.closing && c.session && c.owner != Done
  }

  predicate Enabled(c: Client, step: Step)
  {
    match step
    case OwnerStarts => c.owner == Created && !c.cancelled
    case OwnerCancelledUnstarted => c.owner == Created
    case TransportEntered(ok) => c.owner == EnteringTransport && (ok ==> !c.cancelled)
    case SessionEntered(ok) => c.owner == EnteringSession && (ok ==> !c.cancelled)
    case Initialized(ok) => c.owner == Initializing && (ok ==> !c.cancelled)
    case StopServing(ok) => c.owner == Serving && (ok ==> c.stop && !c.cancelled)
    case ContextExited => c.owner == Exiting
    case StarterResumes => c.starter == WaitingReady && c.ready
    case StarterCancelled => c.starter == WaitingReady || c.starter == JoiningStart
    case StarterJoined => c.starter == JoiningStart && c.owner == Done
    case CloseCalled(k) => c.starter == Returned && k !in c.closers
    case CloserCancelled(k) => k in c.closers && c.closers[k] == JoiningClose
    case CloserJoined(k) => k in c.closers && c.closers[k] == JoiningClose && c.owner == Done
    case ToolCalled => c.starter == Returned && SessionAvailable(c)
  }

  /** Leaving the body of the owner: the inner `finally`, then the exit stack; with
      nothing entered the owner ends. */
  function Unwind(c: Client): (r: Client)
  {
    var torn := c.(tearingDown := true, session := false, log := c.log + [TornDown]);
    if c.entered == [] then Finish(torn) else torn.(owner := Exiting)
  }

  /** The outer `finally`: readiness is released even when starting failed. */
  function Finish(c: Client): (r: Client)
  {
    c.(owner := Done, session := false, ready := true)
  }

  function Push(c: Client, context: SdkContext, next: OwnerPhase): (r: Client)
  {
    c.(owner := next, entered := c.entered + [context], log := c.log + [Enter(context)])
  }

  function Next(c: Client, step: Step): (r: Client)
    requires Enabled(c, step)
  {
    match step
    case OwnerStarts => c.(owner := EnteringTransport)
    case OwnerCancelledUnstarted => c.(owner := Done)
    case TransportEntered(ok) => if ok then Push(c, Transport, EnteringSession) else Unwind(c)
    case SessionEntered(ok) => if ok then Push(c, Session, Initializing) else Unwind(c)
    case Initialized(ok) =>
      if ok then c.(owner := Serving, session := true, ready := true, served := true) else Unwind(c)
    case StopServing(_) => Unwind(c)
    case ContextExited =>
      var n := if c.entered == [] then 0 else |c.entered| - 1;
      if c.entered == [] then Finish(c)
      else
        var r := c.(entered := c.entered[..n], log := c.log + [Exit(c.entered[n])]);
        if n == 0 then Finish(r) else r
    case StarterResumes => c.(starter := if !c.session || c.owner == Done then Failed else Returned)
    case StarterCancelled =>
      c.(starter := JoiningStart, cancelled := c.cancelled || (c.starter == WaitingReady && !c.tearingDown))
    case StarterJoined => c.(starter := Failed)
    case CloseCalled(k) =>
      c.(closing := true, stop := true, closers := c.closers[k := JoiningClose], log := c.log + [CloseRequested])
    case CloserCancelled(k) => c
    case CloserJoined(k) => c.(closers := c.closers[k := Closed])
    case ToolCalled => c.(log := c.log + [Dispatched])
  }

  ghost predicate Moves(before: Client, step: Step, after: Client)
  {
    Enabled(before, step) && after == Next(before, step)
  }

  ghost predicate Reaches(steps: seq<Step>, c: Client)
  {
    if steps == [] then c == NEW_CLIENT
    else
      var init, last := steps[..|steps| - 1], steps[|steps| - 1];
      exists before :: Reaches(init, before) && Moves(before, last, c)
  }

  // ---- the object ----------------------------------------------------------

  /** The client's fields, with the state of its owner and callers as ghosts. */
  class WrappedMCPClient {
    var session: bool
    var ready: bool
    var stop: bool
    var closing: bool
    var tearingDown: bool
    var entered: seq<SdkContext>
    var owner: OwnerPhase
    var cancelled: bool
    ghost var served: bool
    ghost var starter: StarterPhase
    ghost var closers: map<nat, CloserPhase>
    ghost var log: seq<Event>

    ghost function View(): Client
      reads this
    {
      Client(owner, entered, session, ready, stop, closing, tearingDown, cancelled, served, starter, closers, log)
    }

    constructor ()
      ensures View() == NEW_CLIENT
    {
      session, ready, stop, closing, tearingDown := false, false, false, false, false;
      entered, owner, cancelled := [], Created, false;
      served, starter, closers, log := false, WaitingReady, map[], [];
    }

    /** The inner `finally` of `_run`, up to the first context to be exited. */
    method TearDown()
      modifies this`tearingDown, this`session, this`owner, this`ready, this`log
      ensures View() == Unwind(old(View()))
    {
      tearingDown, session := true, false;
      log := log + [TornDown];
      if entered == [] {
        EndOwner();
      } else {
        owner := Exiting;
      }
    }

    /** The outer `finally` of `_run`. */
    method EndOwner()
      modifies this`session, this`owner, this`ready
      ensures View() == Finish(old(View()))
    {
      session := false;
      if !ready {
        ready := true;
      }
      owner := Done;
    }

    /** `enter_async_context` is over for one of the two contexts. */
    method Entered(context: SdkContext, ok: bool)
      requires owner == (if context == Transport then EnteringTransport else EnteringSession) && (ok ==> !cancelled)
      modifies this`tearingDown, this`session, this`owner, this`ready, this`entered, this`log
      ensures View() == Next(old(View()), if context == Transport then TransportEntered(ok) else SessionEntered(ok))
    {
      if !ok {
        TearDown();
        return;
      }
      entered := entered + [context];
      owner := if context == Transport then EnteringSession else Initializing;
      log := log + [Enter(context)];
    }

    method InitializeEnded(ok: bool)
      requires owner == Initializing && (ok ==> !cancelled)
      modifies this`tearingDown, this`session, this`owner, this`ready, this`served, this`log
      ensures View() == Next(old(View()), Initialized(ok))
    {
      if !ok {
        TearDown();
        return;
      }
      session, ready, owner := true, true, Serving;
      served := true;
    }

    /** The exit stack leaves the context entered last. */
    method ExitContext()
      requires owner == Exiting
      modifies this`session, this`owner, this`ready, this`entered, this`log
      ensures View() == Next(old(View()), ContextExited)
    {
      if entered != [] {
        var n := |entered| - 1;
        log := log + [Exit(entered[n])];
        entered := entered[..n];
      }
      if entered == [] {
        EndOwner();
      }
    }

    /** `_require_session` and what follows it up to the next await. */
    method CallTool() returns (sent: bool)
      requires starter == Returned
      modifies this`log
      ensures sent <==> SessionAvailable(old(View()))
      ensures View() == if sent then Next(old(View()), ToolCalled) else old(View())
    {
      if closing || !session || owner == Done {
        return false;
      }
      log := log + [Dispatched];
      return true;
    }

    /** The caller of `_session_client` is cancelled: the owner is cancelled too, unless it is
        on its way out, and then joined. Later cancellations only go on joining. */
    method CancelStart()
      requires starter == WaitingReady
      modifies this`cancelled, this`starter
      ensures View() == Next(old(View()), StarterCancelled)
      ensures cancelled || tearingDown
    {
      if !tearingDown {
        cancelled := true;
      }
      starter := JoiningStart;
    }

    /** `aclose` up to its first await. */
    method Aclose(ghost closer: nat)
      requires starter == Returned && closer !in closers
      modifies this`closing, this`stop, this`closers, this`log
      ensures View() == Next(old(View()), CloseCalled(closer))
      ensures owner == Serving && !cancelled ==> Enabled(View(), StopServing(true))
    {
      closing, stop := true, true;
      closers := closers[closer := JoiningClose];
      log := log + [CloseRequested];
    }
  }

  // ---- what a log says -----------------------------------------------------

  /** The contexts left open by a log, or nothing if one is exited out of turn. */
  function Open(log: seq<Event>): (stack: Option<seq<SdkContext>>)
  {
    if log == [] then Some([])
    else
      var n := |log| - 1;
      match Open(log[..n])
      case None => None
      case Some(stack) =>
        match log[n]
        case Enter(c) => if c in stack then None else Some(stack + [c])
        case Exit(c) =>
          if stack != [] && stack[|stack| - 1] == c then Some(stack[..|stack| - 1]) else None
        case _ => Some(stack)
  }

  function Count(log: seq<Event>, e: Event): (n: nat)
  {
    if log == [] then 0 else Count(log[..|log| - 1], e) + if log[|log| - 1] == e then 1 else 0
  }

  /** Nothing is dispatched once closing or teardown has begun. */
  ghost predicate QuietAfterClose(log: seq<Event>)
  {
    forall i, j :: 0 <= i < j < |log| && (log[i] == CloseRequested || log[i] == TornDown) ==> log[j] != Dispatched
  }

  // ---- the invariant -------------------------------------------------------

  /** Where the owner stands decides what is open and what callers can see. */
  ghost predicate PhaseInvariant(c: Client)
  {
    EnteredInvariant(c) && FlagInvariant(c) && CallerInvariant(c)
  }

  ghost predicate EnteredInvariant(c: Client)
  {
    && (c.owner == Created || c.owner == EnteringTransport || c.owner == Done ==> c.entered == [])
    && (c.owner == EnteringSession ==> c.entered == [Transport])
    && (c.owner == Initializing || c.owner == Serving ==> c.entered == [Transport, Session])
    && (c.owner == Exiting ==> c.entered == [Transport] || c.entered == [Transport, Session])
  }

  ghost predicate FlagInvariant(c: Client)
  {
    && (c.session <==> c.owner == Serving)
    && (c.tearingDown ==> c.owner == Exiting || c.owner == Done)
    && (c.owner == Exiting ==> c.tearingDown)
    && (c.served ==> c.ready)
    && (c.ready ==> c.served || c.owner == Done)
    && (c.owner == Serving ==> c.served)
    && (c.served ==> c.owner == Serving || c.owner == Exiting || c.owner == Done)
  }

  ghost predicate CallerInvariant(c: Client)
  {
    && (forall k :: k in c.closers && c.closers[k] == Closed ==> c.owner == Done)
    && (c.starter == Failed ==> c.owner == Done || (c.owner == Exiting && c.served))
    && (c.starter == Returned ==> c.served && !c.cancelled)
    && (c.closers != map[] ==> c.starter == Returned)
    && (c.starter == JoiningStart ==> c.cancelled || c.tearingDown)
    && (c.cancelled ==> c.starter == JoiningStart || c.starter == Failed)
  }

  /** The log agrees with the open contexts and with the flags. */
  ghost predicate LogInvariant(c: Client)
  {
    && Open(c.log) == Some(c.entered)
    && Count(c.log, Enter(Transport)) <= (if c.owner == Created || c.owner == EnteringTransport then 0 else 1)
    && Count(c.log, Enter(Session)) <=
         (if c.owner == Created || c.owner == EnteringTransport || c.owner == EnteringSession then 0 else 1)
    && (CloseRequested in c.log ==> c.closing && c.stop)
    && (c.closers != map[] <==> CloseRequested in c.log)
    && (TornDown in c.log ==> c.tearingDown)
    && QuietAfterClose(c.log)
  }

  lemma LogSnoc(log: seq<Event>, e: Event)
    ensures Open(log + [e]) ==
      match Open(log)
      case None => None
      case Some(stack) =>
        match e
        case Enter(c) => if c in stack then None else Some(stack + [c])
        case Exit(c) => if stack != [] && stack[|stack| - 1] == c then Some(stack[..|stack| - 1]) else None
        case _ => Some(stack)
    ensures Count(log + [e], Enter(Transport)) == Count(log, Enter(Transport)) + if e == Enter(Transport) then 1 else 0
    ensures Count(log + [e], Enter(Session)) == Count(log, Enter(Session)) + if e == Enter(Session) then 1 else 0
    ensures QuietAfterClose(log) && (e == Dispatched ==> CloseRequested !in log && TornDown !in log)
            ==> QuietAfterClose(log + [e])
  {
    assert (log + [e])[..|log|] == log && (log + [e])[|log|] == e;
  }

  /** What exiting one context leaves. */
  lemma ExitLeaves(c: Client)
    requires Enabled(c, ContextExited) && EnteredInvariant(c)
    ensures var r := Next(c, ContextExited);
            if c.entered == [Transport] then r.entered == [] && r.owner == Done && r.log == c.log + [Exit(Transport)]
            else c.entered == [Transport, Session] && r.entered == [Transport] && r.owner == Exiting
                 && r.log == c.log + [Exit(Session)]
  {
  }

  lemma UnwindEntered(c: Client)
    requires EnteredInvariant(c) && c.owner != Exiting
    ensures EnteredInvariant(Unwind(c))
  {
  }

  lemma PushEntered(c: Client, step: Step)
    requires Enabled(c, step) && EnteredInvariant(c) && step in [TransportEntered(true), SessionEntered(true)]
    ensures EnteredInvariant(Next(c, step))
  {
    assert [] + [Transport] == [Transport] && [Transport] + [Session] == [Transport, Session];
  }

  lemma EnteredStep(c: Client, step: Step)
    requires Enabled(c, step) && EnteredInvariant(c)
    ensures EnteredInvariant(Next(c, step))
  {
    if step.ContextExited? {
      ExitLeaves(c);
    } else if step in [TransportEntered(true), SessionEntered(true)] {
      PushEntered(c, step);
    } else if step in [TransportEntered(false), SessionEntered(false), Initialized(false)] || step.StopServing? {
      UnwindEntered(c);
    }
  }

  lemma FlagStep(c: Client, step: Step)
    requires Enabled(c, step) && EnteredInvariant(c) && FlagInvariant(c)
    ensures FlagInvariant(Next(c, step))
  {
  }

  /** A step of the owner, as opposed to one of its callers. */
  predicate IsOwnerStep(step: Step)
  {
    || step.OwnerStarts? || step.OwnerCancelledUnstarted? || step.TransportEntered? || step.SessionEntered?
    || step.Initialized? || step.StopServing? || step.ContextExited?
  }

  lemma OwnerKeepsCallers(c: Client, step: Step)
    requires IsOwnerStep(step) && Enabled(c, step) && FlagInvariant(c) && CallerInvariant(c)
    ensures CallerInvariant(Next(c, step))
  {
  }

  lemma CallerStep(c: Client, step: Step)
    requires !IsOwnerStep(step) && Enabled(c, step) && FlagInvariant(c) && CallerInvariant(c)
    ensures CallerInvariant(Next(c, step))
  {
  }

  lemma PhaseStep(c: Client, step: Step)
    requires Enabled(c, step) && PhaseInvariant(c)
    ensures PhaseInvariant(Next(c, step))
  {
    EnteredStep(c, step);
    FlagStep(c, step);
    if IsOwnerStep(step) {
      OwnerKeepsCallers(c, step);
    } else {
      CallerStep(c, step);
    }
  }

  lemma PushKeepsLog(c: Client, step: Step)
    requires (step.TransportEntered? || step.SessionEntered?) && step.ok
    requires Enabled(c, step) && PhaseInvariant(c) && LogInvariant(c)
    ensures LogInvariant(Next(c, step))
  {
    LogSnoc(c.log, if step.TransportEntered? then Enter(Transport) else Enter(Session));
  }

  lemma UnwindKeepsLog(c: Client)
    requires PhaseInvariant(c) && LogInvariant(c)
    ensures LogInvariant(Unwind(c))
  {
    LogSnoc(c.log, TornDown);
  }

  lemma ExitSnoc(log: seq<Event>, stack: seq<SdkContext>, top: SdkContext)
    requires Open(log) == Some(stack + [top]) && QuietAfterClose(log)
    ensures var more := log + [Exit(top)];
            && Open(more) == Some(stack) && QuietAfterClose(more)
            && Count(more, Enter(Transport)) == Count(log, Enter(Transport))
            && Count(more, Enter(Session)) == Count(log, Enter(Session))
            && (CloseRequested in more <==> CloseRequested in log) && (TornDown in more <==> TornDown in log)
  {
    LogSnoc(log, Exit(top));
    assert (stack + [top])[..|stack|] == stack;
  }

  lemma ExitKeepsLog(c: Client)
    requires Enabled(c, ContextExited) && PhaseInvariant(c) && LogInvariant(c)
    ensures LogInvariant(Next(c, ContextExited))
  {
    ExitLeaves(c);
    if c.entered == [Transport] {
      assert c.entered == [] + [Transport];
      ExitSnoc(c.log, [], Transport);
    } else {
      assert c.entered == [Transport] + [Session];
      ExitSnoc(c.log, [Transport], Session);
    }
  }

  lemma CallKeepsLog(c: Client, step: Step)
    requires step.ToolCalled? || step.CloseCalled?
    requires Enabled(c, step) && PhaseInvariant(c) && LogInvariant(c)
    ensures LogInvariant(Next(c, step))
  {
    LogSnoc(c.log, if step.ToolCalled? then Dispatched else CloseRequested);
  }

  lemma LogStep(c: Client, step: Step)
    requires Enabled(c, step) && PhaseInvariant(c) && LogInvariant(c)
    ensures LogInvariant(Next(c, step))
  {
    match step
    case TransportEntered(ok) => if ok { PushKeepsLog(c, step); } else { UnwindKeepsLog(c); }
    case SessionEntered(ok) => if ok { PushKeepsLog(c, step); } else { UnwindKeepsLog(c); }
    case Initialized(ok) => if !ok { UnwindKeepsLog(c); }
    case StopServing(_) => UnwindKeepsLog(c);
    case ContextExited => ExitKeepsLog(c);
    case ToolCalled => CallKeepsLog(c, step);
    case CloseCalled(_) => CallKeepsLog(c, step);
    case _ =>
  }

  lemma {:induction false} ReachableInvariant(steps: seq<Step>, c: Client)
    requires Reaches(steps, c)
    ensures PhaseInvariant(c) && LogInvariant(c)
  {
    if steps != [] {
      var init, last := steps[..|steps| - 1], steps[|steps| - 1];
      var before :| Reaches(init, before) && Moves(before, last, c);
      ReachableInvariant(init, before);
      PhaseStep(before, last);
      LogStep(before, last);
    }
  }

  // ---- the promises --------------------------------------------------------

  /** Contexts are exited in reverse order of entry, each exactly once, and none is
      left open when the owner has exited. */
  lemma ContextsExitOnce(steps: seq<Step>, c: Client, e: SdkContext)
    requires Reaches(steps, c)
    ensures Open(c.log) == Some(c.entered) && Count(c.log, Enter(e)) <= 1
    ensures Count(c.log, Exit(e)) == Count(c.log, Enter(e)) - if e in c.entered then 1 else 0
    ensures c.owner == Done ==> c.entered == [] && Count(c.log, Exit(e)) == Count(c.log, Enter(e))
  {
    ReachableInvariant(steps, c);
    ExitsMatch(c.log, e);
  }

  lemma {:induction false} ExitsMatch(log: seq<Event>, e: SdkContext)
    requires Open(log).Some?
    ensures Count(log, Enter(e)) == Count(log, Exit(e)) + if e in Open(log).value then 1 else 0
    ensures forall i, j :: 0 <= i < j < |Open(log).value| ==> Open(log).value[i] != Open(log).value[j]
  {
    if log != [] {
      var n := |log| - 1;
      ExitsMatch(log[..n], e);
      var before, after := Open(log[..n]).value, Open(log).value;
      if log[n].Exit? {
        assert before == after + [log[n].c];
      }
    }
  }

  /** However often callers are cancelled, `aclose` is over only after the owner is. */
  lemma CloseJoinsOwner(steps: seq<Step>, c: Client, closer: nat)
    requires Reaches(steps, c)
    requires closer in c.closers && c.closers[closer] == Closed
    ensures c.owner == Done && c.entered == [] && !SessionAvailable(c)
  {
    ReachableInvariant(steps, c);
  }

  /** No call is dispatched after closing or teardown has begun. */
  lemma NoDispatchAfterClose(steps: seq<Step>, c: Client, i: nat, j: nat)
    requires Reaches(steps, c)
    requires i < j < |c.log| && (c.log[i] == CloseRequested || c.log[i] == TornDown)
    ensures c.log[j] != Dispatched
  {
    ReachableInvariant(steps, c);
  }

  /** A start that was cancelled, any number of times, fails only after the owner
      has exited. */
  lemma CancelledStartJoinsOwner(steps: seq<Step>, c: Client)
    requires Reaches(steps, c) && Enabled(c, StarterJoined)
    ensures Next(c, StarterJoined).starter == Failed && c.owner == Done && c.entered == []
  {
    ReachableInvariant(steps, c);
  }

  /** The session was served and is no more. */
  predicate Stopped(steps: seq<Step>)
  {
    StopServing(true) in steps || StopServing(false) in steps
  }

  function ExitSteps(steps: seq<Step>): (n: nat)
  {
    if steps == [] then 0
    else ExitSteps(steps[..|steps| - 1]) + if steps[|steps| - 1] == ContextExited then 1 else 0
  }

  /** What the steps of a run say of where it stands. */
  ghost predicate StepInvariant(steps: seq<Step>, c: Client)
  {
    && (Stopped(steps) <==> c.served && (c.owner == Exiting || c.owner == Done))
    && (c.owner != Exiting && c.owner != Done ==> ExitSteps(steps) == 0)
    && (c.served ==> |c.entered| + ExitSteps(steps) == 2)
  }

  lemma StepStep(steps: seq<Step>, before: Client, step: Step)
    requires Enabled(before, step) && PhaseInvariant(before) && StepInvariant(steps, before)
    ensures StepInvariant(steps + [step], Next(before, step))
  {
    var more := steps + [step];
    assert more[..|more| - 1] == steps;
    assert Stopped(more) <==> Stopped(steps) || step.StopServing?;
  }

  lemma LastStep(steps: seq<Step>, c: Client) returns (before: Client)
    requires Reaches(steps, c) && steps != []
    ensures Reaches(steps[..|steps| - 1], before)
    ensures Enabled(before, steps[|steps| - 1]) && c == Next(before, steps[|steps| - 1])
  {
    var init, last := steps[..|steps| - 1], steps[|steps| - 1];
    before :| Reaches(init, before) && Moves(before, last, c);
  }

  lemma Unsnoc(steps: seq<Step>)
    requires steps != []
    ensures steps[..|steps| - 1] + [steps[|steps| - 1]] == steps
  {
  }

  lemma {:induction false} StepsTell(steps: seq<Step>, c: Client)
    requires Reaches(steps, c)
    ensures StepInvariant(steps, c)
  {
    if steps != [] {
      var init, last := steps[..|steps| - 1], steps[|steps| - 1];
      var before := LastStep(steps, c);
      ReachableInvariant(init, before);
      StepsTell(init, before);
      StepStep(init, before, last);
      Unsnoc(steps);
    }
  }

  /** A start that fails without being cancelled leaves an owner still at work exactly
      when the session was served and lost before the starter resumed, and fewer than
      two contexts had been exited by then. */
  lemma FailedStartJoinsOwner(steps: seq<Step>, c: Client)
    requires Reaches(steps, c) && Enabled(c, StarterResumes) && Next(c, StarterResumes).starter == Failed
    ensures c.owner != Done <==> Stopped(steps) && ExitSteps(steps) < 2
    ensures c.owner != Done ==> c.owner == Exiting && c.tearingDown && |c.entered| == 2 - ExitSteps(steps)
  {
    ReachableInvariant(steps, c);
    StepsTell(steps, c);
  }

  /** That exception can happen: the transport fails between readiness and the
      moment the starter is resumed. */
  lemma FailedStartLeavesOwner()
    ensures exists steps, c :: Reaches(steps, c) && c.starter == Failed && c.owner != Done && c.entered != []
  {
    var steps, c := ServedAndLost();
    var more := Extend(steps, c, StarterResumes);
    var failed := Next(c, StarterResumes);
    assert failed.starter == Failed && failed.owner == Exiting;
  }

  lemma ServedAndLost() returns (steps: seq<Step>, c: Client)
    ensures Reaches(steps, c) && c.starter == WaitingReady && c.ready && !c.session && c.owner == Exiting && c.entered != []
  {
    steps, c := InitializedSession();
    steps := Extend(steps, c, StopServing(false));
    c := Next(c, StopServing(false));
  }

  lemma InitializedSession() returns (steps: seq<Step>, c: Client)
    ensures Reaches(steps, c) && c.owner == Serving && c.starter == WaitingReady && c.ready && c.entered != []
  {
    var c0 := NEW_CLIENT;
    var c1 := Next(c0, OwnerStarts);
    var c2 := Next(c1, TransportEntered(true));
    var c3 := Next(c2, SessionEntered(true));
    steps := Extend([], c0, OwnerStarts);
    steps := Extend(steps, c1, TransportEntered(true));
    steps := Extend(steps, c2, SessionEntered(true));
    steps := Extend(steps, c3, Initialized(true));
    c := Next(c3, Initialized(true));
  }

  lemma Extend(steps: seq<Step>, c: Client, step: Step) returns (more: seq<Step>)
    requires Reaches(steps, c) && Enabled(c, step)
    ensures Reaches(more, Next(c, step))
  {
    more := steps + [step];
    assert more[..|more| - 1] == steps && more[|more| - 1] == step;
    assert Moves(c, step, Next(c, step));
  }

  // ---- nobody waits for ever -----------------------------------------------

  /** A step of the owner whose await raises nothing. */
  predicate Succeeds(step: Step)
  {
    step in [OwnerStarts, TransportEntered(true), SessionEntered(true), Initialized(true), StopServing(true), ContextExited]
  }

  function OwnerSteps(steps: seq<Step>): (n: nat)
  {
    if steps == [] then 0 else OwnerSteps(steps[1..]) + if IsOwnerStep(steps[0]) then 1 else 0
  }

  /** `after` is reached from `before` by exactly these steps. */
  ghost predicate Follows(before: Client, steps: seq<Step>, after: Client)
    decreases |steps|
  {
    if steps == [] then after == before
    else
      Enabled(before, steps[0]) && Follows(Next(before, steps[0]), steps[1..], after)
  }

  /** How many steps the owner has at most before it. */
  function Ahead(c: Client): (n: nat)
  {
    match c.owner
    case Created => 7
    case EnteringTransport => 6
    case EnteringSession => 5
    case Initializing => 4
    case Serving => 3
    case Exiting => |c.entered|
    case Done => 0
  }

  lemma OwnerAdvances(c: Client, step: Step)
    requires Enabled(c, step) && PhaseInvariant(c)
    ensures if IsOwnerStep(step) then Ahead(Next(c, step)) < Ahead(c) else Ahead(Next(c, step)) == Ahead(c)
  {
  }

  lemma {:induction false} OwnerRunsDown(c: Client, more: seq<Step>, r: Client)
    requires PhaseInvariant(c) && Follows(c, more, r)
    ensures PhaseInvariant(r) && OwnerSteps(more) + Ahead(r) <= Ahead(c)
    decreases |more|
  {
    if more != [] {
      OwnerAdvances(c, more[0]);
      PhaseStep(c, more[0]);
      OwnerRunsDown(Next(c, more[0]), more[1..], r);
    }
  }

  /** In any run of a new client the owner takes at most seven steps. */
  lemma OwnerIsFinite(steps: seq<Step>, c: Client)
    requires Follows(NEW_CLIENT, steps, c)
    ensures OwnerSteps(steps) <= 7
  {
    OwnerRunsDown(NEW_CLIENT, steps, c);
  }

  /** The step that ends an owner's await with an exception. */
  function Interrupted(c: Client): (step: Step)
  {
    match c.owner
    case Created => OwnerCancelledUnstarted
    case EnteringTransport => TransportEntered(false)
    case EnteringSession => SessionEntered(false)
    case Initializing => Initialized(false)
    case Serving => StopServing(false)
    case _ => ContextExited
  }

  /** An owner that is not over can take a step: by itself, unless it serves and was not asked
      to stop or was cancelled, in which case its await may still raise. */
  lemma OwnerIsNeverStuck(steps: seq<Step>, c: Client)
    requires Reaches(steps, c) && c.owner != Done
    ensures exists step :: IsOwnerStep(step) && Enabled(c, step)
    ensures !c.cancelled && (c.owner == Serving ==> CloseRequested in c.log)
            ==> exists step :: Succeeds(step) && Enabled(c, step)
    ensures c.cancelled && c.owner != Exiting ==> forall step :: Succeeds(step) ==> !Enabled(c, step)
  {
    ReachableInvariant(steps, c);
    var failing := Interrupted(c);
    assert IsOwnerStep(failing) && Enabled(c, failing);
    if !c.cancelled && (c.owner == Serving ==> CloseRequested in c.log) {
      CanGoOn(c);
    }
  }

  function Willing(c: Client): (step: Step)
  {
    match c.owner
    case Created => OwnerStarts
    case EnteringTransport => TransportEntered(true)
    case EnteringSession => SessionEntered(true)
    case Initializing => Initialized(true)
    case Serving => StopServing(true)
    case _ => ContextExited
  }

  /** Asking for a close lets the owner leave its wait. */
  lemma CloseStopsServing(steps: seq<Step>, c: Client)
    requires Reaches(steps, c)
    ensures CloseRequested in c.log && c.owner == Serving ==> Enabled(c, StopServing(true))
  {
    ReachableInvariant(steps, c);
  }

  lemma {:induction false} StaysStopping(c: Client, more: seq<Step>, r: Client)
    requires PhaseInvariant(c) && c.starter == Returned && c.stop && Follows(c, more, r)
    ensures PhaseInvariant(r) && r.starter == Returned && r.stop
    decreases |more|
  {
    if more != [] {
      PhaseStep(c, more[0]);
      StaysStopping(Next(c, more[0]), more[1..], r);
    }
  }

  lemma StoppingIsBounded(c: Client, more: seq<Step>, r: Client)
    requires PhaseInvariant(c) && c.starter == Returned && c.stop && Follows(c, more, r)
    ensures OwnerSteps(more) <= 3
    ensures r.owner != Done ==> exists step :: Succeeds(step) && Enabled(r, step)
    ensures r.owner == Done ==> forall k :: k in r.closers && r.closers[k] == JoiningClose ==> Enabled(r, CloserJoined(k))
  {
    OwnerRunsDown(c, more, r);
    StaysStopping(c, more, r);
    if r.owner != Done {
      CanGoOn(r);
    }
  }

  lemma RequestedStops(steps: seq<Step>, c: Client)
    requires Reaches(steps, c) && CloseRequested in c.log
    ensures PhaseInvariant(c) && c.starter == Returned && c.stop
  {
    ReachableInvariant(steps, c);
  }

  /** Once a close was asked for, the owner takes at most three more steps, whatever the callers
      do meanwhile; until it is over there is one it can take, and then every close can return. */
  lemma CloseIsBounded(steps: seq<Step>, c: Client, more: seq<Step>, r: Client)
    requires Reaches(steps, c) && CloseRequested in c.log && Follows(c, more, r)
    ensures OwnerSteps(more) <= 3
    ensures r.owner != Done ==> exists step :: Succeeds(step) && Enabled(r, step)
    ensures r.owner == Done ==> forall k :: k in r.closers && r.closers[k] == JoiningClose ==> Enabled(r, CloserJoined(k))
  {
    RequestedStops(steps, c);
    StoppingIsBounded(c, more, r);
  }

  lemma CanGoOn(c: Client)
    requires PhaseInvariant(c) && c.owner != Done && !c.cancelled && (c.owner == Serving ==> c.stop)
    ensures exists step :: Succeeds(step) && Enabled(c, step)
  {
    var next := Willing(c);
    assert Succeeds(next) && Enabled(c, next);
  }

  lemma FollowsSnoc(before: Client, steps: seq<Step>, after: Client, step: Step)
    requires Follows(before, steps, after) && Enabled(after, step)
    ensures Follows(before, steps + [step], Next(after, step))
    decreases |steps|
  {
    if steps == [] {
    } else {
      FollowsSnoc(Next(before, steps[0]), steps[1..], after, step);
      assert (steps + [step])[1..] == steps[1..] + [step];
    }
  }

  /** An owner that is on its way out, or may leave its wait, ends by itself. */
  lemma {:induction false} OwnerEnds(c: Client) returns (more: seq<Step>, r: Client)
    requires PhaseInvariant(c)
    requires c.owner == Exiting || c.owner == Done || Enabled(c, StopServing(true))
    ensures |more| <= Ahead(c) && (forall s :: s in more ==> Succeeds(s)) && Follows(c, more, r)
    ensures PhaseInvariant(r) && r.owner == Done && r.starter == c.starter && r.closers == c.closers
    decreases Ahead(c)
  {
    if c.owner == Done {
      more, r := [], c;
    } else {
      var step := Willing(c);
      OwnerAdvances(c, step);
      PhaseStep(c, step);
      var rest;
      rest, r := OwnerEnds(Next(c, step));
      more := [step] + rest;
      assert more[1..] == rest;
    }
  }

  /** From wherever a close is waited for, at most three steps of the owner, none of which
      raises, let it return. */
  lemma CloseCanEnd(steps: seq<Step>, c: Client, closer: nat) returns (more: seq<Step>, r: Client)
    requires Reaches(steps, c) && closer in c.closers && c.closers[closer] == JoiningClose
    ensures |more| <= 3 && (forall s :: s in more ==> Succeeds(s)) && Follows(c, more + [CloserJoined(closer)], r)
    ensures closer in r.closers && r.closers[closer] == Closed && r.owner == Done && r.entered == []
  {
    ReachableInvariant(steps, c);
    var done;
    more, done := OwnerEnds(c);
    FollowsSnoc(c, more, done, CloserJoined(closer));
    r := Next(done, CloserJoined(closer));
  }

  /** While a cancelled start is waited for, no await of the owner gives it anything more. */
  lemma CancelledStartStopsOwner(steps: seq<Step>, c: Client)
    requires Reaches(steps, c) && c.starter == JoiningStart
    ensures forall step :: Succeeds(step) && Enabled(c, step) ==> step == ContextExited
  {
    ReachableInvariant(steps, c);
  }

  /** From wherever a cancelled start is waited for, at most three steps of the owner let it
      fail: the cancellation raised at its await, and the contexts exited. */
  lemma CancelledStartCanEnd(steps: seq<Step>, c: Client) returns (more: seq<Step>, r: Client)
    requires Reaches(steps, c) && c.starter == JoiningStart
    ensures |more| <= 3 && (forall s :: s in more ==> IsOwnerStep(s)) && Follows(c, more + [StarterJoined], r)
    ensures r.starter == Failed && r.owner == Done && r.entered == []
  {
    ReachableInvariant(steps, c);
    var done;
    if c.owner == Exiting || c.owner == Done {
      more, done := OwnerEnds(c);
    } else {
      more, done := InterruptedEnds(c);
    }
    FollowsSnoc(c, more, done, StarterJoined);
    r := Next(done, StarterJoined);
  }

  lemma InterruptedEnds(c: Client) returns (more: seq<Step>, r: Client)
    requires PhaseInvariant(c) && c.owner != Exiting && c.owner != Done
    ensures |more| <= 3 && (forall s :: s in more ==> IsOwnerStep(s)) && Follows(c, more, r)
    ensures PhaseInvariant(r) && r.owner == Done && r.starter == c.starter
  {
    var step := Interrupted(c);
    PhaseStep(c, step);
    var rest;
    rest, r := OwnerEnds(Next(c, step));
    more := [step] + rest;
    assert more[1..] == rest;
  }

  /** From wherever a start is waited for, at most four steps of the owner let it go on: it
      returns unless the session was lost or is on its way out. Only an owner cancelled before
      it began never wakes it. */
  lemma StartCanEnd(steps: seq<Step>, c: Client) returns (more: seq<Step>, r: Client)
    requires Reaches(steps, c) && c.starter == WaitingReady && OwnerCancelledUnstarted !in steps
    ensures |more| <= 4 && (forall s :: s in more ==> Succeeds(s)) && Follows(c, more + [StarterResumes], r)
    ensures r.starter == Returned <==> if c.ready then c.session else !c.tearingDown
    ensures r.starter == Returned ==> r.session && r.owner == Serving
    ensures r.starter != Returned ==> r.starter == Failed && !r.session
  {
    ReachableInvariant(steps, c);
    HistoryTells(steps, c);
    var up;
    more, up := OwnerServes(c);
    FollowsSnoc(c, more, up, StarterResumes);
    r := Next(up, StarterResumes);
  }

  lemma {:induction false} OwnerServes(c: Client) returns (more: seq<Step>, r: Client)
    requires PhaseInvariant(c) && c.starter == WaitingReady && (c.ready || c.owner != Done)
    ensures |more| <= Ahead(c) && (c.ready ==> more == []) && (!c.ready && !c.tearingDown ==> |more| + 3 <= Ahead(c))
    ensures (forall s :: s in more ==> Succeeds(s)) && Follows(c, more, r)
    ensures PhaseInvariant(r) && r.starter == WaitingReady && r.ready
    ensures r.session <==> if c.ready then c.session else !c.tearingDown
    decreases Ahead(c)
  {
    if c.ready {
      more, r := [], c;
    } else {
      var step := Willing(c);
      OwnerAdvances(c, step);
      PhaseStep(c, step);
      var rest;
      rest, r := OwnerServes(Next(c, step));
      more := [step] + rest;
      assert more[1..] == rest;
    }
  }

  /** What the steps of a run say of the session and of readiness. */
  ghost predicate Tells(c: Client, initialised: bool, unstarted: bool)
  {
    && (c.served <==> initialised)
    && (c.ready <==> initialised || (c.owner == Done && !unstarted))
    && (unstarted ==> c.owner == Done)
  }

  lemma TellsStep(c: Client, step: Step, initialised: bool, unstarted: bool)
    requires Enabled(c, step) && PhaseInvariant(c) && Tells(c, initialised, unstarted)
    ensures Tells(Next(c, step), initialised || step == Initialized(true), unstarted || step == OwnerCancelledUnstarted)
  {
  }

  /** The session was served if and only if it was initialised; an owner that began releases
      readiness, at the latest when it ends. */
  lemma {:induction false} HistoryTells(steps: seq<Step>, c: Client)
    requires Reaches(steps, c)
    ensures Tells(c, Initialized(true) in steps, OwnerCancelledUnstarted in steps)
  {
    if steps != [] {
      var init, last := steps[..|steps| - 1], steps[|steps| - 1];
      var before := LastStep(steps, c);
      ReachableInvariant(init, before);
      HistoryTells(init, before);
      TellsStep(before, last, Initialized(true) in init, OwnerCancelledUnstarted in init);
      Unsnoc(steps);
    }
  }

  /** Readiness is released exactly when the session is initialised, or when an owner that
      began ends; a start returns only after the session was initialised. */
  lemma ReadinessIsReleased(steps: seq<Step>, c: Client)
    requires Reaches(steps, c)
    ensures c.ready <==> Initialized(true) in steps || (c.owner == Done && OwnerCancelledUnstarted !in steps)
    ensures c.session <==> Initialized(true) in steps && StopServing(true) !in steps && StopServing(false) !in steps
    ensures c.starter == Returned ==> Initialized(true) in steps
  {
    ReachableInvariant(steps, c);
    HistoryTells(steps, c);
    StepsTell(steps, c);
  }

  // ---- listing tools page by page ------------------------------------------

  const MAX_PAGES := 1000
  const MAX_TOOLS := 10000

  /** `next` is the cursor of the following page; a cursor that is not a string is
      `Malformed`. */
  datatype Cursor = NoCursor | Text(value: string) | Malformed

  datatype Page<T> = Page(tools: seq<T>, next: Cursor) | NotASequence

  datatype ListFailure = NotSent | InvalidPage | TooManyTools | InvalidCursor | TooManyPages

  /** The cursor sent for page `i`. */
  function CursorOf<T>(fetch: Cursor -> Page<T>, i: nat): (c: Cursor)
  {
    if i == 0 then NoCursor
    else
      var page := fetch(CursorOf(fetch, i - 1));
      if page.Page? then page.next else Malformed
  }

  function Pages<T>(fetch: Cursor -> Page<T>, n: nat): (tools: seq<T>)
  {
    if n == 0 then []
    else
      var page := fetch(CursorOf(fetch, n - 1));
      Pages(fetch, n - 1) + if page.Page? then page.tools else []
  }

  /** The server's catalog ends after exactly `n` pages, within the limits, without
      repeating a cursor. */
  ghost predicate CompleteCatalog<T>(fetch: Cursor -> Page<T>, n: nat)
  {
    && 1 <= n <= MAX_PAGES
    && GoodPages(fetch, n)
    && CursorOf(fetch, n) == NoCursor
    && |Pages(fetch, n)| <= MAX_TOOLS
  }

  /** The first `n` pages are sequences and the cursors between them are new. */
  ghost predicate GoodPages<T>(fetch: Cursor -> Page<T>, n: nat)
  {
    AreSequences(fetch, n) && RealCursors(fetch, n) && NewCursors(fetch, n)
  }

  ghost predicate AreSequences<T>(fetch: Cursor -> Page<T>, n: nat)
  {
    forall i: nat :: i < n ==> fetch(CursorOf(fetch, i)).Page?
  }

  ghost predicate RealCursors<T>(fetch: Cursor -> Page<T>, n: nat)
  {
    forall i: nat :: 0 < i < n ==> CursorOf(fetch, i).Text? && CursorOf(fetch, i).value != ""
  }

  ghost predicate NewCursors<T>(fetch: Cursor -> Page<T>, n: nat)
  {
    forall i: nat, j: nat :: 0 < i < j < n ==> CursorOf(fetch, i) != CursorOf(fetch, j)
  }

  /** A catalog whose first `n` cursors are all real goes on past page `n`. */
  lemma GoesOn<T>(fetch: Cursor -> Page<T>, n: nat, m: nat)
    requires RealCursors(fetch, n + 1) && CompleteCatalog(fetch, m)
    ensures m > n
  {
  }

  ghost predicate NoCatalog<T>(fetch: Cursor -> Page<T>)
  {
    forall n: nat :: !CompleteCatalog(fetch, n)
  }

  /** What the loop knows before page `n` is asked for. */
  ghost predicate Reading<T>(fetch: Cursor -> Page<T>, n: nat, tools: seq<T>, cursor: Cursor, seen: set<string>)
  {
    cursor == CursorOf(fetch, n) && tools == Pages(fetch, n) && |tools| <= MAX_TOOLS && Progress(fetch, n, seen)
  }

  /** One page: it ends the listing, is refused, or names the next page. */
  method TakePage<T>(ghost fetch: Cursor -> Page<T>, ghost n: nat, page: Page<T>, tools: seq<T>, cursor: Cursor,
                     seen: set<string>)
    returns (failure: Option<ListFailure>, more: seq<T>, next: Cursor)
    requires n < MAX_PAGES && Reading(fetch, n, tools, cursor, seen) && page == fetch(cursor)
    ensures failure.Some? ==> failure.value != NotSent && NoCatalog(fetch)
    ensures failure.None? && next == NoCursor ==> CompleteCatalog(fetch, n + 1) && more == Pages(fetch, n + 1)
    ensures failure.None? && next != NoCursor ==>
      next.Text? && Reading(fetch, n + 1, more, next, seen + {next.value})
  {
    more, next := tools, cursor;
    if page.NotASequence? {
      StuckAt(fetch, n, seen);
      return Some(InvalidPage), more, next;
    }
    more := tools + page.tools;
    if |more| > MAX_TOOLS {
      PagesGrow(fetch, n + 1);
      StuckAt(fetch, n, seen);
      return Some(TooManyTools), more, next;
    }
    next := page.next;
    assert next == CursorOf(fetch, n + 1) && more == Pages(fetch, n + 1);
    if next == NoCursor {
      ProgressIsGood(fetch, n, seen);
      return None, more, next;
    }
    if next.Malformed? || next.value == "" || next.value in seen {
      StuckAt(fetch, n, seen);
      return Some(InvalidCursor), more, next;
    }
    Advance(fetch, n, seen);
    failure := None;
  }

  lemma ReadingStarts<T>(fetch: Cursor -> Page<T>)
    ensures Reading(fetch, 0, [], NoCursor, {})
  {
  }

  lemma TooManyToRead<T>(fetch: Cursor -> Page<T>, tools: seq<T>, cursor: Cursor, seen: set<string>)
    requires Reading(fetch, MAX_PAGES, tools, cursor, seen)
    ensures NoCatalog(fetch)
  {
    StuckAt(fetch, MAX_PAGES, seen);
  }

  /** The same catalog page by page: each page names the cursor of the next one, and the tools
      are those of the pages, in order. */
  ghost predicate IsListing<T(!new)>(fetch: Cursor -> Page<T>, n: nat, tools: seq<T>)
  {
    && 1 <= n <= MAX_PAGES && |tools| <= MAX_TOOLS
    && exists cursors: seq<Cursor>, parts: seq<seq<T>> :: ListsPages(fetch, n, cursors, parts) && tools == Flatten(parts)
  }

  ghost predicate ListsPages<T>(fetch: Cursor -> Page<T>, n: nat, cursors: seq<Cursor>, parts: seq<seq<T>>)
  {
    && FollowsCursors(fetch, n, cursors, parts) && cursors[n] == NoCursor
    && (forall i :: 0 < i < n ==> cursors[i].Text? && cursors[i].value != "")
    && (forall i, j :: 0 < i < j < n ==> cursors[i] != cursors[j])
  }

  ghost predicate FollowsCursors<T>(fetch: Cursor -> Page<T>, n: nat, cursors: seq<Cursor>, parts: seq<seq<T>>)
  {
    && |cursors| == n + 1 && |parts| == n && cursors[0] == NoCursor
    && forall i :: 0 <= i < n ==> fetch(cursors[i]) == Page(parts[i], cursors[i + 1])
  }

  lemma {:induction false} CursorsAreRead<T>(fetch: Cursor -> Page<T>, n: nat, cursors: seq<Cursor>, parts: seq<seq<T>>)
    requires FollowsCursors(fetch, n, cursors, parts)
    ensures CursorOf(fetch, n) == cursors[n] && Pages(fetch, n) == Flatten(parts)
  {
    if n > 0 {
      assert fetch(cursors[n - 1]) == Page(parts[n - 1], cursors[n]);
      CursorsAreRead(fetch, n - 1, cursors[..n], parts[..n - 1]);
      assert parts == parts[..n - 1] + [parts[n - 1]];
      FlattenAppend(parts[..n - 1], [parts[n - 1]]);
      FlattenSingle(parts[n - 1]);
    }
  }

  lemma CursorIsRead<T>(fetch: Cursor -> Page<T>, n: nat, cursors: seq<Cursor>, parts: seq<seq<T>>, i: nat)
    requires FollowsCursors(fetch, n, cursors, parts) && i <= n
    ensures CursorOf(fetch, i) == cursors[i] && (i < n ==> fetch(CursorOf(fetch, i)).Page?)
  {
    assert i < n ==> fetch(cursors[i]) == Page(parts[i], cursors[i + 1]);
    assert FollowsCursors(fetch, i, cursors[..i + 1], parts[..i]);
    CursorsAreRead(fetch, i, cursors[..i + 1], parts[..i]);
  }

  lemma {:induction false} ReadCursors<T>(fetch: Cursor -> Page<T>, n: nat)
    returns (cursors: seq<Cursor>, parts: seq<seq<T>>)
    requires AreSequences(fetch, n)
    ensures FollowsCursors(fetch, n, cursors, parts)
  {
    if n == 0 {
      cursors, parts := [NoCursor], [];
    } else {
      cursors, parts := ReadCursors(fetch, n - 1);
      CursorsAreRead(fetch, n - 1, cursors, parts);
      var page := fetch(cursors[n - 1]);
      assert fetch(CursorOf(fetch, n - 1)).Page?;
      cursors, parts := cursors + [page.next], parts + [page.tools];
    }
  }

  /** A catalog is complete exactly when its pages can be listed one after the other. */
  lemma ListingIsCatalog<T(!new)>(fetch: Cursor -> Page<T>, n: nat, tools: seq<T>)
    ensures IsListing(fetch, n, tools) <==> CompleteCatalog(fetch, n) && tools == Pages(fetch, n)
  {
    if IsListing(fetch, n, tools) {
      var cursors: seq<Cursor>, parts: seq<seq<T>> :| ListsPages(fetch, n, cursors, parts) && tools == Flatten(parts);
      CatalogOfListing(fetch, n, cursors, parts);
    } else if CompleteCatalog(fetch, n) {
      var cursors, parts := ReadCursors(fetch, n);
      ListingOfCatalog(fetch, n, cursors, parts);
    }
  }

  lemma CatalogOfListing<T>(fetch: Cursor -> Page<T>, n: nat, cursors: seq<Cursor>, parts: seq<seq<T>>)
    requires ListsPages(fetch, n, cursors, parts)
    ensures GoodPages(fetch, n) && CursorOf(fetch, n) == NoCursor && Pages(fetch, n) == Flatten(parts)
  {
    CursorsAreRead(fetch, n, cursors, parts);
    forall i: nat | i <= n
      ensures CursorOf(fetch, i) == cursors[i] && (i < n ==> fetch(CursorOf(fetch, i)).Page?)
    {
      CursorIsRead(fetch, n, cursors, parts, i);
    }
  }

  lemma ListingOfCatalog<T>(fetch: Cursor -> Page<T>, n: nat, cursors: seq<Cursor>, parts: seq<seq<T>>)
    requires GoodPages(fetch, n) && CursorOf(fetch, n) == NoCursor && FollowsCursors(fetch, n, cursors, parts)
    ensures ListsPages(fetch, n, cursors, parts) && Flatten(parts) == Pages(fetch, n)
  {
    CursorsAreRead(fetch, n, cursors, parts);
    forall i: nat | i <= n
      ensures CursorOf(fetch, i) == cursors[i]
    {
      CursorIsRead(fetch, n, cursors, parts, i);
    }
  }

  /** What a listing that ends as `r` after `pages` pages says of the server's catalog. */
  ghost predicate ListedAs<T>(fetch: Cursor -> Page<T>, available: nat -> bool, r: Result<seq<T>, ListFailure>, pages: nat)
  {
    match r
    case Ok(tools) => CompleteCatalog(fetch, pages) && tools == Pages(fetch, pages)
    case Err(NotSent) => pages < MAX_PAGES && !available(pages)
    case Err(_) => NoCatalog(fetch)
  }

  /** One turn of the loop. */
  method ReadPage<T>(fetch: Cursor -> Page<T>, available: nat -> bool, n: nat, tools: seq<T>, cursor: Cursor, seen: set<string>)
    returns (end: Option<Result<seq<T>, ListFailure>>, pages: nat, more: seq<T>, next: Cursor, seenNow: set<string>)
    requires n < MAX_PAGES && Reading(fetch, n, tools, cursor, seen)
    ensures end.Some? ==> ListedAs(fetch, available, end.value, pages)
    ensures end.None? ==> pages == n + 1 && Reading(fetch, n + 1, more, next, seenNow)
  {
    pages, more, next, seenNow := n, tools, cursor, seen;
    if !available(n) {
      return Some(Err(NotSent)), pages, more, next, seenNow;
    }
    var failure;
    failure, more, next := TakePage(fetch, n, fetch(cursor), tools, cursor, seen);
    if failure.Some? {
      return Some(Err(failure.value)), pages, more, next, seenNow;
    }
    pages := n + 1;
    if next == NoCursor {
      return Some(Ok(more)), pages, more, next, seenNow;
    }
    return None, pages, more, next, seen + {next.value};
  }

  /** The whole catalog or nothing: with the session available throughout, listing
      succeeds exactly when the server's catalog is complete. */
  method ListTools<T(!new)>(fetch: Cursor -> Page<T>, available: nat -> bool)
    returns (r: Result<seq<T>, ListFailure>, pages: nat)
    ensures ListedAs(fetch, available, r, pages)
    // page by page: these tools, or no listing at all
    ensures r.Ok? ==> IsListing(fetch, pages, r.value)
    ensures r.Err? && r.error != NotSent ==> forall n: nat, all :: !IsListing(fetch, n, all)
  {
    r, pages := ReadPages(fetch, available);
    if r.Ok? {
      ListingIsCatalog(fetch, pages, r.value);
    } else if r.error != NotSent {
      forall n: nat, all
        ensures !IsListing(fetch, n, all)
      {
        ListingIsCatalog(fetch, n, all);
      }
    }
  }

  /** The loop of `list_tools`. */
  method ReadPages<T>(fetch: Cursor -> Page<T>, available: nat -> bool)
    returns (r: Result<seq<T>, ListFailure>, pages: nat)
    ensures ListedAs(fetch, available, r, pages)
  {
    var tools: seq<T> := [];
    var cursor: Cursor := NoCursor;
    var seen: set<string> := {};
    pages := 0;
    ReadingStarts(fetch);
    while pages < MAX_PAGES
      invariant pages <= MAX_PAGES && Reading(fetch, pages, tools, cursor, seen)
      decreases MAX_PAGES - pages
    {
      var end;
      end, pages, tools, cursor, seen := ReadPage(fetch, available, pages, tools, cursor, seen);
      if end.Some? {
        return end.value, pages;
      }
    }
    TooManyToRead(fetch, tools, cursor, seen);
    return Err(TooManyPages), pages;
  }

  /** Every page so far was a sequence and every cursor was new; `seen` holds them. */
  ghost predicate Progress<T>(fetch: Cursor -> Page<T>, n: nat, seen: set<string>)
  {
    && AreSequences(fetch, n) && RealCursors(fetch, n + 1) && NewCursors(fetch, n + 1)
    && HasSeen(fetch, n, seen) && SeenBefore(fetch, n, seen)
  }

  ghost predicate HasSeen<T>(fetch: Cursor -> Page<T>, n: nat, seen: set<string>)
  {
    forall i: nat :: 0 < i <= n ==> CursorOf(fetch, i).Text? && CursorOf(fetch, i).value in seen
  }

  ghost predicate SeenBefore<T>(fetch: Cursor -> Page<T>, n: nat, seen: set<string>)
  {
    forall s :: s in seen ==> exists i: nat :: 0 < i <= n && CursorOf(fetch, i) == Text(s)
  }

  lemma SeenGrows<T>(fetch: Cursor -> Page<T>, n: nat, seen: set<string>, s: string)
    requires SeenBefore(fetch, n, seen) && CursorOf(fetch, n + 1) == Text(s)
    ensures SeenBefore(fetch, n + 1, seen + {s})
  {
    forall x | x in seen + {s}
      ensures exists i: nat :: 0 < i <= n + 1 && CursorOf(fetch, i) == Text(x)
    {
      if x == s {
        assert CursorOf(fetch, n + 1) == Text(x);
      } else {
        var i: nat :| 0 < i <= n && CursorOf(fetch, i) == Text(x);
        assert 0 < i <= n + 1;
      }
    }
  }

  lemma ProgressIsGood<T>(fetch: Cursor -> Page<T>, n: nat, seen: set<string>)
    requires Progress(fetch, n, seen) && fetch(CursorOf(fetch, n)).Page?
    ensures GoodPages(fetch, n + 1)
  {
  }

  lemma Advance<T>(fetch: Cursor -> Page<T>, n: nat, seen: set<string>)
    requires Progress(fetch, n, seen) && fetch(CursorOf(fetch, n)).Page?
    requires var next := CursorOf(fetch, n + 1);
             next.Text? && next.value != "" && next.value !in seen
    ensures Progress(fetch, n + 1, seen + {CursorOf(fetch, n + 1).value})
  {
    var s := CursorOf(fetch, n + 1).value;
    SeenGrows(fetch, n, seen, s);
    HasSeenGrows(fetch, n, seen, s);
    CursorsGrow(fetch, n, seen, s);
    SequencesGrow(fetch, n);
  }

  lemma HasSeenGrows<T>(fetch: Cursor -> Page<T>, n: nat, seen: set<string>, s: string)
    requires HasSeen(fetch, n, seen) && CursorOf(fetch, n + 1) == Text(s)
    ensures HasSeen(fetch, n + 1, seen + {s})
  {
  }

  lemma CursorsGrow<T>(fetch: Cursor -> Page<T>, n: nat, seen: set<string>, s: string)
    requires RealCursors(fetch, n + 1) && NewCursors(fetch, n + 1) && HasSeen(fetch, n, seen)
    requires CursorOf(fetch, n + 1) == Text(s) && s != "" && s !in seen
    ensures RealCursors(fetch, n + 2) && NewCursors(fetch, n + 2)
  {
    forall i: nat, j: nat | 0 < i < j < n + 2
      ensures CursorOf(fetch, i) != CursorOf(fetch, j)
    {
      assert 0 < i <= n ==> CursorOf(fetch, i).Text? && CursorOf(fetch, i).value in seen;
    }
  }

  lemma SequencesGrow<T>(fetch: Cursor -> Page<T>, n: nat)
    requires AreSequences(fetch, n) && fetch(CursorOf(fetch, n)).Page?
    ensures AreSequences(fetch, n + 1)
  {
  }

  /** A listing that cannot go on after `n` good pages has no complete catalog. */
  lemma StuckAt<T>(fetch: Cursor -> Page<T>, n: nat, seen: set<string>)
    requires Progress(fetch, n, seen)
    requires n >= MAX_PAGES
          || fetch(CursorOf(fetch, n)).NotASequence?
          || (forall m: nat :: n < m ==> |Pages(fetch, m)| > MAX_TOOLS)
          || RejectedCursor(fetch, n, seen)
    ensures NoCatalog(fetch)
  {
    forall m: nat
      ensures !CompleteCatalog(fetch, m)
    {
      if CompleteCatalog(fetch, m) {
        GoesOn(fetch, n, m);
        NeedsPage(fetch, n, m);
        if RejectedCursor(fetch, n, seen) {
          RejectedEndsListing(fetch, n, seen, m);
        }
      }
    }
  }

  lemma NeedsPage<T>(fetch: Cursor -> Page<T>, n: nat, m: nat)
    requires n < m && CompleteCatalog(fetch, m)
    ensures n < MAX_PAGES && fetch(CursorOf(fetch, n)).Page? && |Pages(fetch, m)| <= MAX_TOOLS
  {
  }

  ghost predicate RejectedCursor<T>(fetch: Cursor -> Page<T>, n: nat, seen: set<string>)
  {
    var next := CursorOf(fetch, n + 1);
    next != NoCursor && (next.Malformed? || next.value == "" || next.value in seen)
  }

  lemma RejectedEndsListing<T>(fetch: Cursor -> Page<T>, n: nat, seen: set<string>, m: nat)
    requires Progress(fetch, n, seen) && RejectedCursor(fetch, n, seen) && m > n
    ensures !CompleteCatalog(fetch, m)
  {
    var next := CursorOf(fetch, n + 1);
    if next.Text? && next.value in seen {
      var i: nat :| 0 < i <= n && CursorOf(fetch, i) == Text(next.value);
      assert CursorOf(fetch, i) == CursorOf(fetch, n + 1);
    }
  }

  lemma PagesGrow<T>(fetch: Cursor -> Page<T>, n: nat)
    ensures forall m: nat :: n <= m ==> |Pages(fetch, n)| <= |Pages(fetch, m)|
  {
    forall m: nat | n <= m
      ensures |Pages(fetch, n)| <= |Pages(fetch, m)|
    {
      PagesGrowTo(fetch, n, m);
    }
  }

  lemma {:induction false} PagesGrowTo<T>(fetch: Cursor -> Page<T>, n: nat, m: nat)
    requires n <= m
    ensures |Pages(fetch, n)| <= |Pages(fetch, m)|
  {
    if n < m {
      PagesGrowTo(fetch, n, m - 1);
    }
  }
}
