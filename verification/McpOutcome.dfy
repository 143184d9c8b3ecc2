/** What becomes of single servers and of stops in every run of the MCP provider
    (adapters/mcp_tool_provider.py, ports/mcp.py). */
module McpOutcome {
  import opened Common
  import opened McpDiscovery
  import opened McpCatalog

  // ---- where a server stands -----------------------------------------------

  /** The last step of a task of server `id`. */
  function LastOf(steps: seq<Step>, id: string): (last: Option<Step>)
  {
    if steps == [] then None
    else
      var n := |steps| - 1;
      if IsTaskStep(steps[n]) && steps[n].id == id then Some(steps[n]) else LastOf(steps[..n], id)
  }

  /** Until a stop begins, the last step of its task alone decides where a server stands: what
      it published, what its row says, and whether its client is still to be closed. */
  ghost predicate Stands(env: Environment, c: Catalog, id: string, last: Option<Step>)
  {
    && id in c.tasks && id in c.status
    && (last.Some? && last.value == Listed(id) && Acceptable(env.advertised(id)) <==> id in c.serverTools)
    && match last
       case None => c.tasks[id] == Created && c.status[id] == Pending && id !in c.clients
       case Some(Begins(_)) => c.tasks[id] == Opening && c.status[id] == Pending && id !in c.clients
       case Some(Opened(_)) => c.tasks[id] == Discovering && c.status[id] == Pending && id in c.clients
       case Some(Listed(_)) => id in c.clients && ListedRow(env, c, id)
       case Some(Failed(_, _)) =>
         c.status[id] == Unusable && c.tasks[id] == if id in c.clients then ClosingClient else Finished(id in env.required)
       case Some(ClientClosed(_, _, ok)) =>
         c.status[id] == Unusable && c.tasks[id] == Finished(id in env.required) && (id in c.clients <==> !ok)
       case Some(Cancelled(_, _)) => c.tasks[id] == Finished(true) && !c.status[id].Ready?
       case _ => false
  }

  ghost predicate ListedRow(env: Environment, c: Catalog, id: string)
    requires id in c.tasks && id in c.status
  {
    if Acceptable(env.advertised(id)) then
      && c.tasks[id] == Finished(false) && c.status[id] == Ready(|env.advertised(id)|)
      && id in c.serverTools && c.serverTools[id] == Listing(id, env.advertised(id))
    else c.tasks[id] == ClosingClient && c.status[id] == Unusable
  }

  /** Started, and no stop has begun. */
  predicate Up(c: Catalog)
  {
    c.started && (c.stop == Idle || c.stop == Called) && c.replaced == map[] && !c.managerClosed
  }

  lemma OwnStep(env: Environment, c: Catalog, id: string, last: Option<Step>, step: Step)
    requires Up(c) && Enabled(c, step) && IsTaskStep(step) && step.id == id && Stands(env, c, id, last)
    ensures Up(Next(env, c, step)) && Stands(env, Next(env, c, step), id, Some(step))
  {
  }

  /** Nothing changes for server `id`. */
  ghost predicate Untouched(c: Catalog, d: Catalog, id: string)
  {
    && (id in d.tasks <==> id in c.tasks) && (id in c.tasks && id in d.tasks ==> d.tasks[id] == c.tasks[id])
    && (id in d.status <==> id in c.status) && (id in c.status && id in d.status ==> d.status[id] == c.status[id])
    && (id in d.serverTools <==> id in c.serverTools)
    && (id in c.serverTools && id in d.serverTools ==> d.serverTools[id] == c.serverTools[id])
    && (id in d.clients <==> id in c.clients)
    && d.started == c.started && d.stop == c.stop && d.managerClosed == c.managerClosed && d.replaced == c.replaced
  }

  lemma ChangedLeavesPeers(c: Catalog, id: string, e: Effect, peer: string)
    requires id != peer && (peer in e.clients <==> peer in c.clients)
    ensures Untouched(c, Changed(c, Newest, id, e), peer)
  {
  }

  lemma PublishingLeavesPeers(env: Environment, c: Catalog, id: string, peer: string)
    requires id != peer
    ensures Untouched(c, Publishing(c, env.ids, id, Listing(id, env.advertised(id))), peer)
  {
  }

  /** A step of one server's task touches no other server. */
  lemma PeersUntouched(env: Environment, c: Catalog, step: Step, peer: string)
    requires Enabled(c, step) && IsTaskStep(step) && step.id != peer && c.replaced == map[]
    ensures Untouched(c, Next(env, c, step), peer)
  {
    var id := step.id;
    if step.Listed? {
      ChangedLeavesPeers(c, id, Failing(c, env.required, Newest, id), peer);
      ChangedLeavesPeers(c, id, EffectOf(c, env.required, step), peer);
      PublishingLeavesPeers(env, c, id, peer);
    } else {
      assert WhichOf(step) == Newest;
      ChangedLeavesPeers(c, id, EffectOf(c, env.required, step), peer);
    }
  }

  lemma StandsUntouched(env: Environment, c: Catalog, d: Catalog, id: string, last: Option<Step>)
    requires Up(c) && Stands(env, c, id, last) && Untouched(c, d, id)
    ensures Up(d) && Stands(env, d, id, last)
  {
  }

  lemma PeerStep(env: Environment, c: Catalog, id: string, last: Option<Step>, step: Step)
    requires Up(c) && Enabled(c, step) && IsTaskStep(step) && step.id != id && Stands(env, c, id, last)
    ensures Up(Next(env, c, step)) && Stands(env, Next(env, c, step), id, last)
  {
    PeersUntouched(env, c, step, id);
    StandsUntouched(env, c, Next(env, c, step), id, last);
  }

  lemma CallerStep(env: Environment, c: Catalog, id: string, last: Option<Step>, step: Step)
    requires Up(c) && Enabled(c, step) && !step.StopBegins? && !IsTaskStep(step) && Stands(env, c, id, last)
    ensures Up(Next(env, c, step)) && Stands(env, Next(env, c, step), id, last)
  {
  }

  lemma StandsNext(env: Environment, c: Catalog, id: string, last: Option<Step>, step: Step)
    requires Up(c) && Enabled(c, step) && !step.StopBegins? && Stands(env, c, id, last)
    ensures Up(Next(env, c, step))
    ensures Stands(env, Next(env, c, step), id, if IsTaskStep(step) && step.id == id then Some(step) else last)
  {
    if !IsTaskStep(step) {
      CallerStep(env, c, id, last, step);
    } else if step.id == id {
      OwnStep(env, c, id, last, step);
    } else {
      PeerStep(env, c, id, last, step);
    }
  }

  /** Before the provider is started there is nothing, not even a task. */
  predicate Down(c: Catalog)
  {
    c == NEW_CATALOG || c == NEW_CATALOG.(stop := Called)
  }

  lemma StartStands(env: Environment, c: Catalog, id: string)
    requires Down(c) && id in env.ids
    ensures Up(Started(c, env.ids)) && Stands(env, Started(c, env.ids), id, None)
  {
  }

  lemma {:induction false} NotStarted(env: Environment, steps: seq<Step>, id: string)
    requires Run(env, steps).Some? && Start !in steps && StopBegins !in steps
    ensures Down(Run(env, steps).value) && LastOf(steps, id) == None
  {
    if steps != [] {
      var n := |steps| - 1;
      assert steps[n] in steps && forall s :: s in steps[..n] ==> s in steps;
      NotStarted(env, steps[..n], id);
    }
  }

  lemma {:induction false} RunStands(env: Environment, steps: seq<Step>, id: string)
    requires Run(env, steps).Some? && Start in steps && StopBegins !in steps && id in env.ids
    ensures Up(Run(env, steps).value) && Stands(env, Run(env, steps).value, id, LastOf(steps, id))
  {
    var n := |steps| - 1;
    var init, last := steps[..n], steps[n];
    assert last in steps && (forall s :: s in init ==> s in steps) && steps == init + [last];
    var c := Run(env, init).value;
    if Start in init {
      RunStands(env, init, id);
      StandsNext(env, c, id, LastOf(init, id), last);
    } else {
      NotStarted(env, init, id);
      StartStands(env, c, id);
    }
  }

  /** Until a stop begins, where a server stands depends on the last step of its own task
      alone; what other servers do does not matter to it. */
  lemma LastStepDecides(env: Environment, steps: seq<Step>, id: string)
    requires Run(env, steps).Some? && Start in steps && StopBegins !in steps && id in env.ids
    ensures Stands(env, Run(env, steps).value, id, LastOf(steps, id))
  {
    RunStands(env, steps, id);
  }

  // ---- clients of failed servers -------------------------------------------

  /** The failed server's task is over. */
  predicate Failure(c: Catalog, id: string)
  {
    && id in c.tasks && c.tasks[id].Finished? && id in c.status && c.status[id] == Unusable
    && c.stop != Over
  }

  /** This step of the task leaves the client registered: closing it raised, or the task was
      cancelled while it closed it. */
  predicate LeavesOpen(c: Catalog, id: string, step: Step)
  {
    || step == ClientClosed(Newest, id, false)
    || (step == Cancelled(Newest, id) && Has(c.tasks, id, ClosingClient))
  }

  lemma EffectCloses(c: Catalog, required: set<string>, id: string, step: Step)
    requires Enabled(c, step) && IsTaskStep(step) && step.id == id && !step.Listed? && AtWork(c, id) && c.stop != Over
    requires Has(c.tasks, id, ClosingClient) ==> id in c.clients
    requires var e := EffectOf(c, required, step); e.task.Finished? && RowAfter(c, id, e) == Unusable
    ensures id in EffectOf(c, required, step).clients <==> LeavesOpen(c, id, step)
  {
  }

  lemma OwnStepCloses(env: Environment, c: Catalog, id: string, step: Step)
    requires Enabled(c, step) && IsTaskStep(step) && step.id == id && AtWork(c, id)
    requires Has(c.tasks, id, ClosingClient) && c.stop != Over ==> id in c.clients
    requires Failure(Next(env, c, step), id)
    ensures id in Next(env, c, step).clients <==> LeavesOpen(c, id, step)
  {
    if !step.Listed? {
      assert WhichOf(step) == Newest;
      EffectCloses(c, env.required, id, step);
    }
  }

  predicate Touches(step: Step, id: string)
  {
    IsTaskStep(step) && step.id == id
  }

  lemma PeerStepCloses(env: Environment, c: Catalog, id: string, step: Step)
    requires Enabled(c, step) && IsTaskStep(step) && step.id != id && c.replaced == map[]
    requires Failure(Next(env, c, step), id)
    ensures Failure(c, id) && (id in Next(env, c, step).clients <==> id in c.clients)
  {
    PeersUntouched(env, c, step, id);
  }

  lemma CallerStepCloses(env: Environment, c: Catalog, id: string, step: Step)
    requires Enabled(c, step) && !IsTaskStep(step) && TaskKeys(env, c)
    requires Failure(Next(env, c, step), id)
    ensures Failure(c, id) && (id in Next(env, c, step).clients <==> id in c.clients)
  {
  }

  predicate IsLastOf(steps: seq<Step>, id: string, i: nat)
  {
    i < |steps| && Touches(steps[i], id) && forall j :: i < j < |steps| ==> !Touches(steps[j], id)
  }

  /** The last step of the server's task left its client registered. */
  ghost predicate EndedOpen(env: Environment, steps: seq<Step>, id: string)
  {
    exists i: nat :: LeftOpenAt(env, steps, id, i)
  }

  ghost predicate LeftOpenAt(env: Environment, steps: seq<Step>, id: string, i: nat)
  {
    IsLastOf(steps, id, i) && Run(env, steps[..i]).Some? && LeavesOpen(Run(env, steps[..i]).value, id, steps[i])
  }

  lemma EndsHere(env: Environment, steps: seq<Step>, id: string, last: Step)
    requires Run(env, steps).Some? && Touches(last, id)
    ensures EndedOpen(env, steps + [last], id) <==> LeavesOpen(Run(env, steps).value, id, last)
  {
    var more, n := steps + [last], |steps|;
    assert more[..n] == steps && more[n] == last;
    assert IsLastOf(more, id, n) && Touches(more[n], id);
    assert LeftOpenAt(env, more, id, n) <==> LeavesOpen(Run(env, steps).value, id, last);
    forall i: nat | IsLastOf(more, id, i)
      ensures i == n
    {
      if i < n {
        assert false;
      }
    }
  }

  lemma EndedBefore(env: Environment, steps: seq<Step>, id: string, last: Step)
    requires !Touches(last, id)
    ensures EndedOpen(env, steps + [last], id) <==> EndedOpen(env, steps, id)
  {
    var more, n := steps + [last], |steps|;
    forall i: nat
      ensures LeftOpenAt(env, more, id, i) <==> LeftOpenAt(env, steps, id, i)
    {
      if i < n {
        assert more[..i] == steps[..i] && more[i] == steps[i];
        LastOfBefore(steps, id, last, i);
      }
    }
  }

  lemma LastOfBefore(steps: seq<Step>, id: string, last: Step, i: nat)
    requires !Touches(last, id) && i < |steps|
    ensures IsLastOf(steps + [last], id, i) <==> IsLastOf(steps, id, i)
  {
    var more := steps + [last];
    assert more[i] == steps[i] && more[|steps|] == last;
    if IsLastOf(more, id, i) {
      forall j | i < j < |steps|
        ensures !Touches(steps[j], id)
      {
        assert more[j] == steps[j];
      }
    }
  }

  lemma FindsOwn(env: Environment, c: Catalog, id: string, step: Step)
    requires Invariant(env, c) && !c.restarted && Enabled(c, step) && Touches(step, id)
    ensures AtWork(c, id) && (Has(c.tasks, id, ClosingClient) && c.stop != Over ==> id in c.clients)
  {
    FindsAtWork(env, c, id);
  }

  lemma {:induction false} ClosedUnlessLeft(env: Environment, steps: seq<Step>, id: string)
    requires Run(env, steps).Some? && !Run(env, steps).value.restarted && Failure(Run(env, steps).value, id)
    ensures id in Run(env, steps).value.clients <==> EndedOpen(env, steps, id)
  {
    var n := |steps| - 1;
    var init, last := steps[..n], steps[n];
    var c := Run(env, init).value;
    assert init + [last] == steps;
    RunInvariant(env, init);
    RestartedAfter(env, c, last);
    if Touches(last, id) {
      FindsOwn(env, c, id, last);
      OwnStepCloses(env, c, id, last);
      EndsHere(env, init, id, last);
    } else {
      if IsTaskStep(last) {
        PeerStepCloses(env, c, id, last);
      } else {
        CallerStepCloses(env, c, id, last);
      }
      ClosedUnlessLeft(env, init, id);
      EndedBefore(env, init, id, last);
    }
  }

  /** A failed server whose task is over keeps a registered client, until the stop ends, exactly
      when closing that client raised or the task was cancelled while it closed it. */
  lemma FailedServerIsClosed(env: Environment, steps: seq<Step>, id: string)
    requires Run(env, steps).Some? && !Restarts(env, steps)
    requires var c := Run(env, steps).value;
             id in c.tasks && c.tasks[id].Finished? && id in c.status && c.status[id] == Unusable && c.stop != Over
    ensures id in Run(env, steps).value.clients <==> EndedOpen(env, steps, id)
  {
    RestartedByStart(env, steps);
    ClosedUnlessLeft(env, steps, id);
  }

  // ---- no start overwrites a task at work ----------------------------------

  ghost predicate RestsWhenOver(c: Catalog)
  {
    c.stop == Over && !c.started ==> AllFinished(c.tasks)
  }

  lemma RestsNext(env: Environment, c: Catalog, step: Step)
    requires Invariant(env, c) && !c.restarted && Enabled(c, step) && RestsWhenOver(c)
    ensures RestsWhenOver(Next(env, c, step))
  {
    if IsTaskStep(step) {
      FindsAtWork(env, c, step.id);
    }
  }

  lemma {:induction false} RunRests(env: Environment, steps: seq<Step>)
    requires Run(env, steps).Some? && !Run(env, steps).value.restarted
    ensures RestsWhenOver(Run(env, steps).value)
  {
    if steps != [] {
      var n := |steps| - 1;
      RunInvariant(env, steps[..n]);
      RestartedAfter(env, Run(env, steps[..n]).value, steps[n]);
      RunRests(env, steps[..n]);
      RestsNext(env, Run(env, steps[..n]).value, steps[n]);
    }
  }

  lemma StartFindsNone(c: Catalog)
    requires StopInvariant(c) && RestsWhenOver(c) && !c.started && c.stop != Draining
    ensures AllFinished(c.tasks)
  {
  }

  /** A task at work stays as it is, unless the step is its own. */
  lemma OnlyOwnSteps(env: Environment, c: Catalog, id: string, step: Step)
    requires Enabled(c, step) && c.replaced == map[] && (step.Start? && !c.started ==> AllFinished(c.tasks))
    requires id in c.tasks && !c.tasks[id].Finished?
    ensures Touches(step, id) || Has(Next(env, c, step).tasks, id, c.tasks[id])
  {
    if IsTaskStep(step) && step.id != id {
      PeersUntouched(env, c, step, id);
    }
  }

  /** No start, as long as none comes while a stop drains, finds a task at work. */
  lemma StartOverwritesNothing(env: Environment, steps: seq<Step>)
    requires Run(env, steps).Some? && !Restarts(env, steps + [Start])
    ensures var c := Run(env, steps).value; !c.started ==> AllFinished(c.tasks)
  {
    RestartsLater(env, steps, Start);
    RestartedByStart(env, steps);
    RunInvariant(env, steps);
    RunRests(env, steps);
    var c := Run(env, steps).value;
    if !c.started {
      StartFindsNone(c);
    }
  }

  /** The task of a failed server whose client is registered. */
  predicate Closes(c: Catalog, id: string)
  {
    id in c.tasks && !c.tasks[id].Finished? && id in c.status && c.status[id] == Unusable && id in c.clients
  }

  /** These steps end the wait for the close of the client of `id`. */
  predicate EndsClose(step: Step, id: string)
  {
    step in [ClientClosed(Newest, id, true), ClientClosed(Newest, id, false), Cancelled(Newest, id)]
  }

  lemma StillClosing(env: Environment, c: Catalog, id: string, step: Step)
    requires Enabled(c, step) && c.replaced == map[] && (step.Start? && !c.started ==> AllFinished(c.tasks))
    requires Has(c.tasks, id, ClosingClient) && !EndsClose(step, id)
    ensures Has(Next(env, c, step).tasks, id, ClosingClient)
  {
    OnlyOwnSteps(env, c, id, step);
  }

  lemma StillAwaited(env: Environment, steps: seq<Step>, id: string, step: Step)
    requires Run(env, steps).Some? && Has(Run(env, steps).value.tasks, id, ClosingClient) && !EndsClose(step, id)
    requires Enabled(Run(env, steps).value, step) && !Restarts(env, steps + [step])
    ensures Has(Next(env, Run(env, steps).value, step).tasks, id, ClosingClient)
  {
    RestartsLater(env, steps, step);
    RestartedByStart(env, steps);
    RunInvariant(env, steps);
    if step == Start {
      StartOverwritesNothing(env, steps);
    }
    StillClosing(env, Run(env, steps).value, id, step);
  }

  lemma {:induction false} AwaitedUntilClosed(env: Environment, steps: seq<Step>, id: string, more: seq<Step>)
    requires Run(env, steps).Some? && Has(Run(env, steps).value.tasks, id, ClosingClient)
    requires Run(env, steps + more).Some? && !Restarts(env, steps + more) && forall s :: s in more ==> !EndsClose(s, id)
    ensures Has(Run(env, steps + more).value.tasks, id, ClosingClient)
  {
    if more == [] {
      assert steps + more == steps;
    } else {
      var init, last := more[..|more| - 1], more[|more| - 1];
      var all := steps + init;
      assert steps + more == all + [last];
      LastStep(env, all, last);
      RunExtends(env, all, last);
      RestartsLater(env, all, last);
      AwaitedUntilClosed(env, steps, id, init);
      StillAwaited(env, all, id, last);
    }
  }

  /** The task of a failed server with a registered client is not over before the client was
      closed, or closing it raised, or the task was cancelled. */
  lemma ClosingIsAwaited(env: Environment, steps: seq<Step>, id: string, more: seq<Step>)
    requires Run(env, steps).Some? && Closes(Run(env, steps).value, id)
    requires Run(env, steps + more).Some? && !Restarts(env, steps + more)
    requires Has(Run(env, steps + more).value.tasks, id, Finished(true)) || Has(Run(env, steps + more).value.tasks, id, Finished(false))
    ensures ClientClosed(Newest, id, true) in more || ClientClosed(Newest, id, false) in more || Cancelled(Newest, id) in more
  {
    NoRestartBefore(env, steps, more);
    RunInvariant(env, steps);
    RestartedByStart(env, steps);
    FindsAtWork(env, Run(env, steps).value, id);
    if forall s :: s in more ==> !EndsClose(s, id) {
      AwaitedUntilClosed(env, steps, id, more);
    }
  }

  lemma NoRestartBefore(env: Environment, steps: seq<Step>, more: seq<Step>)
    requires !Restarts(env, steps + more)
    ensures !Restarts(env, steps)
  {
    forall i: nat
      ensures !RestartsAt(env, steps, i)
    {
      if i < |steps| {
        assert (steps + more)[..i] == steps[..i] && (steps + more)[i] == steps[i];
        assert !RestartsAt(env, steps + more, i);
      }
    }
  }

  /** `d` is reached from `c` by exactly these steps. */
  ghost predicate Follows(env: Environment, c: Catalog, more: seq<Step>, d: Catalog)
    decreases |more|
  {
    if more == [] then d == c else Enabled(c, more[0]) && Follows(env, Next(env, c, more[0]), more[1..], d)
  }

  lemma FollowsCons(env: Environment, c: Catalog, step: Step, rest: seq<Step>, d: Catalog)
    requires Enabled(c, step) && Follows(env, Next(env, c, step), rest, d)
    ensures Follows(env, c, [step] + rest, d)
  {
    assert ([step] + rest)[1..] == rest;
  }

  lemma ShiftOne(steps: seq<Step>, more: seq<Step>)
    requires more != []
    ensures steps + [more[0]] + more[1..] == steps + more
  {
  }

  lemma Extends(env: Environment, steps: seq<Step>, c: Catalog, step: Step) returns (longer: seq<Step>)
    requires Run(env, steps) == Some(c) && Enabled(c, step)
    ensures longer == steps + [step] && Run(env, longer) == Some(Next(env, c, step))
  {
    RunExtends(env, steps, step);
    longer := steps + [step];
  }

  lemma {:induction false} FollowsRun(env: Environment, steps: seq<Step>, c: Catalog, more: seq<Step>, d: Catalog)
    requires Run(env, steps) == Some(c) && Follows(env, c, more, d)
    ensures Run(env, steps + more) == Some(d)
    decreases |more|
  {
    if more == [] {
      assert steps + more == steps;
    } else {
      var longer := Extends(env, steps, c, more[0]);
      FollowsRun(env, longer, Next(env, c, more[0]), more[1..], d);
      ShiftOne(steps, more);
    }
  }

  lemma FollowsOnce(env: Environment, c: Catalog, step: Step)
    requires Enabled(c, step)
    ensures Follows(env, c, [step], Next(env, c, step))
  {
    assert [step][1..] == [];
  }

  lemma {:induction false} FollowsOn(env: Environment, c: Catalog, first: seq<Step>, d: Catalog, second: seq<Step>, e: Catalog)
    requires Follows(env, c, first, d) && Follows(env, d, second, e)
    ensures Follows(env, c, first + second, e)
    decreases |first|
  {
    if first == [] {
      assert first + second == second;
    } else {
      FollowsOn(env, Next(env, c, first[0]), first[1..], d, second, e);
      FollowsCons(env, c, first[0], first[1..] + second, e);
      assert [first[0]] + (first[1..] + second) == first + second;
    }
  }

  predicate NoneClosed(steps: seq<Step>)
  {
    forall s :: s in steps ==> !s.ClientClosed?
  }

  lemma FollowsSnoc(env: Environment, steps: seq<Step>, c: Catalog, step: Step) returns (more: seq<Step>)
    requires Follows(env, NEW_CATALOG, steps, c) && NoneClosed(steps) && Enabled(c, step) && !step.ClientClosed?
    ensures Follows(env, NEW_CATALOG, more, Next(env, c, step)) && NoneClosed(more)
  {
    FollowsOnce(env, c, step);
    FollowsOn(env, NEW_CATALOG, steps, c, [step], Next(env, c, step));
    more := steps + [step];
  }

  lemma GoesOn(env: Environment, steps: seq<Step>, c: Catalog, id: string, last: Option<Step>, step: Step)
    returns (more: seq<Step>, d: Catalog)
    requires Follows(env, NEW_CATALOG, steps, c) && NoneClosed(steps) && Up(c) && Stands(env, c, id, last)
    requires Enabled(c, step) && Touches(step, id) && !step.ClientClosed?
    ensures Follows(env, NEW_CATALOG, more, d) && NoneClosed(more) && Up(d) && Stands(env, d, id, Some(step))
  {
    more := FollowsSnoc(env, steps, c, step);
    d := Next(env, c, step);
    OwnStep(env, c, id, last, step);
  }

  lemma StartedServer(env: Environment, id: string) returns (steps: seq<Step>, c: Catalog)
    requires id in env.ids
    ensures Follows(env, NEW_CATALOG, steps, c) && NoneClosed(steps) && Up(c) && Stands(env, c, id, None)
  {
    steps := FollowsSnoc(env, [], NEW_CATALOG, Start);
    StartStands(env, NEW_CATALOG, id);
    c := Started(NEW_CATALOG, env.ids);
  }

  lemma ListedServer(env: Environment, id: string) returns (steps: seq<Step>, c: Catalog)
    requires id in env.ids
    ensures Follows(env, NEW_CATALOG, steps, c) && NoneClosed(steps) && Up(c) && Stands(env, c, id, Some(Listed(id)))
  {
    steps, c := StartedServer(env, id);
    steps, c := GoesOn(env, steps, c, id, None, Begins(id));
    steps, c := GoesOn(env, steps, c, id, Some(Begins(id)), Opened(id));
    steps, c := GoesOn(env, steps, c, id, Some(Opened(id)), Listed(id));
  }

  /** A task cancelled while it closes the client of a server whose tool list was refused ends
      with the client registered, although closing it did not raise. */
  lemma CancelledCloseLeavesClient(env: Environment, id: string) returns (steps: seq<Step>, c: Catalog)
    requires id in env.ids && !Acceptable(env.advertised(id))
    ensures Run(env, steps) == Some(c) && NoneClosed(steps)
    ensures Failure(c, id) && id in c.clients
  {
    var refused;
    steps, refused := ListedServer(env, id);
    CancelLeavesClient(env, refused, id);
    steps := FollowsSnoc(env, steps, refused, Cancelled(Newest, id));
    c := Next(env, refused, Cancelled(Newest, id));
    FollowsRun(env, [], NEW_CATALOG, steps, c);
    assert [] + steps == steps;
  }

  lemma CancelLeavesClient(env: Environment, c: Catalog, id: string)
    requires Up(c) && Stands(env, c, id, Some(Listed(id))) && !Acceptable(env.advertised(id))
    ensures Enabled(c, Cancelled(Newest, id))
    ensures var d := Next(env, c, Cancelled(Newest, id)); Failure(d, id) && id in d.clients
  {
  }

  // ---- every stop can end --------------------------------------------------

  function Unfinished(tasks: map<string, Task>): (ids: set<string>)
  {
    set id | id in tasks && !tasks[id].Finished?
  }

  lemma CancelOne(env: Environment, c: Catalog, id: string) returns (d: Catalog)
    requires id in Unfinished(c.tasks)
    ensures Enabled(c, Cancelled(Newest, id)) && d == Next(env, c, Cancelled(Newest, id))
    ensures d.stop == c.stop && d.restarted == c.restarted
    ensures Unfinished(d.tasks) == Unfinished(c.tasks) - {id} && |Unfinished(d.tasks)| < |Unfinished(c.tasks)|
  {
    d := Next(env, c, Cancelled(Newest, id));
  }

  lemma NoneUnfinished(tasks: map<string, Task>)
    requires Unfinished(tasks) == {}
    ensures AllFinished(tasks)
  {
    forall id | id in tasks
      ensures tasks[id].Finished?
    {
      assert id !in Unfinished(tasks);
    }
  }

  lemma {:induction false} CancelAll(env: Environment, c: Catalog) returns (more: seq<Step>, d: Catalog)
    ensures |more| <= |Unfinished(c.tasks)| && forall s :: s in more ==> s.Cancelled?
    ensures Follows(env, c, more, d)
    ensures d.stop == c.stop && d.restarted == c.restarted && AllFinished(d.tasks)
    decreases |Unfinished(c.tasks)|
  {
    if id :| id in Unfinished(c.tasks) {
      var next := CancelOne(env, c, id);
      var rest;
      rest, d := CancelAll(env, next);
      more := [Cancelled(Newest, id)] + rest;
      FollowsCons(env, c, Cancelled(Newest, id), rest, d);
    } else {
      more, d := [], c;
      NoneUnfinished(c.tasks);
    }
  }

  /** The steps of a stop: its own, and the cancellations it asks for. */
  predicate IsStopStep(step: Step)
  {
    step.StopBegins? || step.Cancelled? || step.Drained? || step.StopEnds?
  }

  /** Nothing is published, listed as ready or registered any more. */
  predicate Ended(c: Catalog)
  {
    c.stop == Over && c.tools == [] && c.clients == {} && forall id :: id in c.status ==> !c.status[id].Ready?
  }

  lemma ClosingCanEnd(env: Environment, c: Catalog) returns (d: Catalog)
    requires c.stop == Closing && NoneOpening(c.tasks)
    ensures Follows(env, c, [StopEnds], d) && Ended(d)
  {
    d := Next(env, c, StopEnds);
    FollowsOnce(env, c, StopEnds);
  }

  lemma DrainedCanEnd(env: Environment, c: Catalog) returns (d: Catalog)
    requires c.stop == Draining && !c.restarted && AllFinished(c.tasks)
    ensures Follows(env, c, [Drained, StopEnds], d) && Ended(d)
  {
    d := ClosingCanEnd(env, Shutting(c));
    FollowsCons(env, c, Drained, [StopEnds], d);
    assert [Drained] + [StopEnds] == [Drained, StopEnds];
  }

  lemma DrainingCanEnd(env: Environment, c: Catalog) returns (more: seq<Step>, d: Catalog)
    requires c.stop == Draining && !c.restarted
    ensures |more| <= |Unfinished(c.tasks)| + 2 && forall s :: s in more ==> IsStopStep(s)
    ensures Follows(env, c, more, d) && Ended(d)
  {
    var cancels, idle := CancelAll(env, c);
    d := DrainedCanEnd(env, idle);
    more := cancels + [Drained, StopEnds];
    FollowsOn(env, c, cancels, idle, [Drained, StopEnds], d);
  }

  lemma CalledCanEnd(env: Environment, c: Catalog) returns (more: seq<Step>, d: Catalog)
    requires c.stop == Called && !c.restarted
    ensures |more| <= |Unfinished(c.tasks)| + 3 && forall s :: s in more ==> IsStopStep(s)
    ensures Follows(env, c, more, d) && Ended(d)
  {
    var next, rest := Stopping(c), [StopEnds];
    if AllFinished(c.tasks) {
      d := ClosingCanEnd(env, next);
    } else {
      rest, d := DrainingCanEnd(env, next);
    }
    more := [StopBegins] + rest;
    FollowsCons(env, c, StopBegins, rest, d);
  }

  /** Wherever a stop stands, as long as no start came while it drained, its own steps and one
      cancellation for each task at work let it end; nothing is published or registered then. */
  lemma StopCanEnd(env: Environment, steps: seq<Step>, c: Catalog) returns (more: seq<Step>, d: Catalog)
    requires Run(env, steps) == Some(c) && !Restarts(env, steps) && c.stop !in {Idle, Over}
    ensures |more| <= |Unfinished(c.tasks)| + 3 && forall s :: s in more ==> IsStopStep(s)
    ensures Run(env, steps + more) == Some(d)
    ensures d.stop == Over && d.tools == [] && d.clients == {} && forall id :: id in d.status ==> !d.status[id].Ready?
  {
    NoneOpeningWhenClosing(env, steps);
    if c.stop == Closing {
      more := [StopEnds];
      d := ClosingCanEnd(env, c);
    } else if c.stop == Draining {
      more, d := DrainingCanEnd(env, c);
    } else {
      more, d := CalledCanEnd(env, c);
    }
    FollowsRun(env, steps, c, more, d);
  }

  lemma NoneOpeningWhenClosing(env: Environment, steps: seq<Step>)
    requires Run(env, steps).Some? && !Restarts(env, steps)
    ensures var c := Run(env, steps).value; !c.restarted && (c.stop == Closing ==> NoneOpening(c.tasks))
  {
    RestartedByStart(env, steps);
    RunInvariant(env, steps);
  }
}
