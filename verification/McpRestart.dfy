/** What a start brings that comes while a stop of the MCP provider is under way
    (adapters/mcp_tool_provider.py). */
module McpRestart {
  import opened Common
  import opened McpDiscovery
  import opened McpCatalog

  // ---- a start while the stop drains ---------------------------------------

  /** The new task of `id` will find the server's lock free, or not need it. */
  ghost predicate WayIsFree(c: Catalog, id: string)
  {
    id in c.clients || !OtherHolds(c, Newest, id)
  }

  /** A stop drains that some replaced task keeps waiting, a task for `id` has been made. */
  ghost predicate DrainingAgain(c: Catalog, id: string, t: Task)
  {
    && c.stop == Draining && c.started && c.restarted && !c.managerClosed
    && AllBegun(c.replaced) && !AllFinished(c.replaced) && Has(c.tasks, id, t)
  }

  ghost predicate PublishedWhileDraining(env: Environment, c: Catalog, id: string)
  {
    && DrainingAgain(c, id, Finished(false))
    && id in c.serverTools && c.tools == Published(env.ids, c.serverTools)
  }

  /** A task that has its client publishes what it is told. */
  lemma ThenPublishes(env: Environment, steps: seq<Step>, id: string) returns (more: seq<Step>)
    requires Run(env, steps).Some? && DrainingAgain(Run(env, steps).value, id, Discovering) && Advertises(env, id)
    ensures more == [Listed(id)] && Run(env, steps + more).Some? && PublishedWhileDraining(env, Run(env, steps + more).value, id)
  {
    more := [Listed(id)];
    RunExtends(env, steps, Listed(id));
  }

  lemma ThenOpens(env: Environment, steps: seq<Step>, id: string) returns (more: seq<Step>)
    requires Run(env, steps).Some? && DrainingAgain(Run(env, steps).value, id, Opening) && Advertises(env, id)
    ensures Run(env, steps + more).Some? && PublishedWhileDraining(env, Run(env, steps + more).value, id)
  {
    RunExtends(env, steps, Opened(id));
    var rest := ThenPublishes(env, steps + [Opened(id)], id);
    more := [Opened(id)] + rest;
    assert steps + [Opened(id)] + rest == steps + more;
  }

  lemma ThenBegins(env: Environment, steps: seq<Step>, id: string) returns (more: seq<Step>)
    requires Run(env, steps).Some? && DrainingAgain(Run(env, steps).value, id, Created) && Advertises(env, id)
    requires WayIsFree(Run(env, steps).value, id)
    ensures Run(env, steps + more).Some? && PublishedWhileDraining(env, Run(env, steps + more).value, id)
  {
    var c := Run(env, steps).value;
    RunExtends(env, steps, Begins(id));
    var rest;
    if id in c.clients {
      rest := ThenPublishes(env, steps + [Begins(id)], id);
    } else {
      rest := ThenOpens(env, steps + [Begins(id)], id);
    }
    more := [Begins(id)] + rest;
    assert steps + [Begins(id)] + rest == steps + more;
  }

  /** The new task waits for the lock until the cancelled one, still opening its client,
      has ended; meanwhile another replaced task keeps the stop draining. */
  lemma ThenWaits(env: Environment, steps: seq<Step>, id: string, other: string) returns (more: seq<Step>)
    requires Run(env, steps).Some? && DrainingAgain(Run(env, steps).value, id, Created) && Advertises(env, id)
    requires Books(env, Run(env, steps).value)
    requires id !in Run(env, steps).value.clients && Has(Run(env, steps).value.replaced, id, Opening)
    requires other != id && other in Run(env, steps).value.replaced && !Run(env, steps).value.replaced[other].Finished?
    ensures Run(env, steps + more).Some? && PublishedWhileDraining(env, Run(env, steps + more).value, id)
  {
    var c := Run(env, steps).value;
    RunExtends(env, steps, Begins(id));
    var rest := ThenLetsGo(env, steps + [Begins(id)], id, other);
    more := [Begins(id)] + rest;
    assert steps + [Begins(id)] + rest == steps + more;
  }

  lemma ThenLetsGo(env: Environment, steps: seq<Step>, id: string, other: string) returns (more: seq<Step>)
    requires Run(env, steps).Some? && DrainingAgain(Run(env, steps).value, id, Waiting) && Advertises(env, id)
    requires id !in Run(env, steps).value.clients && Has(Run(env, steps).value.replaced, id, Opening)
    requires other != id && other in Run(env, steps).value.replaced && !Run(env, steps).value.replaced[other].Finished?
    ensures Run(env, steps + more).Some? && PublishedWhileDraining(env, Run(env, steps + more).value, id)
  {
    RunExtends(env, steps, Cancelled(Replaced, id));
    var ended := steps + [Cancelled(Replaced, id)];
    assert Run(env, ended).value.replaced[other] == Run(env, steps).value.replaced[other];
    var rest := ThenTakes(env, ended, id);
    more := [Cancelled(Replaced, id)] + rest;
    assert ended + rest == steps + more;
  }

  lemma ThenTakes(env: Environment, steps: seq<Step>, id: string) returns (more: seq<Step>)
    requires Run(env, steps).Some? && DrainingAgain(Run(env, steps).value, id, Waiting) && Advertises(env, id)
    requires id !in Run(env, steps).value.clients && !OtherHolds(Run(env, steps).value, Newest, id)
    ensures Run(env, steps + more).Some? && PublishedWhileDraining(env, Run(env, steps + more).value, id)
  {
    RunExtends(env, steps, LockTaken(Newest, id));
    var rest := ThenOpens(env, steps + [LockTaken(Newest, id)], id);
    more := [LockTaken(Newest, id)] + rest;
    assert steps + [LockTaken(Newest, id)] + rest == steps + more;
  }

  /** Something keeps the stop draining besides a task of `id` that holds the lock. */
  ghost predicate DrainsBesides(c: Catalog, id: string)
  {
    exists k :: k in c.tasks && !c.tasks[k].Finished? && (k == id ==> c.tasks[k] != Opening)
  }

  /** From any moment at which a stop drains, all its tasks have begun and something is
      drained besides the opening of `id`: a `start` lets server `id`, if it advertises
      acceptable tools, publish them while the stop still drains. */
  lemma RestartPublishes(env: Environment, steps: seq<Step>, id: string) returns (more: seq<Step>)
    requires Run(env, steps).Some? && !Restarts(env, steps) && Advertises(env, id)
    requires var c := Run(env, steps).value; c.stop == Draining && AllBegun(c.tasks) && DrainsBesides(c, id)
    ensures Run(env, steps + [Start] + more).Some?
    ensures PublishedWhileDraining(env, Run(env, steps + [Start] + more).value, id)
  {
    RunInvariant(env, steps);
    RestartedByStart(env, steps);
    var c := Run(env, steps).value;
    RunExtends(env, steps, Start);
    RunInvariant(env, steps + [Start]);
    var k :| k in c.tasks && !c.tasks[k].Finished? && (k == id ==> c.tasks[k] != Opening);
    if id !in c.clients && Has(c.tasks, id, Opening) {
      more := ThenWaits(env, steps + [Start], id, k);
    } else {
      StartFindsFree(env, c, id);
      more := ThenBegins(env, steps + [Start], id);
    }
  }

  lemma StartFindsFree(env: Environment, c: Catalog, id: string)
    requires Invariant(env, c) && !c.restarted && c.stop == Draining && (id in c.clients || !Has(c.tasks, id, Opening))
    ensures WayIsFree(Started(c, env.ids), id)
  {
  }

  // ---- three runs of a single server ---------------------------------------

  ghost predicate OneServer(env: Environment, id: string)
  {
    env.ids == [id] && Acceptable(env.advertised(id))
  }

  /** A provider stopped and started again while its only server, whose client is
      registered, is asked for its tools. */
  function Again(id: string): (steps: seq<Step>)
  {
    [Start] + [Begins(id)] + [Opened(id)] + [StopCalled] + [StopBegins] + [Start] + [Begins(id)]
  }

  /** Both the old task and the new one await the tool list. */
  ghost predicate BothAsk(c: Catalog, id: string)
  {
    && c.stop == Draining && c.started && c.restarted && !c.managerClosed && id in c.status
    && c.tasks.Keys == {id} && c.replaced.Keys == {id}
    && c.tasks[id] == Discovering && c.replaced[id] == Discovering
  }

  lemma AgainRuns(env: Environment, id: string)
    requires OneServer(env, id)
    ensures Run(env, Again(id)).Some? && BothAsk(Run(env, Again(id)).value, id)
  {
    var stopped := StoppedRuns(env, id);
    RunExtends(env, stopped, Start);
    RunExtends(env, stopped + [Start], Begins(id));
    assert stopped + [Start] + [Begins(id)] == Again(id);
  }

  lemma StoppedRuns(env: Environment, id: string) returns (steps: seq<Step>)
    requires OneServer(env, id)
    ensures steps == [Start] + [Begins(id)] + [Opened(id)] + [StopCalled] + [StopBegins] && Run(env, steps).Some?
    ensures var c := Run(env, steps).value;
            && c.stop == Draining && !c.started && !c.restarted && !c.managerClosed && c.clients == {id}
            && c.tasks.Keys == {id} && c.tasks[id] == Discovering && c.replaced == map[] && id in c.status
  {
    var first := OpenedRuns(env, id);
    RunExtends(env, first, StopCalled);
    RunExtends(env, first + [StopCalled], StopBegins);
    assert !AllFinished(Run(env, first).value.tasks);
    steps := first + [StopCalled] + [StopBegins];
  }

  lemma OpenedRuns(env: Environment, id: string) returns (steps: seq<Step>)
    requires OneServer(env, id)
    ensures steps == [Start] + [Begins(id)] + [Opened(id)] && Run(env, steps).Some?
    ensures var c := Run(env, steps).value;
            && c.stop == Idle && c.started && !c.restarted && !c.managerClosed && c.clients == {id}
            && c.tasks.Keys == {id} && c.tasks[id] == Discovering && c.replaced == map[] && id in c.status
  {
    steps := [];
    RunExtends(env, steps, Start);
    assert steps + [Start] == [Start];
    assert [id][..0] == [];
    RunExtends(env, [Start], Begins(id));
    RunExtends(env, [Start] + [Begins(id)], Opened(id));
    steps := [Start] + [Begins(id)] + [Opened(id)];
  }

  /** Such a task can even publish after the stop has ended: nothing withdraws that. */
  lemma RestartOutlivesStop(env: Environment, id: string)
    requires OneServer(env, id)
    ensures var steps := Again(id) + [Cancelled(Replaced, id)] + [Drained] + [StopEnds] + [Listed(id)];
            && Run(env, steps).Some? && Run(env, steps).value.stop == Over
            && id in Run(env, steps).value.serverTools
  {
    AgainRuns(env, id);
    var ended := Again(id) + [Cancelled(Replaced, id)];
    RunExtends(env, Again(id), Cancelled(Replaced, id));
    assert AllFinished(Run(env, ended).value.replaced);
    StillAsks(env, ended, id);
    RunExtends(env, ended + [Drained] + [StopEnds], Listed(id));
  }

  lemma StillAsks(env: Environment, steps: seq<Step>, id: string)
    requires Run(env, steps).Some?
    requires var c := Run(env, steps).value;
             c.stop == Draining && c.started && c.restarted && AllFinished(c.replaced) && c.tasks == map[id := Discovering]
    ensures Run(env, steps + [Drained] + [StopEnds]).Some?
    ensures var c := Run(env, steps + [Drained] + [StopEnds]).value;
            c.stop == Over && c.started && c.tasks == map[id := Discovering]
  {
    RunExtends(env, steps, Drained);
    RunExtends(env, steps + [Drained], StopEnds);
  }

  /** And a start-up task the stop cancelled can report the server stopped when the new one has
      published it: that has ended without raising, yet the server is not ready. */
  lemma RestartConfusesStatus(env: Environment, id: string)
    requires OneServer(env, id)
    ensures var steps := Again(id) + [Listed(id)] + [Cancelled(Replaced, id)];
            && Run(env, steps).Some? && ConfusedAt(Run(env, steps).value, id)
  {
    AgainRuns(env, id);
    RunExtends(env, Again(id), Listed(id));
    RunExtends(env, Again(id) + [Listed(id)], Cancelled(Replaced, id));
  }

  ghost predicate ConfusedAt(c: Catalog, id: string)
  {
    c.started && id in c.serverTools && id in c.tasks && c.tasks[id] == Finished(false) && id !in ReadyServers(c)
  }

  /** A start that comes while the manager closes is told of tools no server is ready for,
      until the stop ends. */
  lemma ClosingStartIsStale(env: Environment, id: string)
    requires OneServer(env, id)
    ensures var steps := [Start] + [Begins(id)] + [Opened(id)] + [Listed(id)] + [StopCalled] + [StopBegins] + [Start];
            && Run(env, steps).Some?
            && (var c := Run(env, steps).value; c.stop == Closing && c.started && id in c.serverTools && ReadyServers(c) == {})
            && !Restarts(env, steps)
  {
    var stopped := ClosingRuns(env, id);
    RunExtends(env, stopped, Start);
    RestartedByStart(env, stopped + [Start]);
    RunInvariant(env, stopped + [Start]);
    NoneReady(env, Run(env, stopped + [Start]).value);
  }

  lemma ClosingRuns(env: Environment, id: string) returns (steps: seq<Step>)
    requires OneServer(env, id)
    ensures steps == [Start] + [Begins(id)] + [Opened(id)] + [Listed(id)] + [StopCalled] + [StopBegins]
    ensures Run(env, steps).Some?
    ensures var c := Run(env, steps).value; c.stop == Closing && !c.started && !c.restarted && id in c.serverTools
  {
    var first := OpenedRuns(env, id);
    RunExtends(env, first, Listed(id));
    RunExtends(env, first + [Listed(id)], StopCalled);
    RunExtends(env, first + [Listed(id)] + [StopCalled], StopBegins);
    steps := first + [Listed(id)] + [StopCalled] + [StopBegins];
  }

  lemma NoneReady(env: Environment, c: Catalog)
    requires Invariant(env, c) && !c.restarted && c.stop == Closing && c.started
    ensures ReadyServers(c) == {}
  {
  }
}
