/** Publishing the tools of configured MCP servers (adapters/mcp_tool_provider.py and
    the manager in ports/mcp.py). Start-up tasks, one per server, run interleaved;
    every stretch between two awaits is one step. The first part is the steps as
    functions, the second the provider object that performs them in place, the third what
    holds in every run. */
module McpCatalog {
  import opened Common
  import opened McpDiscovery

  // ---- the steps -----------------------------------------------------------

  /** The configuration, and what each server advertises when it is asked. */
  datatype Environment = Environment(ids: seq<string>, required: set<string>, advertised: string -> seq<RawTool>)

  ghost predicate ValidEnvironment(env: Environment)
  {
    && (forall i :: 0 <= i < |env.ids| ==> ValidId(env.ids[i]))
    && (forall i, j :: 0 <= i < j < |env.ids| ==> env.ids[i] != env.ids[j])
  }

  /** A start-up task: not run yet; awaiting the lock of its server or, holding it, the
      client; awaiting the tool list; after a failure awaiting the lock again or, holding
      it, the close of its client; over (`raised` or not). */
  datatype Task =
    | Created | Waiting | Opening | Discovering | CloseWaiting | ClosingClient
    | Finished(raised: bool)

  datatype Status = Pending | Ready(tools: nat) | Unusable | Halted

  /** `Called` is a stop task that has not run yet; `Draining` awaits the start-up
      tasks, `Closing` the client manager. */
  datatype StopPhase = Idle | Called | Draining | Closing | Over

  /** `clients` are those registered with the manager. `replaced` are start-up tasks whose
      entry a later `start` has overwritten; `restarted` says that such a `start` came
      while a stop was draining. */
  datatype Catalog = Catalog(
    started: bool,
    tools: seq<Spec>,
    serverTools: map<string, seq<Spec>>,
    status: map<string, Status>,
    tasks: map<string, Task>,
    stop: StopPhase,
    managerClosed: bool,
    clients: set<string>,
    replaced: map<string, Task>,
    restarted: bool)

  const NEW_CATALOG := Catalog(false, [], map[], map[], map[], Idle, false, {}, map[], false)

  /** The start-up task a server has now, or the one it had before a `start` replaced it. */
  datatype Which = Newest | Replaced

  datatype Step =
    | Start
    | Begins(id: string)
    | LockTaken(which: Which, id: string)
    | Opened(id: string)
    | Listed(id: string)
    | Failed(which: Which, id: string)
    | ClientClosed(which: Which, id: string, ok: bool)
    | Cancelled(which: Which, id: string)
    | StopCalled
    | StopBegins
    | Drained
    | StopEnds

  /** The tools of all servers in configured order. */
  function Published(ids: seq<string>, serverTools: map<string, seq<Spec>>): (tools: seq<Spec>)
  {
    if ids == [] then []
    else (if ids[0] in serverTools then serverTools[ids[0]] else []) + Published(ids[1..], serverTools)
  }

  /** `tools` are the lists of the published servers one after the other, each as it was
      advertised, in the order of `ids`. */
  ghost predicate InConfiguredOrder(ids: seq<string>, serverTools: map<string, seq<Spec>>, tools: seq<Spec>)
  {
    exists parts: seq<seq<Spec>> :: ArePublished(ids, serverTools, parts) && tools == Flatten(parts)
  }

  ghost predicate ArePublished(ids: seq<string>, serverTools: map<string, seq<Spec>>, parts: seq<seq<Spec>>)
  {
    && |parts| == |ids|
    && forall i :: 0 <= i < |ids| ==> parts[i] == if ids[i] in serverTools then serverTools[ids[i]] else []
  }

  lemma {:induction false} PublishedParts(ids: seq<string>, serverTools: map<string, seq<Spec>>)
    returns (parts: seq<seq<Spec>>)
    ensures ArePublished(ids, serverTools, parts) && Published(ids, serverTools) == Flatten(parts)
  {
    if ids == [] {
      parts := [];
    } else {
      var rest := PublishedParts(ids[1..], serverTools);
      var first := if ids[0] in serverTools then serverTools[ids[0]] else [];
      FlattenCons(first, rest);
      parts := [first] + rest;
    }
  }

  lemma PublishedInOrder(ids: seq<string>, serverTools: map<string, seq<Spec>>)
    ensures InConfiguredOrder(ids, serverTools, Published(ids, serverTools))
  {
    var parts := PublishedParts(ids, serverTools);
  }

  predicate AllFinished(tasks: map<string, Task>)
  {
    forall id :: id in tasks ==> tasks[id].Finished?
  }

  function TasksOf(c: Catalog, which: Which): (tasks: map<string, Task>)
  {
    if which == Newest then c.tasks else c.replaced
  }

  function WithTask(c: Catalog, which: Which, id: string, t: Task): (r: Catalog)
  {
    if which == Newest then c.(tasks := c.tasks[id := t]) else c.(replaced := c.replaced[id := t])
  }

  predicate Has(tasks: map<string, Task>, id: string, t: Task)
  {
    id in tasks && tasks[id] == t
  }

  predicate Holds(tasks: map<string, Task>, id: string)
  {
    Has(tasks, id, Opening) || Has(tasks, id, ClosingClient)
  }

  /** The manager's lock of a server is in the hands of its other task. */
  predicate OtherHolds(c: Catalog, which: Which, id: string)
  {
    Holds(TasksOf(c, if which == Newest then Replaced else Newest), id)
  }

  /** The stop has cancelled these tasks: whatever they await is cancelled with them and
      does not return to them normally. */
  predicate Doomed(c: Catalog, which: Which)
  {
    which == Replaced || (c.stop == Draining && !c.restarted)
  }

  /** The tasks the draining stop awaits. */
  function Awaited(c: Catalog): (tasks: map<string, Task>)
  {
    if c.restarted then c.replaced else c.tasks
  }

  predicate NoneOpening(tasks: map<string, Task>)
  {
    forall id :: id in tasks ==> tasks[id] != Opening
  }

  predicate AllBegun(tasks: map<string, Task>)
  {
    forall id :: id in tasks ==> tasks[id] != Created
  }

  /** Tasks first run in the order in which they were created. A closed manager hands out
      no client, and closing it takes every lock in turn. */
  predicate Enabled(c: Catalog, step: Step)
  {
    match step
    case Start => true
    case Begins(id) => Has(c.tasks, id, Created) && !Doomed(c, Newest) && AllBegun(c.replaced)
    case LockTaken(which, id) =>
      && (Has(TasksOf(c, which), id, CloseWaiting) || (Has(TasksOf(c, which), id, Waiting) && !Doomed(c, which)))
      && !OtherHolds(c, which, id)
    case Opened(id) => Has(c.tasks, id, Opening) && !Doomed(c, Newest) && !c.managerClosed
    case Listed(id) => Has(c.tasks, id, Discovering) && !Doomed(c, Newest)
    case Failed(which, id) =>
      var tasks := TasksOf(c, which);
      Has(tasks, id, Waiting) || Has(tasks, id, Opening) || Has(tasks, id, Discovering)
    case ClientClosed(which, id, _) => Has(TasksOf(c, which), id, ClosingClient)
    case Cancelled(which, id) => id in TasksOf(c, which) && !TasksOf(c, which)[id].Finished?
    case StopCalled => true
    case StopBegins => c.stop == Called
    case Drained => c.stop == Draining && AllFinished(Awaited(c))
    case StopEnds => c.stop == Closing && NoneOpening(c.tasks)
  }

  /** `m` after every identity in `ids` was assigned `v`. */
  function Assigned<V>(m: map<string, V>, ids: seq<string>, v: V): (r: map<string, V>)
    ensures forall id :: id in r <==> id in m || id in ids
    ensures forall id :: id in r ==> r[id] == if id in ids then v else m[id]
  {
    if ids == [] then m
    else Assigned(m, ids[..|ids| - 1], v)[ids[|ids| - 1] := v]
  }

  function Started(c: Catalog, ids: seq<string>): (r: Catalog)
  {
    if c.started then c
    else c.(started := true,
            replaced := if c.stop == Draining then c.tasks else c.replaced,
            restarted := c.restarted || c.stop == Draining,
            status := Assigned(c.status, ids, Pending),
            tasks := Assigned(c.tasks, ids, Created))
  }

  /** What a stretch of one task does: where it leaves the task, the row it writes, if
      any, and the registered clients. */
  datatype Effect = Effect(task: Task, row: Option<Status>, clients: set<string>)

  function Changed(c: Catalog, which: Which, id: string, e: Effect): (r: Catalog)
  {
    WithTask(c.(status := if e.row.Some? then c.status[id := e.row.value] else c.status, clients := e.clients),
             which, id, e.task)
  }

  /** `close_server`: without a registered client there is nothing to await. */
  function Closed(c: Catalog, required: set<string>, which: Which, id: string): (t: Task)
  {
    if OtherHolds(c, which, id) then CloseWaiting
    else if id in c.clients then ClosingClient
    else Finished(id in required)
  }

  /** An error: the lock is released, the row says so, and the server is closed. */
  function Failing(c: Catalog, required: set<string>, which: Which, id: string): (e: Effect)
  {
    Effect(Closed(c, required, which, id), Some(Unusable), c.clients)
  }

  /** `get_client` once it is known whether the lock is free. */
  function Getting(c: Catalog, required: set<string>, which: Which, id: string): (e: Effect)
  {
    if id in c.clients then Effect(Discovering, None, c.clients)
    else if c.managerClosed then Failing(c, required, which, id)
    else Effect(if OtherHolds(c, which, id) then Waiting else Opening, None, c.clients)
  }

  function Beginning(c: Catalog, required: set<string>, id: string): (e: Effect)
  {
    if c.managerClosed then Failing(c, required, Newest, id) else Getting(c, required, Newest, id)
  }

  function Taking(c: Catalog, required: set<string>, which: Which, id: string): (e: Effect)
  {
    if Has(TasksOf(c, which), id, CloseWaiting) then Effect(Closed(c, required, which, id), None, c.clients)
    else Getting(c, required, which, id)
  }

  /** A task that never ran, or had already failed, leaves its row alone. */
  function Cancelling(c: Catalog, which: Which, id: string): (e: Effect)
  {
    var tasks := TasksOf(c, which);
    var quiet := Has(tasks, id, Created) || Has(tasks, id, CloseWaiting) || Has(tasks, id, ClosingClient);
    Effect(Finished(true), if quiet then None else Some(Halted), c.clients)
  }

  /** What a step does to its task, unless it publishes. */
  function EffectOf(c: Catalog, required: set<string>, step: Step): (e: Effect)
    requires IsTaskStep(step)
  {
    match step
    case Begins(id) => Beginning(c, required, id)
    case LockTaken(which, id) => Taking(c, required, which, id)
    case Opened(id) => Effect(Discovering, None, c.clients + {id})
    case Listed(id) => Effect(Finished(false), None, c.clients)
    case Failed(which, id) => Failing(c, required, which, id)
    case ClientClosed(_, id, ok) => Effect(Finished(id in required), None, if ok then c.clients - {id} else c.clients)
    case Cancelled(which, id) => Cancelling(c, which, id)
  }

  /** The steps of a single task. */
  predicate IsTaskStep(step: Step)
  {
    !step.Start? && !step.StopCalled? && !step.StopBegins? && !step.Drained? && !step.StopEnds?
  }

  function WhichOf(step: Step): (which: Which)
    requires IsTaskStep(step)
  {
    if step.Begins? || step.Opened? || step.Listed? then Newest else step.which
  }

  function Publishing(c: Catalog, ids: seq<string>, id: string, specs: seq<Spec>): (r: Catalog)
  {
    var all := c.serverTools[id := specs];
    c.(serverTools := all, tools := Published(ids, all),
       status := c.status[id := Ready(|specs|)], tasks := c.tasks[id := Finished(false)])
  }

  /** With nothing to await the manager is closed in the same stretch. */
  function Stopping(c: Catalog): (r: Catalog)
  {
    if AllFinished(c.tasks) then Shutting(c.(started := false)) else c.(started := false, stop := Draining)
  }

  function Shutting(c: Catalog): (r: Catalog)
  {
    c.(stop := Closing, managerClosed := true)
  }

  /** Only the stop's `finally` withdraws what was published. */
  function Withdrawn(c: Catalog): (r: Catalog)
  {
    c.(tools := [], serverTools := map[], stop := Over, clients := {},
       status := map id | id in c.status :: if c.status[id] == Unusable then Unusable else Halted)
  }

  ghost function Next(env: Environment, c: Catalog, step: Step): (r: Catalog)
    requires Enabled(c, step)
  {
    match step
    case Start => Started(c, env.ids)
    case Listed(id) =>
      if !Acceptable(env.advertised(id)) then Changed(c, Newest, id, Failing(c, env.required, Newest, id))
      else if !c.started then Changed(c, Newest, id, EffectOf(c, env.required, step))
      else Publishing(c, env.ids, id, Listing(id, env.advertised(id)))
    case StopCalled => if c.stop == Idle then c.(stop := Called) else c
    case StopBegins => Stopping(c)
    case Drained => Shutting(c)
    case StopEnds => Withdrawn(c)
    case _ => Changed(c, WhichOf(step), step.id, EffectOf(c, env.required, step))
  }

  /** The state after a run, or None if a step of it was not possible. */
  ghost function Run(env: Environment, steps: seq<Step>): (c: Option<Catalog>)
  {
    if steps == [] then Some(NEW_CATALOG)
    else
      var n := |steps| - 1;
      match Run(env, steps[..n])
      case None => None
      case Some(c) => if Enabled(c, steps[n]) then Some(Next(env, c, steps[n])) else None
  }

  // ---- the provider --------------------------------------------------------

  /** The provider with its client manager. */
  class MCPToolProvider {
    const ids: seq<string>
    const required: set<string>
    var started: bool
    var tools: seq<Spec>
    var serverTools: map<string, seq<Spec>>
    var status: map<string, Status>
    var tasks: map<string, Task>
    var stop: StopPhase
    var managerClosed: bool
    var clients: set<string>
    var replaced: map<string, Task>
    ghost var restarted: bool

    ghost function View(): (c: Catalog)
      reads this
    {
      Catalog(started, tools, serverTools, status, tasks, stop, managerClosed, clients, replaced, restarted)
    }

    predicate LockIsTaken(which: Which, id: string)
      reads this
    {
      Holds(if which == Newest then replaced else tasks, id)
    }

    constructor (ids: seq<string>, required: set<string>)
      ensures this.ids == ids && this.required == required && View() == NEW_CATALOG
    {
      this.ids, this.required := ids, required;
      started, tools, serverTools := false, [], map[];
      status, tasks := map[], map[];
      stop, managerClosed, clients := Idle, false, {};
      replaced, restarted := map[], false;
    }

    /** `start` up to its first await. */
    method Start()
      modifies this
      ensures View() == Started(old(View()), ids)
    {
      if started {
        return;
      }
      started := true;
      if stop == Draining {
        replaced, restarted := tasks, true;
      }
      Connect();
    }

    /** Every server gets a pending row and a task of its own. */
    method Connect()
      modifies this`status, this`tasks
      ensures status == Assigned(old(status), ids, Pending) && tasks == Assigned(old(tasks), ids, Created)
    {
      for i := 0 to |ids|
        invariant status == Assigned(old(status), ids[..i], Pending)
        invariant tasks == Assigned(old(tasks), ids[..i], Created)
      {
        assert ids[..i + 1][..i] == ids[..i];
        status := status[ids[i] := Pending];
        tasks := tasks[ids[i] := Created];
      }
      assert ids[..|ids|] == ids;
    }

    /** The rest of `start`: it returns once every required task has ended without
        raising; a task that raised, or its own cancellation, makes it stop everything. */
    method AwaitRequired(cancelled: bool, ghost env: Environment) returns (ok: bool)
      requires cancelled || AnyRaised(tasks, required) || AllEnded(tasks, required)
      modifies this`stop
      ensures ok <==> !cancelled && !AnyRaised(tasks, required)
      ensures ok ==> forall id :: id in required && id in tasks ==> tasks[id] == Finished(false)
      ensures View() == if ok then old(View()) else Next(env, old(View()), StopCalled)
    {
      ok := !cancelled && !AnyRaised(tasks, required);
      if !ok && stop == Idle {
        stop := Called;
      }
    }

    method SetTask(which: Which, id: string, t: Task)
      modifies this`tasks, this`replaced
      ensures View() == WithTask(old(View()), which, id, t)
    {
      if which == Newest {
        tasks := tasks[id := t];
      } else {
        replaced := replaced[id := t];
      }
    }

    /** The first stretch of `_start_server`. */
    method OnBegin(id: string, ghost env: Environment)
      requires Enabled(View(), Begins(id)) && env.required == required
      modifies this`status, this`tasks, this`replaced
      ensures View() == Next(env, old(View()), Begins(id))
    {
      if managerClosed {
        Fail(Newest, id);
      } else {
        GetClient(Newest, id);
      }
    }

    /** `get_client` up to its next await. */
    method GetClient(which: Which, id: string)
      modifies this`status, this`tasks, this`replaced
      ensures View() == Changed(old(View()), which, id, Getting(old(View()), required, which, id))
    {
      if id in clients {
        SetTask(which, id, Discovering);
      } else if managerClosed {
        Fail(which, id);
      } else {
        SetTask(which, id, if LockIsTaken(which, id) then Waiting else Opening);
      }
    }

    /** The stretch after the lock of a server was awaited. */
    method OnLock(which: Which, id: string, ghost env: Environment)
      requires Enabled(View(), LockTaken(which, id)) && env.required == required
      modifies this`status, this`tasks, this`replaced
      ensures View() == Next(env, old(View()), LockTaken(which, id))
    {
      var current := if which == Newest then tasks else replaced;
      if id in current && current[id] == CloseWaiting {
        CloseServer(which, id);
      } else {
        GetClient(which, id);
      }
    }

    /** The stretch after the client factory was awaited: the client is registered, the
        lock released, and the tool list asked for. */
    method OnOpened(id: string, ghost env: Environment)
      requires Enabled(View(), Opened(id))
      modifies this`tasks, this`clients
      ensures View() == Next(env, old(View()), Opened(id))
    {
      clients := clients + {id};
      tasks := tasks[id := Discovering];
    }

    /** The stretch of `_start_server` after the tool list was awaited. */
    method OnListed(id: string, answer: seq<RawTool>, ghost env: Environment)
      requires env.ids == ids && env.required == required && answer == env.advertised(id)
      requires Enabled(View(), Listed(id))
      modifies this`tools, this`serverTools, this`status, this`tasks, this`replaced
      ensures View() == Next(env, old(View()), Listed(id))
      ensures !AllNamed(answer) && id in clients ==> !tasks[id].Finished?
    {
      ComplaintsAreNames(answer);
      var found := DiscoverTools(id, answer);
      if found.Err? {
        Fail(Newest, id);
        return;
      }
      tasks := tasks[id := Finished(false)];
      if !started {
        return;
      }
      serverTools := serverTools[id := found.value];
      tools := Published(ids, serverTools);
      status := status[id := Ready(|found.value|)];
    }

    /** The `except Exception` branch up to its next await. */
    method Fail(which: Which, id: string)
      modifies this`status, this`tasks, this`replaced
      ensures View() == Changed(old(View()), which, id, Failing(old(View()), required, which, id))
      // a registered client is not left behind
      ensures id in status && status[id] == Unusable
      ensures id in clients ==> !(if which == Newest then tasks else replaced)[id].Finished?
    {
      status := status[id := Unusable];
      CloseServer(which, id);
    }

    /** `close_server` up to its next await. */
    method CloseServer(which: Which, id: string)
      modifies this`tasks, this`replaced
      ensures View() == WithTask(old(View()), which, id, Closed(old(View()), required, which, id))
      ensures id in (if which == Newest then tasks else replaced)
      ensures id in clients ==> !(if which == Newest then tasks else replaced)[id].Finished?
    {
      if LockIsTaken(which, id) {
        SetTask(which, id, CloseWaiting);
      } else if id in clients {
        SetTask(which, id, ClosingClient);
      } else {
        SetTask(which, id, Finished(id in required));
      }
    }

    /** The end of a task whose client was closed, or failed to close. */
    method OnClientClosed(which: Which, id: string, ok: bool, ghost env: Environment)
      requires Enabled(View(), ClientClosed(which, id, ok)) && env.required == required
      modifies this`tasks, this`replaced, this`clients
      ensures View() == Next(env, old(View()), ClientClosed(which, id, ok))
    {
      if ok {
        clients := clients - {id};
      }
      SetTask(which, id, Finished(id in required));
    }

    /** A cancellation arrives. */
    method OnCancelled(which: Which, id: string, ghost env: Environment)
      requires Enabled(View(), Cancelled(which, id))
      modifies this`status, this`tasks, this`replaced
      ensures View() == Next(env, old(View()), Cancelled(which, id))
    {
      var current := if which == Newest then tasks else replaced;
      var phase := current[id];
      if phase != Created && phase != CloseWaiting && phase != ClosingClient {
        status := status[id := Halted];
      }
      SetTask(which, id, Finished(true));
    }

    /** `_stop` up to its first await; the cancellations it requests arrive as steps
        of their own. */
    method BeginStop(ghost env: Environment)
      requires Enabled(View(), StopBegins)
      modifies this`started, this`stop, this`managerClosed
      ensures View() == Next(env, old(View()), StopBegins)
    {
      started := false;
      if AllFinished(tasks) {
        stop, managerClosed := Closing, true;
      } else {
        stop := Draining;
      }
    }

    /** The stretch of `_stop` after the tasks were awaited. */
    method EndDrain(ghost env: Environment)
      requires Enabled(View(), Drained)
      modifies this`stop, this`managerClosed
      ensures View() == Next(env, old(View()), Drained)
    {
      stop, managerClosed := Closing, true;
    }

    /** The manager drops its clients; then the `finally` of `_stop`. */
    method EndStop(ghost env: Environment)
      requires Enabled(View(), StopEnds)
      modifies this`tools, this`serverTools, this`status, this`stop, this`clients
      ensures View() == Next(env, old(View()), StopEnds)
    {
      tools, serverTools, stop, clients := [], map[], Over, {};
      var rows := HaltRows(status);
      status := rows;
    }

    /** The callable catalog, or an error when the provider is not started. */
    method ListTools() returns (r: Option<seq<string>>)
      ensures r.Some? <==> started
      ensures r.Some? ==> r.value == (if ids == [] then [] else [DISCOVERY_TOOL]) + Names(tools)
    {
      if !started {
        return None;
      }
      var names: seq<string> := if ids == [] then [] else [DISCOVERY_TOOL];
      r := Some(names + Names(tools));
    }
  }

  /** Every status row that does not say failed says stopped. */
  method HaltRows(status: map<string, Status>) returns (rows: map<string, Status>)
    ensures rows == map id | id in status :: if status[id] == Unusable then Unusable else Halted
  {
    rows := status;
    var left := status.Keys;
    while left != {}
      invariant left <= rows.Keys == status.Keys
      invariant forall id :: id in status ==> rows[id] == if id in left || status[id] == Unusable then status[id] else Halted
      decreases left
    {
      var id :| id in left;
      if rows[id] != Unusable {
        rows := rows[id := Halted];
      }
      left := left - {id};
    }
  }

  predicate AnyRaised(tasks: map<string, Task>, required: set<string>)
  {
    exists id :: id in tasks && id in required && tasks[id] == Finished(true)
  }

  predicate AllEnded(tasks: map<string, Task>, required: set<string>)
  {
    forall id :: id in tasks && id in required ==> tasks[id].Finished?
  }

  function Names(tools: seq<Spec>): (names: seq<string>)
  {
    seq(|tools|, i requires 0 <= i < |tools| => tools[i].name)
  }

  // ---- in every run --------------------------------------------------------

  /** What is published is what the servers advertised, in configured order. */
  ghost predicate PublishedInvariant(env: Environment, c: Catalog)
  {
    && c.tools == Published(env.ids, c.serverTools)
    && (forall id :: id in c.serverTools ==> Advertises(env, id) && c.serverTools[id] == Listing(id, env.advertised(id)))
  }

  ghost predicate Advertises(env: Environment, id: string)
  {
    id in env.ids && Acceptable(env.advertised(id))
  }

  ghost predicate TaskKeys(env: Environment, c: Catalog)
  {
    (forall id :: id in c.tasks <==> id in c.status) && (forall id :: id in c.tasks ==> id in env.ids)
  }

  /** At most one task of a server holds its lock, and a closed manager opens no client. */
  ghost predicate LockInvariant(c: Catalog)
  {
    && (forall id :: Holds(c.tasks, id) ==> !Holds(c.replaced, id))
    && (c.stop == Over ==> NoneOpening(c.tasks))
  }

  /** Only one stop body ever runs, so at most one `start` can come while it drains. */
  ghost predicate RestartInvariant(c: Catalog)
  {
    && c.replaced.Keys <= c.tasks.Keys
    && (c.restarted ==> c.started && c.stop !in {Idle, Called})
    && (c.restarted && c.stop != Draining ==> AllFinished(c.replaced))
    && (!c.restarted ==> c.replaced == map[])
    && (c.managerClosed <==> c.stop == Closing || c.stop == Over)
  }

  /** What is published is ready and the other way round. A start while the manager
      closes finds the old tools still published: then nothing is ready. */
  ghost predicate ReadyInvariant(c: Catalog)
  {
    forall id :: id in c.status && c.status[id].Ready? <==> id in c.serverTools && !(c.stop == Closing && c.started)
  }

  /** A task that is still at work has the matching status row. */
  ghost predicate TaskRows(c: Catalog)
  {
    forall id :: id in c.tasks && id in c.status ==> RowMatches(c.tasks[id], c.status[id], c.stop)
  }

  predicate RowMatches(t: Task, row: Status, stop: StopPhase)
  {
    match t
    case Finished(_) => true
    case CloseWaiting => row == Unusable
    case ClosingClient => row == Unusable
    case _ => row == Pending || (stop == Over && row == Halted)
  }

  /** No task has to wait for a lock, and only a registered client is closed. */
  ghost predicate NoneWaits(c: Catalog)
  {
    forall id :: id in c.tasks ==>
      c.tasks[id] != Waiting && c.tasks[id] != CloseWaiting
      && (c.tasks[id] == ClosingClient && c.stop != Over ==> id in c.clients)
  }

  /** With a closed manager no task is on its way to publish. */
  ghost predicate NoneConnects(c: Catalog)
  {
    forall id :: id in c.tasks ==> c.tasks[id] != Opening && c.tasks[id] != Discovering
  }

  ghost predicate StopInvariant(c: Catalog)
  {
    && (c.stop == Draining ==> !c.started)
    && (c.managerClosed ==> NoneConnects(c))
    && (c.stop == Closing && !c.started ==> AllFinished(c.tasks))
    && (c.stop == Over ==> c.serverTools == map[])
    && (!c.started && (c.stop == Idle || c.stop == Called) ==> c.serverTools == map[] && c.tasks == map[])
  }

  /** A required server whose task ended without raising is ready. */
  ghost predicate RequiredInvariant(env: Environment, c: Catalog)
  {
    c.started ==>
      forall id :: id in env.required && id in c.tasks && c.tasks[id] == Finished(false) && id in c.status
                   ==> c.status[id].Ready? && !c.managerClosed
  }

  /** What a run keeps as long as no `start` comes while a stop drains. */
  ghost predicate OrderlyInvariant(env: Environment, c: Catalog)
  {
    ReadyInvariant(c) && TaskRows(c) && NoneWaits(c) && StopInvariant(c) && RequiredInvariant(env, c)
  }

  ghost predicate Invariant(env: Environment, c: Catalog)
  {
    && PublishedInvariant(env, c) && Books(env, c)
    && (!c.restarted ==> OrderlyInvariant(env, c))
  }

  lemma {:induction false} NothingPublished(ids: seq<string>)
    ensures Published(ids, map[]) == []
  {
    if ids != [] {
      NothingPublished(ids[1..]);
    }
  }

  /** Only a complete tool list and the stop's `finally` touch what is published. */
  lemma OthersPublishNothing(env: Environment, c: Catalog, step: Step)
    requires Enabled(c, step) && !step.Listed? && !step.StopEnds?
    ensures SamePublished(c, Next(env, c, step))
  {
    if IsTaskStep(step) {
      ChangedPublishesNothing(c, WhichOf(step), step.id, EffectOf(c, env.required, step));
    }
  }

  ghost predicate SamePublished(c: Catalog, d: Catalog)
  {
    d.tools == c.tools && d.serverTools == c.serverTools
  }

  lemma ChangedPublishesNothing(c: Catalog, which: Which, id: string, e: Effect)
    ensures SamePublished(c, Changed(c, which, id, e))
  {
  }

  lemma StepKeepsPublished(env: Environment, c: Catalog, step: Step)
    requires Enabled(c, step) && TaskKeys(env, c) && PublishedInvariant(env, c)
    ensures PublishedInvariant(env, Next(env, c, step))
  {
    match step
    case Listed(id) => ListedKeepsPublished(env, c, id);
    case StopEnds => NothingPublished(env.ids);
    case _ => OthersPublishNothing(env, c, step);
  }

  lemma ListedKeepsPublished(env: Environment, c: Catalog, id: string)
    requires Enabled(c, Listed(id)) && TaskKeys(env, c) && PublishedInvariant(env, c)
    ensures PublishedInvariant(env, Next(env, c, Listed(id)))
  {
  }

  /** What every stretch of a task keeps. */
  ghost predicate Books(env: Environment, c: Catalog)
  {
    TaskKeys(env, c) && LockInvariant(c) && RestartInvariant(c)
  }

  ghost predicate SoundEffect(c: Catalog, which: Which, id: string, e: Effect)
  {
    && id in TasksOf(c, which) && !TasksOf(c, which)[id].Finished?
    && (e.task == Opening || e.task == ClosingClient ==> !OtherHolds(c, which, id))
    && (e.task == Opening ==> which == Newest && !c.managerClosed)
  }

  lemma ChangedKeepsBooks(env: Environment, c: Catalog, which: Which, id: string, e: Effect)
    requires Books(env, c) && SoundEffect(c, which, id, e)
    ensures Books(env, Changed(c, which, id, e))
  {
  }

  lemma EffectIsSound(c: Catalog, required: set<string>, step: Step)
    requires IsTaskStep(step) && Enabled(c, step)
    ensures !step.Listed? ==> SoundEffect(c, WhichOf(step), step.id, EffectOf(c, required, step))
    ensures step.Listed? ==> SoundEffect(c, Newest, step.id, Failing(c, required, Newest, step.id))
  {
  }

  lemma TaskStepKeepsBooks(env: Environment, c: Catalog, step: Step)
    requires IsTaskStep(step) && Enabled(c, step) && Books(env, c)
    ensures Books(env, Next(env, c, step))
  {
    EffectIsSound(c, env.required, step);
    if step.Listed? {
      ListedKeepsBooks(env, c, step.id);
    } else {
      ChangedKeepsBooks(env, c, WhichOf(step), step.id, EffectOf(c, env.required, step));
    }
  }

  lemma ListedKeepsBooks(env: Environment, c: Catalog, id: string)
    requires Enabled(c, Listed(id)) && Books(env, c) && SoundEffect(c, Newest, id, Failing(c, env.required, Newest, id))
    ensures Books(env, Next(env, c, Listed(id)))
  {
    ChangedKeepsBooks(env, c, Newest, id, Failing(c, env.required, Newest, id));
    ChangedKeepsBooks(env, c, Newest, id, EffectOf(c, env.required, Listed(id)));
  }

  lemma StepKeepsBooks(env: Environment, c: Catalog, step: Step)
    requires Enabled(c, step) && Books(env, c) && (!c.restarted ==> StopInvariant(c))
    ensures Books(env, Next(env, c, step))
  {
    if IsTaskStep(step) {
      TaskStepKeepsBooks(env, c, step);
    }
  }

  // ---- one task at a time --------------------------------------------------

  /** Nothing changes but what concerns server `id` and its newest task. */
  ghost predicate OnlyTask(c: Catalog, d: Catalog, id: string)
  {
    && d.started == c.started && d.stop == c.stop && d.managerClosed == c.managerClosed
    && d.tasks.Keys == c.tasks.Keys && d.status.Keys == c.status.Keys
    && (forall k :: k in c.tasks && k != id ==> d.tasks[k] == c.tasks[k])
    && (forall k :: k in c.status && k != id ==> d.status[k] == c.status[k])
    && (forall k :: k != id ==> (k in d.clients <==> k in c.clients))
    && (forall k :: k != id ==> (k in d.serverTools <==> k in c.serverTools))
  }

  /** The orderly invariant, as far as it is about server `id`. */
  ghost predicate OrderlyAt(env: Environment, d: Catalog, id: string)
    requires id in d.tasks && id in d.status
  {
    FitsServer(env, d, id, d.tasks[id], d.status[id], d.clients)
  }

  ghost predicate FitsServer(env: Environment, d: Catalog, id: string, t: Task, row: Status, clients: set<string>)
  {
    && RowMatches(t, row, d.stop)
    && (row.Ready? <==> id in d.serverTools && !(d.stop == Closing && d.started))
    && t != Waiting && t != CloseWaiting && (t == ClosingClient && d.stop != Over ==> id in clients)
    && (d.managerClosed ==> t != Opening && t != Discovering)
    && (d.stop == Closing ==> d.started)
    && (d.stop == Over ==> id !in d.serverTools)
    && (d.started && id in env.required && t == Finished(false) ==> row.Ready? && !d.managerClosed)
  }

  lemma OneTaskKeepsOrder(env: Environment, c: Catalog, d: Catalog, id: string)
    requires OrderlyInvariant(env, c) && TaskKeys(env, c) && id in c.tasks
    requires OnlyTask(c, d, id) && OrderlyAt(env, d, id)
    ensures OrderlyInvariant(env, d)
  {
  }

  /** What a step of the newest task of `id` finds. */
  ghost predicate AtWork(c: Catalog, id: string)
  {
    && id in c.tasks && id in c.status && !c.tasks[id].Finished? && c.replaced == map[]
    && RowMatches(c.tasks[id], c.status[id], c.stop)
    && (c.managerClosed <==> c.stop == Closing || c.stop == Over)
    && (c.status[id].Ready? <==> id in c.serverTools && !(c.stop == Closing && c.started))
    && c.tasks[id] != Waiting && c.tasks[id] != CloseWaiting
    && (c.managerClosed ==> c.tasks[id] != Opening && c.tasks[id] != Discovering)
    && (c.stop == Closing ==> c.started) && (c.stop == Over ==> id !in c.serverTools)
  }

  /** The row after a stretch. */
  function RowAfter(c: Catalog, id: string, e: Effect): (row: Status)
    requires id in c.status
  {
    if e.row.Some? then e.row.value else c.status[id]
  }

  ghost predicate OrderlyEffect(env: Environment, c: Catalog, id: string, e: Effect)
    requires id in c.status
  {
    FitsServer(env, c, id, e.task, RowAfter(c, id, e), e.clients) && forall k :: k != id ==> (k in e.clients <==> k in c.clients)
  }

  lemma EffectIsOrderly(env: Environment, c: Catalog, step: Step)
    requires IsTaskStep(step) && Enabled(c, step) && AtWork(c, step.id)
    ensures !step.Listed? ==> OrderlyEffect(env, c, step.id, EffectOf(c, env.required, step))
    ensures OrderlyEffect(env, c, step.id, Failing(c, env.required, Newest, step.id))
  {
  }

  lemma ChangedKeepsOrder(env: Environment, c: Catalog, id: string, e: Effect)
    requires OrderlyInvariant(env, c) && TaskKeys(env, c) && id in c.tasks && OrderlyEffect(env, c, id, e)
    ensures OrderlyInvariant(env, Changed(c, Newest, id, e))
  {
    OneTaskKeepsOrder(env, c, Changed(c, Newest, id, e), id);
  }

  lemma ListedKeepsOrder(env: Environment, c: Catalog, id: string)
    requires OrderlyInvariant(env, c) && TaskKeys(env, c) && Enabled(c, Listed(id)) && AtWork(c, id)
    requires OrderlyEffect(env, c, id, Failing(c, env.required, Newest, id))
    ensures OrderlyInvariant(env, Next(env, c, Listed(id)))
  {
    if !Acceptable(env.advertised(id)) {
      ChangedKeepsOrder(env, c, id, Failing(c, env.required, Newest, id));
    } else if !c.started {
      ChangedKeepsOrder(env, c, id, EffectOf(c, env.required, Listed(id)));
    } else {
      PublishingKeepsOrder(env, c, id, Listing(id, env.advertised(id)));
    }
  }

  lemma PublishingKeepsOrder(env: Environment, c: Catalog, id: string, specs: seq<Spec>)
    requires OrderlyInvariant(env, c) && TaskKeys(env, c) && Enabled(c, Listed(id)) && AtWork(c, id)
    ensures OrderlyInvariant(env, Publishing(c, env.ids, id, specs))
  {
    OneTaskKeepsOrder(env, c, Publishing(c, env.ids, id, specs), id);
  }

  lemma FindsAtWork(env: Environment, c: Catalog, id: string)
    requires Invariant(env, c) && !c.restarted && id in c.tasks && !c.tasks[id].Finished?
    ensures AtWork(c, id)
  {
  }

  lemma TaskStepKeepsOrder(env: Environment, c: Catalog, step: Step)
    requires Enabled(c, step) && IsTaskStep(step) && Invariant(env, c) && !c.restarted
    ensures OrderlyInvariant(env, Next(env, c, step))
  {
    FindsAtWork(env, c, step.id);
    EffectIsOrderly(env, c, step);
    if step.Listed? {
      ListedKeepsOrder(env, c, step.id);
    } else {
      ChangedKeepsOrder(env, c, step.id, EffectOf(c, env.required, step));
    }
  }

  lemma StartKeepsOrder(env: Environment, c: Catalog)
    requires Invariant(env, c) && !c.restarted && c.stop != Draining
    ensures OrderlyInvariant(env, Started(c, env.ids))
  {
  }

  lemma StopKeepsOrder(env: Environment, c: Catalog, step: Step)
    requires Enabled(c, step) && (step.StopCalled? || step.StopBegins? || step.Drained?) && Invariant(env, c) && !c.restarted
    ensures OrderlyInvariant(env, Next(env, c, step))
  {
  }

  lemma EndKeepsOrder(env: Environment, c: Catalog)
    requires Enabled(c, StopEnds) && Invariant(env, c) && !c.restarted
    ensures OrderlyInvariant(env, Withdrawn(c))
  {
  }

  lemma StepKeepsOrder(env: Environment, c: Catalog, step: Step)
    requires Enabled(c, step) && Invariant(env, c) && !c.restarted && (step.Start? ==> c.stop != Draining)
    ensures OrderlyInvariant(env, Next(env, c, step))
  {
    match step
    case Start => StartKeepsOrder(env, c);
    case StopCalled => StopKeepsOrder(env, c, step);
    case StopBegins => StopKeepsOrder(env, c, step);
    case Drained => StopKeepsOrder(env, c, step);
    case StopEnds => EndKeepsOrder(env, c);
    case _ => TaskStepKeepsOrder(env, c, step);
  }

  /** Only a `start` that finds the stop draining restarts. */
  lemma RestartedAfter(env: Environment, c: Catalog, step: Step)
    requires Enabled(c, step) && Invariant(env, c)
    ensures Next(env, c, step).restarted <==> c.restarted || (step.Start? && c.stop == Draining)
  {
    if IsTaskStep(step) {
      ChangedKeepsPhase(c, WhichOf(step), step.id, EffectOf(c, env.required, step));
    }
  }

  lemma ChangedKeepsPhase(c: Catalog, which: Which, id: string, e: Effect)
    ensures var d := Changed(c, which, id, e); d.restarted == c.restarted && d.stop == c.stop && d.started == c.started
  {
  }

  lemma {:induction false} RunInvariant(env: Environment, steps: seq<Step>)
    requires Run(env, steps).Some?
    ensures Invariant(env, Run(env, steps).value)
  {
    if steps == [] {
      NothingPublished(env.ids);
    } else {
      var n := |steps| - 1;
      RunInvariant(env, steps[..n]);
      StepKeepsInvariant(env, Run(env, steps[..n]).value, steps[n]);
    }
  }

  lemma StepKeepsInvariant(env: Environment, c: Catalog, step: Step)
    requires Enabled(c, step) && Invariant(env, c)
    ensures Invariant(env, Next(env, c, step))
  {
    StepKeepsPublished(env, c, step);
    StepKeepsBooks(env, c, step);
    RestartedAfter(env, c, step);
    if !Next(env, c, step).restarted {
      StepKeepsOrder(env, c, step);
    }
  }

  ghost function ReadyServers(c: Catalog): set<string>
  {
    set id | id in c.status && c.status[id].Ready?
  }

  /** The complete tool lists of a set of servers, in configured order. */
  ghost function CatalogOf(env: Environment, ready: set<string>): seq<Spec>
  {
    Published(env.ids, map id | id in ready :: Listing(id, env.advertised(id)))
  }

  /** Step `i` is a `start` while a stop drains. */
  ghost predicate RestartsAt(env: Environment, steps: seq<Step>, i: nat)
  {
    i < |steps| && steps[i] == Start && Run(env, steps[..i]).Some? && Run(env, steps[..i]).value.stop == Draining
  }

  ghost predicate Restarts(env: Environment, steps: seq<Step>)
  {
    exists i: nat :: RestartsAt(env, steps, i)
  }

  lemma {:induction false} RestartedByStart(env: Environment, steps: seq<Step>)
    requires Run(env, steps).Some?
    ensures Run(env, steps).value.restarted <==> Restarts(env, steps)
  {
    if steps != [] {
      var n := |steps| - 1;
      RestartedByStart(env, steps[..n]);
      RestartedStep(env, steps[..n], steps[n]);
      RestartsLater(env, steps[..n], steps[n]);
      assert steps[..n] + [steps[n]] == steps;
    }
  }

  lemma RestartedStep(env: Environment, steps: seq<Step>, step: Step)
    requires Run(env, steps).Some? && Enabled(Run(env, steps).value, step)
    ensures var c := Run(env, steps).value;
            Next(env, c, step).restarted <==> c.restarted || (step == Start && c.stop == Draining)
  {
    RunInvariant(env, steps);
    RestartedAfter(env, Run(env, steps).value, step);
  }

  lemma RestartsLater(env: Environment, steps: seq<Step>, step: Step)
    requires Run(env, steps).Some?
    ensures Restarts(env, steps + [step]) <==> Restarts(env, steps) || (step == Start && Run(env, steps).value.stop == Draining)
  {
    var more, n := steps + [step], |steps|;
    forall i: nat | i < n
      ensures RestartsAt(env, more, i) <==> RestartsAt(env, steps, i)
    {
      assert more[..i] == steps[..i];
    }
    assert more[..n] == steps;
    assert RestartsAt(env, more, n) <==> step == Start && Run(env, steps).value.stop == Draining;
    assert forall i: nat :: RestartsAt(env, more, i) ==> i < n || i == n;
    assert forall i: nat :: RestartsAt(env, steps, i) ==> i < n;
  }

  /** Started again while the manager closes, with the old tools not yet withdrawn. */
  predicate Stale(c: Catalog)
  {
    c.stop == Closing && c.started && c.serverTools != map[]
  }

  /** Whatever the order in which the start-up tasks ended, the catalog is the complete
      lists of some servers in configured order; unless a `start` came while a stop was
      draining, those are the ready ones exactly when they are not stale. */
  lemma CatalogIsExact(env: Environment, steps: seq<Step>)
    requires Run(env, steps).Some?
    ensures var c := Run(env, steps).value;
            && c.tools == CatalogOf(env, c.serverTools.Keys)
            && InConfiguredOrder(env.ids, c.serverTools, c.tools)
            && (forall id :: id in c.serverTools ==> IsListing(id, env.advertised(id), c.serverTools[id]))
            && (forall id :: id in c.serverTools ==> Advertises(env, id))
            && (!Restarts(env, steps) ==>
                  (c.serverTools.Keys == ReadyServers(c) <==> !Stale(c)))
  {
    RunInvariant(env, steps);
    RestartedByStart(env, steps);
    var c := Run(env, steps).value;
    PublishedInOrder(env.ids, c.serverTools);
    assert c.serverTools == map id | id in c.serverTools.Keys :: Listing(id, env.advertised(id));
    forall id | id in c.serverTools
      ensures IsListing(id, env.advertised(id), c.serverTools[id])
    {
      ListingIsListing(id, env.advertised(id));
    }
  }

  lemma OrderDoesNotMatter(env: Environment, steps: seq<Step>, others: seq<Step>)
    requires Run(env, steps).Some? && Run(env, others).Some?
    requires Run(env, steps).value.serverTools.Keys == Run(env, others).value.serverTools.Keys
             || (!Restarts(env, steps) && !Restarts(env, others)
                 && !Stale(Run(env, steps).value) && !Stale(Run(env, others).value)
                 && ReadyServers(Run(env, steps).value) == ReadyServers(Run(env, others).value))
    ensures Run(env, steps).value.tools == Run(env, others).value.tools
  {
    CatalogIsExact(env, steps);
    CatalogIsExact(env, others);
  }

  /** Once the stop's body has begun, later steps can only withdraw the catalog; after
      it has ended there is none, even if the provider is started again. Only a `start`
      while the stop drains can void that. */
  lemma NothingPublishedAfterStop(env: Environment, steps: seq<Step>, more: seq<Step>)
    requires Run(env, steps).Some? && Run(env, steps + more).Some? && !Restarts(env, steps + more)
    requires Run(env, steps).value.stop !in {Idle, Called}
    ensures OnlyWithdrawn(Run(env, steps).value, Run(env, steps + more).value)
  {
    RestartedByStart(env, steps + more);
    QuietAfterStop(env, steps, more);
  }

  /** `d` publishes nothing that `c` did not, and nothing at all once its stop is over. */
  ghost predicate OnlyWithdrawn(c: Catalog, d: Catalog)
  {
    && d.stop !in {Idle, Called}
    && (d.tools == c.tools || d.tools == [])
    && (d.stop == Over ==> d.tools == [])
    && d.serverTools.Keys <= c.serverTools.Keys
  }

  lemma {:induction false} QuietAfterStop(env: Environment, steps: seq<Step>, more: seq<Step>)
    requires Run(env, steps).Some? && Run(env, steps + more).Some? && !Run(env, steps + more).value.restarted
    requires Run(env, steps).value.stop !in {Idle, Called}
    ensures OnlyWithdrawn(Run(env, steps).value, Run(env, steps + more).value)
  {
    if more == [] {
      assert steps + more == steps;
      RunInvariant(env, steps);
      NothingPublished(env.ids);
    } else {
      var init, last := more[..|more| - 1], more[|more| - 1];
      var all := steps + init;
      assert steps + more == all + [last];
      RunExtends(env, all, last);
      LastStep(env, all, last);
      RestartedStep(env, all, last);
      QuietAfterStop(env, steps, init);
      RunInvariant(env, all);
      StepAfterStop(env, Run(env, steps).value, Run(env, all).value, last);
    }
  }

  lemma LastStep(env: Environment, steps: seq<Step>, step: Step)
    requires Run(env, steps + [step]).Some?
    ensures Run(env, steps).Some? && Enabled(Run(env, steps).value, step)
  {
    assert (steps + [step])[..|steps|] == steps;
  }

  lemma StepAfterStop(env: Environment, first: Catalog, c: Catalog, step: Step)
    requires Enabled(c, step) && Invariant(env, c) && !c.restarted && (step.Start? ==> c.stop != Draining)
    requires OnlyWithdrawn(first, c)
    ensures OnlyWithdrawn(first, Next(env, c, step))
  {
    if step.StopEnds? {
      assert Withdrawn(c).serverTools == map[];
    } else if step.Listed? {
      assert false;
    } else {
      OthersPublishNothing(env, c, step);
      StopStaysOver(env, c, step);
    }
  }

  lemma StopStaysOver(env: Environment, c: Catalog, step: Step)
    requires Enabled(c, step) && c.stop !in {Idle, Called} && !step.StopEnds?
    ensures Next(env, c, step).stop !in {Idle, Called} && (Next(env, c, step).stop == Over ==> c.stop == Over)
  {
    if IsTaskStep(step) && !step.Listed? {
      ChangedKeepsPhase(c, WhichOf(step), step.id, EffectOf(c, env.required, step));
    }
  }

  lemma RunExtends(env: Environment, steps: seq<Step>, step: Step)
    requires Run(env, steps).Some?
    ensures Run(env, steps + [step]) ==
            if Enabled(Run(env, steps).value, step) then Some(Next(env, Run(env, steps).value, step)) else None
  {
    assert (steps + [step])[..|steps|] == steps;
  }

  /** If `start` returns, because every required task ended without raising, and no stop
      has begun, every required server is ready. */
  lemma StartedMeansRequiredReady(env: Environment, steps: seq<Step>, id: string)
    requires Run(env, steps).Some? && Run(env, steps).value.started && !Restarts(env, steps)
    requires id in env.required && id in Run(env, steps).value.tasks
    requires Run(env, steps).value.tasks[id] == Finished(false)
    ensures id in ReadyServers(Run(env, steps).value)
  {
    RunInvariant(env, steps);
    RestartedByStart(env, steps);
  }

  // ---- routing -------------------------------------------------------------

  /** Tool `name` is tool `tool` as server `id` advertised it. */
  ghost predicate OffersTool(env: Environment, id: string, tool: string)
  {
    tool != "" && exists i :: 0 <= i < |env.advertised(id)| && env.advertised(id)[i].name == Some(tool)
  }

  lemma ListingOrigin(env: Environment, id: string, name: string)
    requires Acceptable(env.advertised(id))
    ensures name in Names(Listing(id, env.advertised(id))) <==> exists tool :: OffersTool(env, id, tool) && name == FullName(id, tool)
  {
    var raws := env.advertised(id);
    if name in Names(Listing(id, raws)) {
      var i :| 0 <= i < |raws| && Names(Listing(id, raws))[i] == name;
      assert Complaint(raws, i) == None;
      assert OffersTool(env, id, raws[i].name.value) && name == FullName(id, raws[i].name.value);
    }
    if tool :| OffersTool(env, id, tool) && name == FullName(id, tool) {
      var i :| 0 <= i < |raws| && raws[i].name == Some(tool);
      assert Names(Listing(id, raws))[i] == name;
    }
  }

  lemma NamesAppend(a: seq<Spec>, b: seq<Spec>)
    ensures Names(a + b) == Names(a) + Names(b)
  {
  }

  /** A published name comes from a ready server, and every ready server's names are
      published. */
  lemma {:induction false} PublishedOrigin(ids: seq<string>, serverTools: map<string, seq<Spec>>, name: string)
    ensures name in Names(Published(ids, serverTools))
            <==> exists id :: id in ids && id in serverTools && name in Names(serverTools[id])
  {
    if ids != [] {
      PublishedOrigin(ids[1..], serverTools, name);
      var first := if ids[0] in serverTools then serverTools[ids[0]] else [];
      NamesAppend(first, Published(ids[1..], serverTools));
      if id :| id in ids && id in serverTools && name in Names(serverTools[id]) {
        assert id == ids[0] || id in ids[1..];
      }
    }
  }

  /** What `invoke` does before it talks to a server. */
  datatype Route = NotStarted | Discovery | InvalidName | NotAdvertised | Dispatch(id: string, tool: string)

  function RouteOf(c: Catalog, name: string): (r: Route)
  {
    if !c.started then NotStarted
    else if name == DISCOVERY_TOOL then Discovery
    else
      match ParseToolName(name)
      case None => InvalidName
      case Some(parsed) => if name in Names(c.tools) then Dispatch(parsed.0, parsed.1) else NotAdvertised
  }

  lemma DiscoveryIsNoToolName(id: string, tool: string)
    ensures FullName(id, tool) != DISCOVERY_TOOL
  {
    assert FullName(id, tool)[0] == 'm' && DISCOVERY_TOOL[0] == 'c';
  }

  /** A call reaches a server if and only if the provider is started, that server has
      been published and advertises that very tool under the called name. */
  lemma CallsReachTheirServer(env: Environment, steps: seq<Step>, name: string, id: string, tool: string)
    requires ValidEnvironment(env) && Run(env, steps).Some?
    ensures var c := Run(env, steps).value;
            RouteOf(c, name) == Dispatch(id, tool)
            <==> c.started && id in c.serverTools && OffersTool(env, id, tool) && name == FullName(id, tool)
  {
    RunInvariant(env, steps);
    var c := Run(env, steps).value;
    if RouteOf(c, name) == Dispatch(id, tool) {
      RouteHasServer(env, c, name, id, tool);
    }
    if c.started && id in c.serverTools && OffersTool(env, id, tool) && name == FullName(id, tool) {
      ServerHasRoute(env, c, id, tool);
    }
  }

  lemma RouteHasServer(env: Environment, c: Catalog, name: string, id: string, tool: string)
    requires ValidEnvironment(env) && PublishedInvariant(env, c) && RouteOf(c, name) == Dispatch(id, tool)
    ensures id in c.serverTools && OffersTool(env, id, tool) && name == FullName(id, tool)
  {
    ParsesExactlyFullNames(name, id, tool);
    PublishedOrigin(env.ids, c.serverTools, name);
    var owner :| owner in env.ids && owner in c.serverTools && name in Names(c.serverTools[owner]);
    ListingOrigin(env, owner, name);
    var t :| OffersTool(env, owner, t) && name == FullName(owner, t);
    ValidIdsAreDotFree(owner);
    ParsesExactlyFullNames(name, owner, t);
  }

  lemma ServerHasRoute(env: Environment, c: Catalog, id: string, tool: string)
    requires ValidEnvironment(env) && PublishedInvariant(env, c) && c.started
    requires id in c.serverTools && OffersTool(env, id, tool)
    ensures RouteOf(c, FullName(id, tool)) == Dispatch(id, tool)
  {
    var name := FullName(id, tool);
    DiscoveryIsNoToolName(id, tool);
    ValidIdsAreDotFree(id);
    ParsesExactlyFullNames(name, id, tool);
    ListingOrigin(env, id, name);
    PublishedOrigin(env.ids, c.serverTools, name);
  }

  ghost predicate Distinct(names: seq<string>)
  {
    forall i, j :: 0 <= i < j < |names| ==> names[i] != names[j]
  }

  lemma ListingDistinct(id: string, raws: seq<RawTool>)
    requires Acceptable(raws)
    ensures Distinct(Names(Listing(id, raws)))
  {
    forall i, j | 0 <= i < j < |raws|
      ensures Names(Listing(id, raws))[i] != Names(Listing(id, raws))[j]
    {
      assert Complaint(raws, i) == None && Complaint(raws, j) == None;
      if FullName(id, raws[i].name.value) == FullName(id, raws[j].name.value) {
        SameTool(id, raws[i].name.value, raws[j].name.value);
      }
    }
  }

  lemma JoinDistinct(a: seq<string>, b: seq<string>)
    requires Distinct(a) && Distinct(b) && forall n :: n in a ==> n !in b
    ensures Distinct(a + b)
  {
    forall i, j | 0 <= i < j < |a + b|
      ensures (a + b)[i] != (a + b)[j]
    {
      if i < |a| && |a| <= j {
        assert (a + b)[i] in a && (a + b)[j] in b;
      }
    }
  }

  lemma {:induction false} PublishedDistinct(env: Environment, ids: seq<string>, serverTools: map<string, seq<Spec>>)
    requires forall i :: 0 <= i < |ids| ==> ValidId(ids[i])
    requires forall i, j :: 0 <= i < j < |ids| ==> ids[i] != ids[j]
    requires forall id :: id in serverTools ==>
               Acceptable(env.advertised(id)) && serverTools[id] == Listing(id, env.advertised(id))
    ensures Distinct(Names(Published(ids, serverTools)))
  {
    if ids != [] {
      PublishedDistinct(env, ids[1..], serverTools);
      if ids[0] in serverTools {
        ListingDistinct(ids[0], env.advertised(ids[0]));
        forall n | n in Names(serverTools[ids[0]])
          ensures n !in Names(Published(ids[1..], serverTools))
        {
          NotPublishedLater(env, ids, serverTools, n);
        }
        JoinDistinct(Names(serverTools[ids[0]]), Names(Published(ids[1..], serverTools)));
        NamesAppend(serverTools[ids[0]], Published(ids[1..], serverTools));
      } else {
        assert Published(ids, serverTools) == Published(ids[1..], serverTools);
      }
    }
  }

  lemma NotPublishedLater(env: Environment, ids: seq<string>, serverTools: map<string, seq<Spec>>, name: string)
    requires ids != [] && ids[0] in serverTools && name in Names(serverTools[ids[0]])
    requires forall i :: 0 <= i < |ids| ==> ValidId(ids[i])
    requires forall i, j :: 0 <= i < j < |ids| ==> ids[i] != ids[j]
    requires forall id :: id in serverTools ==>
               Acceptable(env.advertised(id)) && serverTools[id] == Listing(id, env.advertised(id))
    ensures name !in Names(Published(ids[1..], serverTools))
  {
    PublishedOrigin(ids[1..], serverTools, name);
    if id :| id in ids[1..] && id in serverTools && name in Names(serverTools[id]) {
      ListingOrigin(env, id, name);
      ListingOrigin(env, ids[0], name);
      var t :| OffersTool(env, id, t) && name == FullName(id, t);
      var u :| OffersTool(env, ids[0], u) && name == FullName(ids[0], u);
      FullNamesDiffer(id, t, ids[0], u);
    }
  }

  /** No two callable tools share a name, the discovery tool included. */
  lemma NamesAreDistinct(env: Environment, steps: seq<Step>)
    requires ValidEnvironment(env) && Run(env, steps).Some?
    ensures Distinct([DISCOVERY_TOOL] + Names(Run(env, steps).value.tools))
  {
    RunInvariant(env, steps);
    var c := Run(env, steps).value;
    PublishedDistinct(env, env.ids, c.serverTools);
    PublishedOrigin(env.ids, c.serverTools, DISCOVERY_TOOL);
    if id :| id in env.ids && id in c.serverTools && DISCOVERY_TOOL in Names(c.serverTools[id]) {
      ListingOrigin(env, id, DISCOVERY_TOOL);
      var t :| OffersTool(env, id, t) && DISCOVERY_TOOL == FullName(id, t);
      DiscoveryIsNoToolName(id, t);
    }
    JoinDistinct([DISCOVERY_TOOL], Names(c.tools));
  }
}
