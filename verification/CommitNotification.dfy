/** Commit notifications: wake-up hints over a durable log
    (adapters/evented_runtime_store.py). The first part is the state change of each
    store operation, the second the classes that perform it on the heap, the third
    every interleaving of committers and watchers. */
module CommitNotification {
  import opened Common

  /** A watched identity together with its scope. */
  datatype Key = Task(id: string) | Session(id: string)

  // ---- one operation at a time ---------------------------------------------

  /** Signals by key, watcher count and current event of each signal, the events
      that fired, and every event made so far. */
  datatype Store<S(==), E(==)> =
    Store(signals: map<Key, S>, users: map<S, nat>, changed: map<S, E>, fired: set<E>, events: set<E>)

  ghost predicate WellFormed<S, E>(st: Store<S, E>)
  {
    && (forall k :: k in st.signals ==> st.signals[k] in st.users && st.signals[k] in st.changed)
    && (forall k, l :: k in st.signals && l in st.signals && st.signals[k] == st.signals[l] ==> k == l)
    && (forall s :: s in st.changed ==> st.changed[s] in st.events && st.changed[s] !in st.fired)
    && (forall s, t :: s in st.changed && t in st.changed && st.changed[s] == st.changed[t] ==> s == t)
    && st.fired <= st.events
    && st.users.Keys == st.changed.Keys == st.signals.Values
  }

  /** `watch` entered: `s` with first event `e` is used only if the key is new. */
  ghost function Entered<S, E>(st: Store<S, E>, key: Key, s: S, e: E): (r: Store<S, E>)
    requires WellFormed(st)
  {
    if key in st.signals then
      var held := st.signals[key];
      st.(users := st.users[held := st.users[held] + 1])
    else
      Store(st.signals[key := s], st.users[s := 1], st.changed[s := e], st.fired, st.events + {e})
  }

  /** `watch` left: the last watcher removes the signal. */
  ghost function Left<S, E>(st: Store<S, E>, key: Key): (r: Store<S, E>)
    requires WellFormed(st) && key in st.signals && st.users[st.signals[key]] > 0
  {
    var s := st.signals[key];
    if st.users[s] == 1
    then Store(st.signals - {key}, st.users - {s}, st.changed - {s}, st.fired, st.events)
    else st.(users := st.users[s := st.users[s] - 1])
  }

  /** `notify`: swap in a new event `e`, then set the previous one. */
  ghost function Notified<S, E>(st: Store<S, E>, key: Key, e: E): (r: Store<S, E>)
    requires WellFormed(st)
  {
    if key in st.signals then
      var s := st.signals[key];
      st.(changed := st.changed[s := e], fired := st.fired + {st.changed[s]}, events := st.events + {e})
    else st
  }

  lemma EnteredWellFormed<S, E>(st: Store<S, E>, key: Key, s: S, e: E)
    requires WellFormed(st) && (key !in st.signals ==> s !in st.users && e !in st.events)
    ensures WellFormed(Entered(st, key, s, e))
  {
    var r := Entered(st, key, s, e);
    if key !in st.signals {
      InsertedValues(st.signals, key, s);
    } else {
      assert st.signals[key] in st.signals.Values;
    }
  }

  lemma LeftWellFormed<S, E>(st: Store<S, E>, key: Key)
    requires WellFormed(st) && key in st.signals && st.users[st.signals[key]] > 0
    ensures WellFormed(Left(st, key))
  {
    var r := Left(st, key);
    var s := st.signals[key];
    if st.users[s] == 1 {
      RemovedValues(st.signals, key);
    } else {
      assert s in st.signals.Values;
    }
  }

  /** Leaving is counting down, and dropping the key when nobody is left. */
  lemma LeftInTwoSteps<S, E>(st: Store<S, E>, key: Key, released: Store<S, E>, r: Store<S, E>)
    requires WellFormed(st) && key in st.signals && st.users[st.signals[key]] > 0
    requires released == st.(users := st.users[st.signals[key] := st.users[st.signals[key]] - 1])
    requires var s := st.signals[key];
             if st.users[s] == 1
             then r == Store(released.signals - {key}, released.users - {s}, released.changed - {s}, released.fired, released.events)
             else r == released
    ensures r == Left(st, key)
  {
    var s := st.signals[key];
    if st.users[s] == 1 {
      assert st.users[s := 0] - {s} == st.users - {s};
    }
  }

  lemma NotifiedWellFormed<S, E>(st: Store<S, E>, key: Key, e: E)
    requires WellFormed(st) && e !in st.events
    ensures WellFormed(Notified(st, key, e))
  {
    if key in st.signals {
      assert st.signals[key] in st.signals.Values;
    }
  }

  /** How many watchers a key has. */
  ghost function UsersOf<S, E>(st: Store<S, E>, key: Key): nat
    requires WellFormed(st)
  {
    if key in st.signals then st.users[st.signals[key]] else 0
  }

  /** Entering counts one more watcher of that key and changes no other key. */
  lemma EnteredUsers<S, E>(st: Store<S, E>, key: Key, s: S, e: E, k: Key)
    requires WellFormed(st) && (key !in st.signals ==> s !in st.users && e !in st.events)
    requires WellFormed(Entered(st, key, s, e))
    ensures UsersOf(Entered(st, key, s, e), k) == UsersOf(st, k) + if k == key then 1 else 0
    ensures k in Entered(st, key, s, e).signals <==> k in st.signals || k == key
  {
  }

  /** Leaving counts one watcher less; a key is dropped exactly when none is left. */
  lemma LeftUsers<S, E>(st: Store<S, E>, key: Key, k: Key)
    requires WellFormed(st) && key in st.signals && st.users[st.signals[key]] > 0
    requires WellFormed(Left(st, key))
    ensures UsersOf(Left(st, key), k) == UsersOf(st, k) - if k == key then 1 else 0
    ensures k in Left(st, key).signals <==> k in st.signals && (k == key ==> UsersOf(st, k) > 1)
  {
  }

  // ---- the classes ---------------------------------------------------------

  class Event {
    var isSet: bool

    constructor ()
      ensures !isSet
    {
      isSet := false;
    }

    method Set()
      modifies this
      ensures isSet
    {
      isSet := true;
    }
  }

  class CommitSignal {
    var changed: Event
    var users: nat

    constructor ()
      ensures fresh(changed) && !changed.isSet && users == 0
    {
      changed := new Event();
      users := 0;
    }

    method Notify()
      modifies this`changed, changed
      ensures fresh(changed) && !changed.isSet
      ensures old(changed).isSet
    {
      var previous := changed;
      changed := new Event();
      previous.Set();
    }
  }

  class EventedRuntimeStore {
    var signals: map<Key, CommitSignal>
    ghost var events: set<Event>

    ghost function View(): Store<CommitSignal, Event>
      reads this, signals.Values, events
    {
      Store(signals,
            (map s | s in signals.Values :: s.users),
            (map s | s in signals.Values :: s.changed),
            (set e | e in events && e.isSet),
            events)
    }

    ghost predicate Valid()
      reads this, signals.Values, events
    {
      WellFormed(View())
    }

    constructor ()
      ensures Valid() && signals == map[] && events == {}
    {
      signals := map[];
      events := {};
    }

    /** Reference counting an existing signal. */
    method Join(key: Key, signal: CommitSignal)
      requires Valid() && key in signals && signals[key] == signal
      modifies signal`users
      ensures View() == old(View()).(users := old(View()).users[signal := old(View()).users[signal] + 1])
    {
      assert signal in signals.Values;
      signal.users := signal.users + 1;
      assert View().users == old(View()).users[signal := old(View()).users[signal] + 1];
    }

    /** `setdefault` on a key nobody watches. */
    method Open(key: Key) returns (signal: CommitSignal)
      requires key !in signals
      modifies this
      ensures fresh(signal) && fresh(signal.changed)
      ensures View() == Store(old(signals)[key := signal], old(View()).users[signal := 1],
                              old(View()).changed[signal := signal.changed], old(View()).fired,
                              old(events) + {signal.changed})
    {
      signal := new CommitSignal();
      signal.users := 1;
      signals := signals[key := signal];
      events := events + {signal.changed};
      InsertedValues(old(signals), key, signal);
      assert View().users == old(View()).users[signal := 1];
      assert View().changed == old(View()).changed[signal := signal.changed];
      assert View().fired == old(View()).fired;
    }

    method Enter(key: Key) returns (signal: CommitSignal)
      requires Valid()
      modifies this, signals.Values
      ensures Valid() && key in signals && signals[key] == signal
      ensures key in old(signals) ==> signal == old(signals)[key]
      ensures key !in old(signals) ==> fresh(signal) && fresh(signal.changed)
      ensures View() == Entered(old(View()), key, signal, signal.changed)
    {
      ghost var before := View();
      if key in signals {
        signal := signals[key];
        assert signal in signals.Values;
        Join(key, signal);
      } else {
        signal := Open(key);
      }
      EnteredWellFormed(before, key, signal, signal.changed);
    }

    /** `pop` of a signal only this key holds. */
    method Drop(key: Key)
      requires key in signals && forall l :: l in signals && signals[l] == signals[key] ==> l == key
      modifies this`signals
      ensures signals == old(signals) - {key}
      ensures View().users == old(View()).users - {old(signals)[key]}
      ensures View().changed == old(View()).changed - {old(signals)[key]}
      ensures View().fired == old(View()).fired
    {
      RemovedValues(signals, key);
      signals := signals - {key};
    }

    method Release(key: Key, signal: CommitSignal)
      requires key in signals && signals[key] == signal && signal.users > 0
      modifies signal`users
      ensures signal.users == old(signal.users) - 1
      ensures View() == old(View()).(users := old(View()).users[signal := old(View()).users[signal] - 1])
    {
      assert signal in signals.Values;
      signal.users := signal.users - 1;
      assert View().users == old(View()).users[signal := old(View()).users[signal] - 1];
    }

    method Leave(key: Key, signal: CommitSignal)
      requires Valid() && key in signals && signals[key] == signal && signal.users > 0
      modifies this`signals, signal`users
      ensures Valid() && events == old(events)
      ensures View() == Left(old(View()), key)
    {
      ghost var before := View();
      assert signal in signals.Values;
      LeftWellFormed(before, key);
      Release(key, signal);
      ghost var released := View();
      if signal.users == 0 {
        Drop(key);
      }
      LeftInTwoSteps(before, key, released, View());
    }

    method Notify(key: Key)
      requires Valid()
      modifies this`events, signals.Values, events
      ensures Valid() && signals == old(signals)
      ensures key in signals ==> fresh(signals[key].changed)
      ensures View() == if key in signals then Notified(old(View()), key, signals[key].changed) else old(View())
    {
      ghost var before := View();
      if key in signals {
        var signal := signals[key];
        assert signal in signals.Values;
        ghost var previous := signal.changed;
        assert before.changed[signal] == previous && previous in events;
        signal.Notify();
        events := events + {signal.changed};
        assert View().users == before.users;
        assert View().changed == before.changed[signal := signal.changed];
        assert View().fired == before.fired + {previous};
        NotifiedWellFormed(before, key, signal.changed);
      }
    }
  }

  lemma InsertedValues<K, V>(m: map<K, V>, k: K, v: V)
    requires k !in m
    ensures m[k := v].Values == m.Values + {v}
  {
    var r := m[k := v];
    assert r[k] == v;
    forall x | x in m.Values
      ensures x in r.Values
    {
      var l :| l in m && m[l] == x;
      assert r[l] == x;
    }
  }

  lemma RemovedValues<K, V>(m: map<K, V>, k: K)
    requires k in m && forall l :: l in m && m[l] == m[k] ==> l == k
    ensures (m - {k}).Values == m.Values - {m[k]}
  {
    var r := m - {k};
    forall x | x in m.Values - {m[k]}
      ensures x in r.Values
    {
      var l :| l in m && m[l] == x;
      assert r[l] == x;
    }
  }

  // ---- every interleaving --------------------------------------------------

  /** The subscriber discipline: capture the event, then read, then wait. */
  datatype Phase = Outside | Captured(event: nat) | Blocked(event: nat)

  /** `seen` is the length of the log when the event was captured. */
  datatype Watcher = Watcher(key: Key, signal: nat, cursor: nat, phase: Phase, seen: nat)

  datatype Range = Range(low: nat, high: nat)

  /** A committer after its inner commit: what it appended, whom it has yet to notify. */
  datatype Committer = Committer(entries: map<Key, Range>, todo: seq<Key>)

  datatype Machine = Machine(
    store: Store<nat, nat>, watchers: map<nat, Watcher>, log: map<Key, nat>, committers: map<nat, Committer>)

  /** The three kinds of commit. */
  datatype Unit =
    | TaskUnit(task: string)
    | SessionUnit(session: string, mentioned: seq<string>)
    | SessionAndTaskUnit(session: string, task: string)

  function Appends(u: Unit): (keys: set<Key>)
  {
    match u
    case TaskUnit(task) => {Task(task)}
    case SessionUnit(session, _) => {Session(session)}
    case SessionAndTaskUnit(session, task) => {Task(task), Session(session)}
  }

  function Notifies(u: Unit): (keys: seq<Key>)
  {
    match u
    case TaskUnit(task) => [Task(task)]
    case SessionUnit(session, mentioned) =>
      [Session(session)] + seq(|mentioned|, i requires 0 <= i < |mentioned| => Task(mentioned[i]))
    case SessionAndTaskUnit(session, task) => [Task(task), Session(session)]
  }

  datatype Step =
    | Watch(w: nat, key: Key, cursor: nat, s: nat, e: nat)
    | Capture(w: nat)
    | Read(w: nat, upTo: nat)
    | Wake(w: nat)
    | Unwatch(w: nat)
    | InnerCommit(c: nat, u: Unit, growth: map<Key, nat>)
    | NotifyNext(c: nat, e: nat)

  function LogOf(m: Machine, key: Key): nat
  {
    if key in m.log then m.log[key] else 0
  }

  ghost predicate Enabled(m: Machine, step: Step)
  {
    WellFormed(m.store) &&
    match step
    case Watch(w, key, _, s, e) => w !in m.watchers && s !in m.store.users && e !in m.store.events
    case Capture(w) => w in m.watchers && m.watchers[w].phase.Outside? && m.watchers[w].signal in m.store.changed
    case Read(w, upTo) =>
      w in m.watchers && m.watchers[w].phase.Captured?
      && (var r := m.watchers[w];
          if r.cursor < LogOf(m, r.key) then r.cursor < upTo <= LogOf(m, r.key) else upTo == r.cursor)
    case Wake(w) => w in m.watchers && m.watchers[w].phase.Blocked? && m.watchers[w].phase.event in m.store.fired
    case Unwatch(w) =>
      w in m.watchers && m.watchers[w].key in m.store.signals
      && m.store.users[m.store.signals[m.watchers[w].key]] > 0
    case InnerCommit(c, u, growth) => c !in m.committers && growth.Keys == Appends(u)
    case NotifyNext(c, e) => c in m.committers && m.committers[c].todo != [] && e !in m.store.events
  }

  ghost function Next(m: Machine, step: Step): (r: Machine)
    requires Enabled(m, step)
  {
    match step
    case Watch(w, key, cursor, s, e) =>
      var signal := if key in m.store.signals then m.store.signals[key] else s;
      m.(store := Entered(m.store, key, s, e), watchers := m.watchers[w := Watcher(key, signal, cursor, Outside, 0)])
    case Capture(w) =>
      var r := m.watchers[w];
      m.(watchers := m.watchers[w := r.(phase := Captured(m.store.changed[r.signal]), seen := LogOf(m, r.key))])
    case Read(w, upTo) =>
      var r := m.watchers[w];
      m.(watchers := m.watchers[w := r.(cursor := upTo, phase := if r.cursor < upTo then Outside else Blocked(r.phase.event))])
    case Wake(w) => m.(watchers := m.watchers[w := m.watchers[w].(phase := Outside)])
    case Unwatch(w) => m.(store := Left(m.store, m.watchers[w].key), watchers := m.watchers - {w})
    case InnerCommit(c, u, growth) =>
      m.(log := map k | k in m.log.Keys + growth.Keys :: LogOf(m, k) + (if k in growth then growth[k] else 0),
         committers := m.committers[c := Committer(map k | k in growth :: Range(LogOf(m, k), LogOf(m, k) + growth[k]),
                                                   Notifies(u))])
    case NotifyNext(c, e) =>
      var r := m.committers[c];
      m.(store := Notified(m.store, r.todo[0], e), committers := m.committers[c := r.(todo := r.todo[1..])])
  }

  const START := Machine(Store(map[], map[], map[], {}, {}), map[], map[], map[])

  ghost predicate Reaches(steps: seq<Step>, m: Machine)
  {
    if steps == [] then m == START
    else
      var init, last := steps[..|steps| - 1], steps[|steps| - 1];
      exists before :: Reaches(init, before) && Moves(before, last, m)
  }

  ghost predicate Moves(before: Machine, step: Step, after: Machine)
  {
    Enabled(before, step) && after == Next(before, step)
  }

  // ---- the invariant -------------------------------------------------------

  function WatchersOf(m: Machine, key: Key): (ws: set<nat>)
  {
    Watching(m.watchers, key)
  }

  function Watching(watchers: map<nat, Watcher>, key: Key): (ws: set<nat>)
  {
    set w | w in watchers && watchers[w].key == key
  }

  lemma InsertWatcher(watchers: map<nat, Watcher>, w: nat, r: Watcher, key: Key)
    requires w !in watchers
    ensures |Watching(watchers[w := r], key)| == |Watching(watchers, key)| + if r.key == key then 1 else 0
  {
    if r.key == key {
      assert Watching(watchers[w := r], key) == Watching(watchers, key) + {w};
    } else {
      assert Watching(watchers[w := r], key) == Watching(watchers, key);
    }
  }

  lemma RemoveWatcher(watchers: map<nat, Watcher>, w: nat, key: Key)
    requires w in watchers
    ensures |Watching(watchers - {w}, key)| == |Watching(watchers, key)| - if watchers[w].key == key then 1 else 0
  {
    if watchers[w].key == key {
      assert Watching(watchers, key) == Watching(watchers - {w}, key) + {w};
    } else {
      assert Watching(watchers, key) == Watching(watchers - {w}, key);
    }
  }

  /** The entry of one key: present iff it has live watchers, counting them. */
  ghost predicate KeyExact(m: Machine, key: Key)
    requires WellFormed(m.store)
  {
    && (key in m.store.signals <==> |WatchersOf(m, key)| > 0)
    && UsersOf(m.store, key) == |WatchersOf(m, key)|
  }

  /** A live watcher holds the very signal in the map. */
  ghost predicate Holds(m: Machine, r: Watcher)
  {
    r.key in m.store.signals && m.store.signals[r.key] == r.signal
  }

  ghost predicate SignalTable(m: Machine)
  {
    && WellFormed(m.store)
    && (forall k :: KeyExact(m, k))
    && (forall w :: w in m.watchers ==> Holds(m, m.watchers[w]))
  }

  /** Entry `i` of `key` was appended by a committer that has yet to notify `key`. */
  ghost predicate Pending(m: Machine, key: Key, i: nat)
  {
    exists c :: c in m.committers && key in m.committers[c].todo && key in m.committers[c].entries
      && m.committers[c].entries[key].low <= i < m.committers[c].entries[key].high
  }

  /** A watcher whose event has not fired holds the current event, and everything
      appended since it captured it is still pending. */
  ghost predicate WatcherSafe(m: Machine, r: Watcher)
  {
    && (r.phase.Outside? || (
        && r.phase.event in m.store.events
        && (r.phase.event !in m.store.fired ==>
              && r.signal in m.store.changed && m.store.changed[r.signal] == r.phase.event
              && (forall i :: r.seen <= i < LogOf(m, r.key) ==> Pending(m, r.key, i)))))
    && r.seen <= LogOf(m, r.key)
    && (r.phase.Blocked? ==> r.seen <= r.cursor)
  }

  ghost predicate AllSafe(m: Machine)
  {
    forall w :: w in m.watchers ==> WatcherSafe(m, m.watchers[w])
  }

  lemma WatchKeepsKey(m: Machine, step: Step, k: Key)
    requires step.Watch? && Enabled(m, step) && KeyExact(m, k)
    requires WellFormed(Next(m, step).store)
    ensures KeyExact(Next(m, step), k)
  {
    var n := Next(m, step);
    EnteredUsers(m.store, step.key, step.s, step.e, k);
    InsertWatcher(m.watchers, step.w, n.watchers[step.w], k);
  }

  lemma WatchKeepsTable(m: Machine, step: Step)
    requires step.Watch? && Enabled(m, step) && SignalTable(m)
    ensures SignalTable(Next(m, step))
  {
    var n := Next(m, step);
    EnteredWellFormed(m.store, step.key, step.s, step.e);
    forall k
      ensures KeyExact(n, k)
    {
      assert KeyExact(m, k);
      WatchKeepsKey(m, step, k);
    }
    forall w | w in n.watchers
      ensures Holds(n, n.watchers[w])
    {
      assert w != step.w ==> Holds(m, m.watchers[w]);
    }
  }

  lemma UnwatchKeepsKey(m: Machine, step: Step, k: Key)
    requires step.Unwatch? && Enabled(m, step) && KeyExact(m, k)
    requires WellFormed(Next(m, step).store)
    ensures KeyExact(Next(m, step), k)
  {
    LeftUsers(m.store, m.watchers[step.w].key, k);
    RemoveWatcher(m.watchers, step.w, k);
  }

  lemma UnwatchKeepsTable(m: Machine, step: Step)
    requires step.Unwatch? && Enabled(m, step) && SignalTable(m)
    ensures SignalTable(Next(m, step))
  {
    var n := Next(m, step);
    LeftWellFormed(m.store, m.watchers[step.w].key);
    forall k
      ensures KeyExact(n, k)
    {
      assert KeyExact(m, k);
      UnwatchKeepsKey(m, step, k);
    }
    forall w | w in n.watchers
      ensures Holds(n, n.watchers[w])
    {
      assert Holds(m, m.watchers[w]);
      if m.watchers[w].key == m.watchers[step.w].key {
        LastLeaves(m, step, w);
      }
    }
  }

  /** The signal is dropped only when nobody else watches the key. */
  lemma LastLeaves(m: Machine, step: Step, w: nat)
    requires step.Unwatch? && Enabled(m, step) && SignalTable(m) && w in m.watchers && w != step.w
    requires m.watchers[w].key == m.watchers[step.w].key
    ensures m.store.users[m.store.signals[m.watchers[w].key]] > 1
  {
    var key := m.watchers[w].key;
    assert KeyExact(m, key);
    assert {w, step.w} <= WatchersOf(m, key);
    SubsetCount({w, step.w}, WatchersOf(m, key));
  }

  lemma SubsetCount<T>(a: set<T>, b: set<T>)
    requires a <= b
    ensures |a| <= |b|
  {
    assert b == a + (b - a);
  }

  lemma OtherStepsKeepTable(m: Machine, step: Step)
    requires !step.Watch? && !step.Unwatch? && Enabled(m, step) && SignalTable(m)
    ensures SignalTable(Next(m, step))
  {
    OthersLeaveTable(m, step);
    SameTableIsExact(m, Next(m, step));
  }

  /** The same signals and counts, and every watcher with its key and signal. */
  ghost predicate SameTable(m: Machine, n: Machine)
  {
    && n.store.signals == m.store.signals && n.store.users == m.store.users
    && n.watchers.Keys == m.watchers.Keys
    && forall w :: w in n.watchers ==>
         n.watchers[w].key == m.watchers[w].key && n.watchers[w].signal == m.watchers[w].signal
  }

  lemma OthersLeaveTable(m: Machine, step: Step)
    requires !step.Watch? && !step.Unwatch? && Enabled(m, step) && WellFormed(m.store)
    ensures WellFormed(Next(m, step).store) && SameTable(m, Next(m, step))
  {
    match step
    case NotifyNext(c, e) => NotifyLeavesTable(m, c, e);
    case InnerCommit(c, u, growth) => CommitLeavesTable(m, step);
    case Capture(w) => WatcherMoves(m, w, Next(m, step).watchers[w]);
    case Read(w, _) => WatcherMoves(m, w, Next(m, step).watchers[w]);
    case Wake(w) => WatcherMoves(m, w, Next(m, step).watchers[w]);
    case _ =>
  }

  lemma NotifyLeavesTable(m: Machine, c: nat, e: nat)
    requires Enabled(m, NotifyNext(c, e)) && WellFormed(m.store)
    ensures WellFormed(Next(m, NotifyNext(c, e)).store) && SameTable(m, Next(m, NotifyNext(c, e)))
  {
    NotifiedWellFormed(m.store, m.committers[c].todo[0], e);
    NotifiedKeepsTable(m.store, m.committers[c].todo[0], e);
  }

  lemma NotifiedKeepsTable<S, E>(st: Store<S, E>, key: Key, e: E)
    requires WellFormed(st)
    ensures Notified(st, key, e).signals == st.signals && Notified(st, key, e).users == st.users
  {
  }

  lemma CommitLeavesTable(m: Machine, step: Step)
    requires step.InnerCommit? && Enabled(m, step)
    ensures Next(m, step).store == m.store && SameTable(m, Next(m, step))
  {
  }

  /** A watcher that keeps its key and signal leaves the table as it is. */
  lemma WatcherMoves(m: Machine, w: nat, r: Watcher)
    requires w in m.watchers && r.key == m.watchers[w].key && r.signal == m.watchers[w].signal
    ensures SameTable(m, m.(watchers := m.watchers[w := r]))
  {
  }

  lemma SameTableIsExact(m: Machine, n: Machine)
    requires SignalTable(m) && WellFormed(n.store) && SameTable(m, n)
    ensures SignalTable(n)
  {
    forall k
      ensures KeyExact(n, k)
    {
      assert KeyExact(m, k);
      assert WatchersOf(n, k) == WatchersOf(m, k);
    }
    forall w | w in n.watchers
      ensures Holds(n, n.watchers[w])
    {
      assert Holds(m, m.watchers[w]);
    }
  }

  lemma WatchKeepsSafe(m: Machine, step: Step)
    requires step.Watch? && Enabled(m, step) && SignalTable(m) && AllSafe(m)
    ensures AllSafe(Next(m, step))
  {
    var n := Next(m, step);
    forall w | w in n.watchers
      ensures WatcherSafe(n, n.watchers[w])
    {
      if w != step.w {
        assert WatcherSafe(m, m.watchers[w]);
        assert forall i :: Pending(m, m.watchers[w].key, i) ==> Pending(n, m.watchers[w].key, i);
      }
    }
  }

  lemma UnwatchKeepsSafe(m: Machine, step: Step)
    requires step.Unwatch? && Enabled(m, step) && SignalTable(m) && AllSafe(m)
    ensures AllSafe(Next(m, step))
  {
    var n, key := Next(m, step), m.watchers[step.w].key;
    forall w | w in n.watchers
      ensures WatcherSafe(n, n.watchers[w])
    {
      assert WatcherSafe(m, m.watchers[w]) && Holds(m, m.watchers[w]);
      assert forall i :: Pending(m, m.watchers[w].key, i) ==> Pending(n, m.watchers[w].key, i);
      if m.watchers[w].key == key {
        LastLeaves(m, step, w);
      }
    }
  }

  lemma WatcherStepsKeepSafe(m: Machine, step: Step)
    requires (step.Capture? || step.Read? || step.Wake?) && Enabled(m, step) && SignalTable(m) && AllSafe(m)
    ensures AllSafe(Next(m, step))
  {
    var n := Next(m, step);
    forall w | w in n.watchers
      ensures WatcherSafe(n, n.watchers[w])
    {
      var r := m.watchers[w];
      assert WatcherSafe(m, r);
      if w == step.w {
        StepperSafe(m, step);
      } else {
        SamePending(m, n, r);
      }
    }
  }

  lemma SamePending(m: Machine, n: Machine, r: Watcher)
    requires n.committers == m.committers && n.log == m.log && n.store == m.store && WatcherSafe(m, r)
    ensures WatcherSafe(n, r)
  {
    forall i | r.seen <= i < LogOf(m, r.key) && Pending(m, r.key, i)
      ensures Pending(n, r.key, i)
    {
    }
  }

  lemma StepperSafe(m: Machine, step: Step)
    requires (step.Capture? || step.Read? || step.Wake?) && Enabled(m, step) && SignalTable(m) && AllSafe(m)
    ensures WatcherSafe(Next(m, step), Next(m, step).watchers[step.w])
  {
    var n, r := Next(m, step), m.watchers[step.w];
    assert WatcherSafe(m, r);
    if step.Read? && !(r.cursor < LogOf(m, r.key)) {
      SamePending(m, n, r);
    }
  }

  lemma CommitKeepsSafe(m: Machine, step: Step)
    requires step.InnerCommit? && Enabled(m, step) && SignalTable(m) && AllSafe(m)
    ensures AllSafe(Next(m, step))
  {
    var n, added := Next(m, step), Next(m, step).committers[step.c];
    forall w | w in n.watchers
      ensures WatcherSafe(n, n.watchers[w])
    {
      var r := m.watchers[w];
      assert WatcherSafe(m, r);
      forall i | 0 <= i < LogOf(n, r.key) && (i < LogOf(m, r.key) ==> Pending(m, r.key, i))
        ensures Pending(n, r.key, i)
      {
        if i < LogOf(m, r.key) {
          var c :| c in m.committers && r.key in m.committers[c].todo && r.key in m.committers[c].entries
            && m.committers[c].entries[r.key].low <= i < m.committers[c].entries[r.key].high;
          assert n.committers[c] == m.committers[c];
        } else {
          assert r.key in step.growth;
          AppendedAreNotified(step.u, r.key);
          assert added.entries[r.key].low <= i < added.entries[r.key].high;
        }
      }
    }
  }

  /** Every kind of commit notifies each log it appends to. */
  lemma AppendedAreNotified(u: Unit, key: Key)
    requires key in Appends(u)
    ensures key in Notifies(u)
  {
    match u
    case TaskUnit(task) => assert Notifies(u)[0] == key;
    case SessionUnit(session, _) => assert Notifies(u)[0] == key;
    case SessionAndTaskUnit(session, task) => assert Notifies(u)[0] == Task(task) && Notifies(u)[1] == Session(session);
  }

  lemma NotifyKeepsSafe(m: Machine, step: Step)
    requires step.NotifyNext? && Enabled(m, step) && SignalTable(m) && AllSafe(m)
    ensures AllSafe(Next(m, step))
  {
    var n, key := Next(m, step), m.committers[step.c].todo[0];
    forall w | w in n.watchers
      ensures WatcherSafe(n, n.watchers[w])
    {
      var r := m.watchers[w];
      assert WatcherSafe(m, r);
      if r.key != key {
        forall i: nat | Pending(m, r.key, i)
          ensures Pending(n, r.key, i)
        {
          var c :| c in m.committers && r.key in m.committers[c].todo && r.key in m.committers[c].entries
            && m.committers[c].entries[r.key].low <= i < m.committers[c].entries[r.key].high;
          assert r.key in n.committers[c].todo;
        }
      }
    }
  }

  lemma {:induction false} ReachableSafe(steps: seq<Step>, m: Machine)
    requires Reaches(steps, m)
    ensures SignalTable(m) && AllSafe(m)
  {
    if steps == [] {
      assert forall k :: WatchersOf(START, k) == {};
    } else {
      var step := steps[|steps| - 1];
      var before :| Reaches(steps[..|steps| - 1], before) && Moves(before, step, m);
      ReachableSafe(steps[..|steps| - 1], before);
      match step
      case Watch(_, _, _, _, _) => WatchKeepsTable(before, step); WatchKeepsSafe(before, step);
      case Unwatch(_) => UnwatchKeepsTable(before, step); UnwatchKeepsSafe(before, step);
      case InnerCommit(_, _, _) => OtherStepsKeepTable(before, step); CommitKeepsSafe(before, step);
      case NotifyNext(_, _) => OtherStepsKeepTable(before, step); NotifyKeepsSafe(before, step);
      case _ => OtherStepsKeepTable(before, step); WatcherStepsKeepSafe(before, step);
    }
  }

  // ---- the promises --------------------------------------------------------

  /** In every reachable state the signal table is exact. */
  lemma TableIsExact(steps: seq<Step>, m: Machine)
    requires Reaches(steps, m)
    ensures SignalTable(m)
  {
    ReachableSafe(steps, m);
  }

  /** No lost wake-up: a watcher blocked on an unset event while entries are unread
      implies that the writer of every unread entry is between its inner commit and
      its notification of that key. */
  lemma NoLostWakeUp(steps: seq<Step>, m: Machine, w: nat, i: nat)
    requires Reaches(steps, m)
    requires w in m.watchers && m.watchers[w].phase.Blocked? && m.watchers[w].phase.event !in m.store.fired
    requires m.watchers[w].cursor <= i < LogOf(m, m.watchers[w].key)
    ensures Pending(m, m.watchers[w].key, i)
  {
    ReachableSafe(steps, m);
    assert WatcherSafe(m, m.watchers[w]);
  }

  /** Once every committer has notified, a blocked watcher with unread entries can wake. */
  lemma QuietMeansAwake(steps: seq<Step>, m: Machine, w: nat)
    requires Reaches(steps, m)
    requires forall c :: c in m.committers ==> m.committers[c].todo == []
    requires w in m.watchers && m.watchers[w].phase.Blocked? && m.watchers[w].cursor < LogOf(m, m.watchers[w].key)
    ensures Enabled(m, Wake(w))
  {
    ReachableSafe(steps, m);
    if m.watchers[w].phase.event !in m.store.fired {
      NoLostWakeUp(steps, m, w, m.watchers[w].cursor);
    }
  }
}
