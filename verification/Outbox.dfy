/** The webhook outbox: one row per deduplication key, and what it makes of repeated deliveries. */
module Outbox {
  import opened Common

  datatype RowStatus = Pending | Processing | Processed | Failed

  datatype Row = Row(status: RowStatus, attempts: nat)

  /** What the handler did: finished, or raised after committing `app`. */
  datatype Served<+App> = Finished(app: App) | Broke(app: App)

  /** An authenticated, parsed callback: its deduplication key, and everything its handler sees. */
  datatype Delivery<+Key, +Event> = Delivery(key: Key, event: Event)

  /** One entry of the log of handler invocations. */
  datatype Invocation<+Key> = Invocation(key: Key, finished: bool)

  datatype State<App, Key> = State(rows: map<Key, Row>, app: App, log: seq<Invocation<Key>>)

  function Deliver<App, Key(==), Event>(s: State<App, Key>, d: Delivery<Key, Event>, handler: (App, Event) -> Served<App>)
    : State<App, Key>
  {
    var row := if d.key in s.rows then s.rows[d.key] else Row(Pending, 0);
    if row.status.Processed? then s
    else match handler(s.app, d.event)
      case Finished(app) =>
        State(s.rows[d.key := Row(Processed, row.attempts + 1)], app, s.log + [Invocation(d.key, true)])
      case Broke(app) =>
        State(s.rows[d.key := Row(Failed, row.attempts + 1)], app, s.log + [Invocation(d.key, false)])
  }

  datatype Reply = AlreadyProcessed | JustProcessed | Errored

  class Webhook<App, Key(==), Event> {
    const handler: (App, Event) -> Served<App>
    var rows: map<Key, Row>
    var app: App
    ghost var log: seq<Invocation<Key>>

    constructor (handler: (App, Event) -> Served<App>, app: App)
      ensures this.handler == handler && View() == State(map[], app, [])
    {
      this.handler := handler;
      this.app := app;
      rows := map[];
      log := [];
    }

    ghost function View(): State<App, Key>
      reads this
    {
      State(rows, app, log)
    }

    method EnsureOutboxEvent(key: Key) returns (row: Row)
      modifies this`rows
      ensures row == if key in old(rows) then old(rows)[key] else Row(Pending, 0)
      ensures rows == old(rows)[key := row]
    {
      if key in rows {
        row := rows[key];
        assert rows == rows[key := row];
      } else {
        row := Row(Pending, 0);
        rows := rows[key := row];
      }
    }

    /** The row is written before, and again after, the handler runs. */
    method HandleGatewayWebhook(d: Delivery<Key, Event>) returns (reply: Reply)
      modifies this
      ensures View() == Deliver(old(View()), d, handler)
      ensures reply.AlreadyProcessed? <==> d.key in old(rows) && old(rows)[d.key].status.Processed?
      ensures reply.Errored? <==> rows[d.key].status.Failed?
    {
      ghost var before := rows;
      var row := EnsureOutboxEvent(d.key);
      if row.status.Processed? {
        assert rows == before;
        return AlreadyProcessed;
      }
      rows := rows[d.key := Row(Processing, row.attempts + 1)];
      var served := handler(app, d.event);
      app := served.app;
      log := log + [Invocation(d.key, served.Finished?)];
      if served.Broke? {
        rows := rows[d.key := rows[d.key].(status := Failed)];
        assert rows == before[d.key := Row(Failed, row.attempts + 1)];
        return Errored;
      }
      rows := rows[d.key := rows[d.key].(status := Processed)];
      assert rows == before[d.key := Row(Processed, row.attempts + 1)];
      return JustProcessed;
    }
  }

  // ----- Invariants of every sequential run -----

  function Invocations<Key(==)>(log: seq<Invocation<Key>>, key: Key): nat {
    if |log| == 0 then 0
    else Invocations(log[..|log| - 1], key) + if log[|log| - 1].key == key then 1 else 0
  }

  function Completions<Key(==)>(log: seq<Invocation<Key>>, key: Key): nat {
    if |log| == 0 then 0
    else Completions(log[..|log| - 1], key) + if log[|log| - 1] == Invocation(key, true) then 1 else 0
  }

  /** `attempts` counts the handler's invocations for the key, and the row is processed exactly
      when one of them finished, which happened at most once. */
  ghost predicate Accounted<App, Key(!new)>(s: State<App, Key>) {
    forall k :: if k in s.rows then
                  && s.rows[k].attempts == Invocations(s.log, k)
                  && Completions(s.log, k) == (if s.rows[k].status.Processed? then 1 else 0)
                  && (s.rows[k].status.Processed? || s.rows[k].status.Failed?)
                else Invocations(s.log, k) == 0 && Completions(s.log, k) == 0
  }

  /** A new outbox is accounted for, and the two counts are numbers of log entries. */
  lemma NewOutboxAccounts<App, Key(!new)>(app: App)
    ensures var s: State<App, Key> := State(map[], app, []); Accounted(s)
  {
  }

  lemma {:induction false} CountsAreEntries<Key>(log: seq<Invocation<Key>>, key: Key)
    ensures Invocations(log, key) <= |log| && Completions(log, key) <= Invocations(log, key)
    ensures Invocations(log, key) == 0 <==> forall k | 0 <= k < |log| :: log[k].key != key
    ensures Completions(log, key) == 0 <==> forall k | 0 <= k < |log| :: log[k] != Invocation(key, true)
    ensures Completions(log, key) <= 1 ==>
              forall j, k | 0 <= j < |log| && 0 <= k < |log| && log[j] == Invocation(key, true) == log[k] :: j == k
    decreases |log|
  {
    if log != [] {
      CountsAreEntries(log[..|log| - 1], key);
    }
  }

  lemma DeliveryAccounts<App, Key(!new), Event>(s: State<App, Key>, d: Delivery<Key, Event>,
                                                handler: (App, Event) -> Served<App>)
    requires Accounted(s)
    ensures var s' := Deliver(s, d, handler);
            && Accounted(s')
            // a processed row is final, and its key never reaches the handler again
            && (forall k | k in s.rows && s.rows[k].status.Processed? :: k in s'.rows && s'.rows[k] == s.rows[k])
            && (d.key in s.rows && s.rows[d.key].status.Processed? ==> s' == s)
  {
    var s' := Deliver(s, d, handler);
    if s'.log != s.log {
      assert s'.log[..|s'.log| - 1] == s.log;
    }
  }

  function Run<App, Key(==), Event>(s: State<App, Key>, ds: seq<Delivery<Key, Event>>,
                                    handler: (App, Event) -> Served<App>): State<App, Key>
    decreases |ds|
  {
    if ds == [] then s else Run(Deliver(s, ds[0], handler), ds[1..], handler)
  }

  /** In every sequential run each key has one row whose attempts are its handler's invocations,
      a processed row never changes again, and a handler finishes at most once for a key. */
  lemma {:induction false} OutboxRuns<App, Key(!new), Event>(s: State<App, Key>, ds: seq<Delivery<Key, Event>>,
                                                             handler: (App, Event) -> Served<App>)
    requires Accounted(s)
    ensures var s' := Run(s, ds, handler);
            && Accounted(s')
            && (forall k | k in s.rows && s.rows[k].status.Processed? :: k in s'.rows && s'.rows[k] == s.rows[k])
            && (forall k :: Completions(s'.log, k) <= 1)
    decreases |ds|
  {
    if ds != [] {
      DeliveryAccounts(s, ds[0], handler);
      OutboxRuns(Deliver(s, ds[0], handler), ds[1..], handler);
    }
  }

  // ----- Deduplication -----

  /** The handler leaves no trace where it raises. */
  ghost predicate RollsBack<App(!new), Event>(handler: (App, Event) -> Served<App>, e: Event) {
    forall app :: handler(app, e).Broke? ==> handler(app, e).app == app
  }

  /** The first delivery of each key, not yet in `done`, whose handler finished. */
  function FirstSuccesses<App, Key(==), Event>(app: App, done: set<Key>, ds: seq<Delivery<Key, Event>>,
                                               handler: (App, Event) -> Served<App>): seq<Delivery<Key, Event>>
    decreases |ds|
  {
    if ds == [] then []
    else if ds[0].key in done then FirstSuccesses(app, done, ds[1..], handler)
    else match handler(app, ds[0].event)
      case Finished(app') => [ds[0]] + FirstSuccesses(app', done + {ds[0].key}, ds[1..], handler)
      case Broke(app') => FirstSuccesses(app', done, ds[1..], handler)
  }

  /** The handler applied to each delivery in turn, with no outbox. */
  function Replay<App, Key, Event>(app: App, ds: seq<Delivery<Key, Event>>, handler: (App, Event) -> Served<App>): App
    decreases |ds|
  {
    if ds == [] then app else Replay(handler(app, ds[0].event).app, ds[1..], handler)
  }

  ghost function DoneKeys<App, Key>(s: State<App, Key>): set<Key> {
    set k | k in s.rows && s.rows[k].status.Processed?
  }

  ghost function KeysOf<Key, Event>(ds: seq<Delivery<Key, Event>>): set<Key> {
    set d | d in ds :: d.key
  }

  /** With handlers that roll back where they raise, any run of deliveries, repeats and failures
      included, leaves the records of one plain pass over the first successful delivery of each
      key; those deliveries have distinct keys, and theirs are the keys newly processed. */
  lemma {:induction false} DeduplicationIsReplay<App(!new), Key(!new), Event>(
      s: State<App, Key>, ds: seq<Delivery<Key, Event>>, handler: (App, Event) -> Served<App>)
    requires forall d | d in ds :: RollsBack(handler, d.event)
    ensures var first := FirstSuccesses(s.app, DoneKeys(s), ds, handler);
            && Run(s, ds, handler).app == Replay(s.app, first, handler)
            && (forall i | 0 <= i < |first| :: first[i] in ds && first[i].key !in DoneKeys(s))
            && (forall i, j | 0 <= i < j < |first| :: first[i].key != first[j].key)
            && DoneKeys(Run(s, ds, handler)) == DoneKeys(s) + KeysOf(first)
    decreases |ds|
  {
    if ds != [] {
      var s', rest := Deliver(s, ds[0], handler), ds[1..];
      assert ds[0] in ds && forall d | d in rest :: d in ds;
      DeduplicationIsReplay(s', rest, handler);
      if ds[0].key in DoneKeys(s) {
        assert s' == s;
      } else if handler(s.app, ds[0].event).Finished? {
        var later := FirstSuccesses(s'.app, DoneKeys(s'), rest, handler);
        assert DoneKeys(s') == DoneKeys(s) + {ds[0].key};
        assert FirstSuccesses(s.app, DoneKeys(s), ds, handler) == [ds[0]] + later;
        hide Deliver, FirstSuccesses, DoneKeys;
        OneMoreSuccess(ds[0], later);
        assert ([ds[0]] + later)[1..] == later;
      } else {
        assert DoneKeys(s') == DoneKeys(s);
      }
    }
  }

  lemma OneMoreSuccess<Key, Event>(d: Delivery<Key, Event>, later: seq<Delivery<Key, Event>>)
    ensures KeysOf([d] + later) == {d.key} + KeysOf(later)
    ensures forall e :: e in [d] + later <==> e == d || e in later
  {
    assert forall e :: e in [d] + later <==> e == d || e in later;
  }

  ghost predicate Deduplicates<App, Key(!new), Event>(s: State<App, Key>, ds: seq<Delivery<Key, Event>>,
                                                      handler: (App, Event) -> Served<App>)
  {
    Run(s, ds, handler).app == Replay(s.app, FirstSuccesses(s.app, DoneKeys(s), ds, handler), handler)
  }

  /** Rolling back is exactly what deduplication needs: all runs of a handler are replays of their
      first successes if and only if the handler leaves no trace where it raises. */
  lemma RollingBackIsExact<App(!new), Key(!new), Event(!new)>(handler: (App, Event) -> Served<App>, key: Key)
    ensures (forall e :: RollsBack(handler, e))
            <==> forall s: State<App, Key>, ds: seq<Delivery<Key, Event>> :: Deduplicates(s, ds, handler)
  {
    if forall e :: RollsBack(handler, e) {
      forall s: State<App, Key>, ds: seq<Delivery<Key, Event>> ensures Deduplicates(s, ds, handler) {
        DeduplicationIsReplay(s, ds, handler);
      }
    } else {
      var e :| !RollsBack(handler, e);
      var app :| handler(app, e).Broke? && handler(app, e).app != app;
      var s: State<App, Key> := State(map[], app, []);
      var d := Delivery(key, e);
      var ds := [d];
      assert ds[1..] == [];
      assert Run(s, ds, handler).app == handler(app, e).app;
      assert FirstSuccesses(app, DoneKeys(s), ds, handler) == [];
      assert !Deduplicates(s, ds, handler);
    }
  }
}
