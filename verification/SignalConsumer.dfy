/** Consuming signal events from a stream group: delivery, transaction, acknowledgement
    (services/core_engine/main.py, the entry of services/core_engine/engine.py, and
    mark_event_processed of services/core_engine/repository.py). Any call may raise: a
    transaction rolls back or commits without the consumer learning of it, an acknowledgement
    is lost before or after it takes effect, and the process may stop between any two calls. */
module SignalConsumer {
  import opened Common

  /** A record of the stream. Only SignalEvent is a well-formed signal.created event; its signal
      id is None when the payload has no positive one. */
  datatype Body = NotText | Unparsable | OtherEvent | SignalEvent(eventId: int, signalId: Option<int>)

  datatype Message = Message(id: nat, body: Body)

  datatype Outcome = Ignored | Retry | Processed

  /** The committed rows: known signals with whether each was accepted, processed event ids, and
      the event ids whose trade-opening body has been committed, in order. */
  datatype Database = Database(signals: map<int, bool>, processed: set<int>, openings: seq<int>)

  const BATCH := 100

  /** What handle_signal_created does inside one transaction. */
  function Handle(db: Database, eventId: int, signalId: Option<int>): (Database, Outcome) {
    if signalId.None? then (db, Ignored)
    else if signalId.value !in db.signals then (db, Retry)
    else if eventId in db.processed then (db, Ignored)
    else
      var marked := db.(processed := db.processed + {eventId});
      if !db.signals[signalId.value] then (marked, Ignored)
      else (marked.(openings := db.openings + [eventId]), Processed)
  }

  /** No event id has been opened twice, and every opened one is marked. */
  ghost predicate OpenedAtMostOnce(db: Database) {
    && (forall i, j :: 0 <= i < j < |db.openings| ==> db.openings[i] != db.openings[j])
    && (forall i :: 0 <= i < |db.openings| ==> db.openings[i] in db.processed)
  }

  lemma HandleOpensAtMostOnce(db: Database, eventId: int, signalId: Option<int>)
    requires OpenedAtMostOnce(db)
    ensures OpenedAtMostOnce(Handle(db, eventId, signalId).0)
    ensures Handle(db, eventId, signalId).1 == Retry ==> Handle(db, eventId, signalId).0 == db
  {
  }

  /** Handling again what a committed transaction has settled changes nothing and asks for no retry. */
  lemma RedeliveryIsHarmless(db: Database, eventId: int, signalId: Option<int>)
    requires Handle(db, eventId, signalId).1 != Retry
    ensures var after := Handle(db, eventId, signalId).0;
            Handle(after, eventId, signalId) == (after, Ignored)
  {
  }

  /** An event opens trades exactly when its signal is known and accepted and the event is new; it
      is to be retried exactly when its signal is not known yet. Handling marks the event unless
      it is a retry or has no signal id. */
  lemma HandleInFields(db: Database, eventId: int, signalId: Option<int>)
    ensures var (after, outcome) := Handle(db, eventId, signalId);
            && (outcome == Retry <==> signalId.Some? && signalId.value !in db.signals)
            && (outcome == Processed <==>
                  && signalId.Some? && signalId.value in db.signals && db.signals[signalId.value]
                  && eventId !in db.processed)
            && after.signals == db.signals
            && (forall e :: e in after.processed <==>
                  e in db.processed || (e == eventId && signalId.Some? && signalId.value in db.signals))
            && after.openings == db.openings + (if outcome == Processed then [eventId] else [])
  {
  }

  /** The events whose committed transaction had this outcome, in the order of the commits. */
  ghost function Opened(commits: seq<Commit>): seq<int> {
    if commits == [] then []
    else
      var last := commits[|commits| - 1];
      Opened(commits[..|commits| - 1])
      + if last.outcome == Processed && last.message.body.SignalEvent? then [last.message.body.eventId] else []
  }

  lemma OneMoreCommit(commits: seq<Commit>, last: Commit)
    requires last.message.body.SignalEvent?
    ensures Opened(commits + [last])
            == Opened(commits) + if last.outcome == Processed then [last.message.body.eventId] else []
  {
    assert (commits + [last])[..|commits|] == commits;
  }

  /** What an acknowledged signal event has left in the database for good. */
  ghost predicate Settled(db: Database, body: Body) {
    body.SignalEvent? && body.signalId.Some? ==> body.signalId.value in db.signals && body.eventId in db.processed
  }

  ghost predicate Extends(before: Database, after: Database) {
    && before.processed <= after.processed && before.openings <= after.openings
    && before.signals.Keys <= after.signals.Keys
    && forall s :: s in before.signals ==> after.signals[s] == before.signals[s]
  }

  lemma HandleSettles(db: Database, body: Body)
    requires body.SignalEvent? && Handle(db, body.eventId, body.signalId).1 != Retry
    ensures Settled(Handle(db, body.eventId, body.signalId).0, body)
    ensures Extends(db, Handle(db, body.eventId, body.signalId).0)
  {
  }

  datatype Commit = Commit(message: Message, outcome: Outcome)

  function Take(s: seq<Message>): (batch: seq<Message>)
    ensures batch <= s && |batch| <= 100 && (batch == s || |batch| == 100)
  {
    if |s| <= BATCH then s else s[..BATCH]
  }

  function Without(s: seq<Message>, m: Message): seq<Message> {
    if s == [] then []
    else (if s[0] == m then [] else [s[0]]) + Without(s[1..], m)
  }

  lemma {:induction false} WithoutIsRemoval(s: seq<Message>, m: Message)
    ensures ToSet(Without(s, m)) == ToSet(s) - {m}
  {
    if s != [] {
      WithoutIsRemoval(s[1..], m);
      assert ToSet(s) == {s[0]} + ToSet(s[1..]);
      assert ToSet(Without(s, m)) == (if s[0] == m then {} else {s[0]}) + ToSet(Without(s[1..], m));
    }
  }

  /** A signal event may be acknowledged once a transaction about it has committed with an
      outcome other than retry; that transaction has settled the event for good. */
  ghost predicate MayAcknowledge(db: Database, commits: seq<Commit>, m: Message) {
    m.body.SignalEvent? ==>
      && Settled(db, m.body)
      && exists k :: 0 <= k < |commits| && commits[k].message == m && commits[k].outcome != Retry
  }

  lemma MayAcknowledgeStays(before: Database, after: Database, commits: seq<Commit>, more: seq<Commit>, m: Message)
    requires Extends(before, after) && MayAcknowledge(before, commits, m)
    ensures MayAcknowledge(after, commits + more, m)
  {
    if m.body.SignalEvent? {
      var k :| 0 <= k < |commits| && commits[k].message == m && commits[k].outcome != Retry;
      assert (commits + more)[k] == commits[k];
    }
  }

  class Consumer {
    var db: Database
    var stream: seq<Message>            // not yet delivered
    var pending: seq<Message>           // delivered and not acknowledged, oldest first
    var acknowledged: set<Message>
    var readPending: bool
    const quiet: bool                   // nothing raises
    ghost var delivered: set<Message>
    ghost var commits: seq<Commit>      // every transaction that has committed, with its outcome

    ghost predicate Valid()
      reads this
    {
      && OpenedAtMostOnce(db) && db.openings == Opened(commits)
      && delivered == ToSet(pending) + acknowledged && ToSet(pending) !! acknowledged
      && (forall m :: m in acknowledged ==> MayAcknowledge(db, commits, m))
      && (forall m :: m in stream ==> m !in delivered)
      && (forall i, j :: 0 <= i < j < |stream| ==> stream[i] != stream[j])
    }

    /** Nothing settled is ever unsettled: rows, openings, acknowledgements and deliveries only grow. */
    twostate predicate Grows()
      reads this
    {
      && Extends(old(db), db) && old(acknowledged) <= acknowledged && old(delivered) <= delivered
      && old(commits) <= commits
    }

    constructor (quiet: bool)
      ensures Valid() && db == Database(map[], {}, []) && delivered == {} && readPending && this.quiet == quiet
    {
      db, stream, pending, acknowledged, readPending := Database(map[], {}, []), [], [], {}, true;
      this.quiet := quiet;
      delivered, commits := {}, [];
    }

    /** Pending records are read first, and at least on every second read; in between come new ones. */
    method ReadSignalRecords() returns (batch: seq<Message>)
      requires Valid()
      modifies this
      ensures Valid() && Grows() && db == old(db) && acknowledged == old(acknowledged) && commits == old(commits)
      ensures if old(readPending) && old(pending) != []
              then batch == Take(old(pending)) && !readPending && pending == old(pending) && stream == old(stream)
              else batch == Take(old(stream)) && readPending && pending == old(pending) + batch
                   && stream == old(stream)[|batch|..]
      ensures forall m :: m in batch ==> m in delivered
    {
      if readPending && pending != [] {
        readPending := false;
        return Take(pending);
      }
      batch := Take(stream);
      assert ToSet(pending + batch) == ToSet(pending) + ToSet(batch);
      pending, stream := pending + batch, stream[|batch|..];
      delivered := delivered + ToSet(batch);
      readPending := true;
    }

    /** XACK may raise, before or after it takes effect. */
    method Acknowledge(m: Message) returns (ok: bool)
      requires Valid() && m in delivered && MayAcknowledge(db, commits, m)
      modifies this
      ensures Valid() && Grows() && db == old(db) && commits == old(commits) && delivered == old(delivered)
      ensures ok ==> m in acknowledged && m !in pending
      ensures acknowledged <= old(acknowledged) + {m}
      ensures quiet ==> ok
    {
      var lostBefore: bool := *;
      if lostBefore && !quiet {
        return false;
      }
      WithoutIsRemoval(pending, m);
      pending, acknowledged := Without(pending, m), acknowledged + {m};
      assert m !in ToSet(pending);
      var lostAfter: bool := *;
      ok := quiet || !lostAfter;
    }

    /** One session: the handler may raise and roll back, or the commit may take effect and
        still raise. Returns no outcome when the consumer saw an exception. */
    method Transact(m: Message) returns (outcome: Option<Outcome>)
      requires Valid() && m in delivered && m.body.SignalEvent?
      modifies this
      ensures Valid() && Grows() && delivered == old(delivered) && pending == old(pending)
      ensures acknowledged == old(acknowledged)
      ensures outcome.Some? ==> commits == old(commits) + [Commit(m, outcome.value)]
                                && (db, outcome.value) == Handle(old(db), m.body.eventId, m.body.signalId)
      ensures outcome.Some? && outcome.value != Retry ==> MayAcknowledge(db, commits, m)
      ensures quiet ==> outcome.Some?
    {
      var rolledBack: bool := *;
      if rolledBack && !quiet {
        return None;
      }
      var (after, result) := Handle(db, m.body.eventId, m.body.signalId);
      HandleOpensAtMostOnce(db, m.body.eventId, m.body.signalId);
      if result != Retry {
        HandleSettles(db, m.body);
      }
      forall n | n in acknowledged
        ensures MayAcknowledge(after, commits + [Commit(m, result)], n)
      {
        MayAcknowledgeStays(db, after, commits, [Commit(m, result)], n);
      }
      HandleInFields(db, m.body.eventId, m.body.signalId);
      OneMoreCommit(commits, Commit(m, result));
      db := after;
      commits := commits + [Commit(m, result)];
      assert commits[|commits| - 1] == Commit(m, result);
      var raised: bool := *;
      return if raised && !quiet then None else Some(result);
    }

    /** One record. A lost acknowledgement of a malformed record stops the consumer; every other
        exception is logged and leaves the record pending. When nothing raises, the record is
        acknowledged unless its outcome is retry. */
    method ProcessMessage(m: Message) returns (stopped: bool)
      requires Valid() && m in delivered
      modifies this
      ensures Valid() && Grows() && delivered == old(delivered)
      ensures acknowledged <= old(acknowledged) + {m}
      ensures stopped ==> !m.body.SignalEvent?
      ensures !m.body.SignalEvent? ==> db == old(db) && commits == old(commits)
      ensures quiet ==>
                var settled := !m.body.SignalEvent? || Handle(old(db), m.body.eventId, m.body.signalId).1 != Retry;
                && !stopped && acknowledged == old(acknowledged) + (if settled then {m} else {})
                && (m.body.SignalEvent? ==> db == Handle(old(db), m.body.eventId, m.body.signalId).0)
    {
      if !m.body.SignalEvent? {
        var ok := Acknowledge(m);
        return !ok;
      }
      var outcome := Transact(m);
      if outcome.Some? && outcome.value != Retry {
        var _ := Acknowledge(m);
      }
      return false;
    }

    /** A new signal row and a new record. */
    method Arrive(message: Message, signalId: int, accepted: bool)
      requires Valid()
      modifies this
      ensures Valid() && Grows() && pending == old(pending) && acknowledged == old(acknowledged)
      ensures commits == old(commits)
      ensures db == if signalId in old(db).signals then old(db)
                    else old(db).(signals := old(db).signals[signalId := accepted])
      ensures stream == old(stream)
                        + if message in old(stream) || message in old(delivered) then [] else [message]
    {
      if signalId !in db.signals {
        ghost var before := db;
        db := db.(signals := db.signals[signalId := accepted]);
        forall n | n in acknowledged
          ensures MayAcknowledge(db, commits, n)
        {
          MayAcknowledgeStays(before, db, commits, [], n);
          assert commits + [] == commits;
        }
      }
      if message !in pending && message !in acknowledged && message !in stream {
        stream := stream + [message];
      }
    }

    /** Any run of the consumer: new signals and records arrive, batches are read and processed,
        and the process stops and restarts at any point, again reading pending records first. */
    method Run(arrivals: seq<(Message, int, bool)>)
      requires Valid()
      modifies this
      ensures Valid() && Grows()
    {
      for k := 0 to |arrivals|
        invariant Valid() && Grows()
      {
        var (message, signalId, accepted) := arrivals[k];
        Arrive(message, signalId, accepted);
        var batch := ReadSignalRecords();
        var i := 0;
        var stopped := *;
        while i < |batch| && !stopped
          invariant 0 <= i <= |batch| && Valid() && Grows()
          invariant forall m :: m in batch ==> m in delivered
        {
          var failed := ProcessMessage(batch[i]);
          var killed: bool := *;
          stopped := failed || killed;
          i := i + 1;
        }
        if stopped {
          readPending := true;
        }
      }
    }
  }
}
