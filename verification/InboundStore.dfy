/** The ingestion transaction as it runs: loops of conflict-checked inserts on the session's tables. */
module InboundStore {
  import opened Common
  import opened Ingestion

  /** No body, a message of another channel, or statuses on a channel that has none. */
  ghost predicate Malformed(w: Webhook) {
    w.body == [] || (exists m :: m in w.messages && m.channel != w.channel) || (!w.channel.WhatsApp? && w.statuses != [])
  }

  class Store {
    const connections: map<nat, Connection>
    var events: map<EventKey, nat>
    var messages: map<MessageKey, StoredMessage>
    var jobs: map<nat, nat>
    var statuses: map<StatusKey, nat>
    var nextId: nat

    function View(): Database
      reads this
    {
      Database(connections, events, messages, jobs, statuses, nextId)
    }

    constructor (connections: map<nat, Connection>)
      ensures View() == EmptyDatabase(connections)
    {
      this.connections := connections;
      events, messages, jobs, statuses, nextId := map[], map[], map[], map[], 0;
    }

    method InsertMessageRows(connection: nat, channel: Channel, eventId: nat, ms: seq<Message>)
      returns (ids: seq<nat>, duplicates: nat)
      modifies this`messages, this`nextId
      ensures Inserted(View(), ids, duplicates) == InsertMessages(old(View()), connection, channel, eventId, ms)
    {
      ids, duplicates := [], 0;
      for i := 0 to |ms|
        invariant Inserted(View(), ids, duplicates) == InsertMessages(old(View()), connection, channel, eventId, ms[..i])
      {
        assert ms[..i + 1][..i] == ms[..i];
        var k := KeyFor(connection, channel, ms[i]);
        if k in messages {
          duplicates := duplicates + 1;
        } else {
          messages := messages[k := StoredMessage(nextId, eventId, ms[i])];
          ids := ids + [nextId];
          nextId := nextId + 1;
        }
      }
      assert ms[..|ms|] == ms;
    }

    method InsertJobRows(ids: seq<nat>) returns (created: nat)
      modifies this`jobs, this`nextId
      ensures (View(), created) == InsertJobs(old(View()), ids)
    {
      created := 0;
      for i := 0 to |ids|
        invariant (View(), created) == InsertJobs(old(View()), ids[..i])
      {
        assert ids[..i + 1][..i] == ids[..i];
        if ids[i] !in jobs {
          jobs := jobs[ids[i] := nextId];
          nextId := nextId + 1;
          created := created + 1;
        }
      }
      assert ids[..|ids|] == ids;
    }

    method InsertStatusRows(connection: nat, eventId: nat, ss: seq<DeliveryStatus>) returns (created: nat, duplicates: nat)
      modifies this`statuses
      ensures StatusesStored(View(), created, duplicates) == InsertStatuses(old(View()), connection, eventId, ss)
    {
      created, duplicates := 0, 0;
      for i := 0 to |ss|
        invariant StatusesStored(View(), created, duplicates) == InsertStatuses(old(View()), connection, eventId, ss[..i])
      {
        ghost var before := StatusesStored(View(), created, duplicates);
        assert ss[..i + 1][..i] == ss[..i];
        assert InsertStatuses(old(View()), connection, eventId, ss[..i + 1]) == InsertStatus(before, connection, eventId, ss[i]);
        var k := (connection, FingerprintOf(ss[i]));
        if k in statuses {
          duplicates := duplicates + 1;
        } else {
          statuses := statuses[k := eventId];
          created := created + 1;
        }
      }
      assert ss[..|ss|] == ss;
    }

    method IngestNewRows(w: Webhook, eventId: nat) returns (summary: Summary)
      modifies this`messages, this`jobs, this`statuses, this`nextId
      ensures (View(), summary) == IngestNew(old(View()), w, eventId)
    {
      var unique := Deduplicate(w.messages, ExternalId);
      var ids, duplicates := InsertMessageRows(w.connection, w.channel, eventId, unique);
      ghost var r := Inserted(View(), ids, duplicates);
      var jobsCreated := InsertJobRows(ids);
      var uniqueStatuses := Deduplicate(w.statuses, FingerprintOf);
      var created, statusDuplicates := InsertStatusRows(w.connection, eventId, uniqueStatuses);
      summary := Summary(eventId, true, |ids|, |w.messages| - |unique| + duplicates, jobsCreated,
                         created, |w.statuses| - |uniqueStatuses| + statusDuplicates);
      ghost var st := StatusesStored(View(), created, statusDuplicates);
      assert summary == SummaryOf(w, eventId, |unique|, r, jobsCreated, |uniqueStatuses|, st);
    }

    /** _ingest_in_transaction, past the connection checks. */
    method IngestInTransaction(w: Webhook) returns (summary: Summary)
      modifies this
      ensures (View(), summary) == Ingest(old(View()), w)
    {
      var e := EventKeyOf(w);
      if e in events {
        var unique := Deduplicate(w.messages, ExternalId);
        var uniqueStatuses := Deduplicate(w.statuses, FingerprintOf);
        return Summary(events[e], false, 0, |unique|, 0, 0, |uniqueStatuses|);
      }
      var eventId := nextId;
      events := events[e := eventId];
      nextId := nextId + 1;
      assert View() == WithEvent(old(View()), w);
      summary := IngestNewRows(w, eventId);
    }

    /** ingest_normalized_webhook, when no statement fails unexpectedly. */
    method IngestWebhook(w: Webhook) returns (r: Result<Summary, Refusal>)
      modifies this
      ensures match Refused(connections, w)
        case Some(why) => r == Err(why) && View() == old(View())
        case None => r.Ok? && (View(), r.value) == Ingest(old(View()), w)
      ensures r == Err(ValidationFailed) <==> Malformed(w)
      ensures r == Err(ConnectionNotFound) <==> !Malformed(w) && w.connection !in connections
      ensures r == Err(ConnectionInactive) <==> !Malformed(w) && w.connection in connections && !connections[w.connection].active
      ensures r == Err(ConnectionMismatch) <==>
        !Malformed(w) && w.connection in connections && connections[w.connection].active && connections[w.connection].channel != w.channel
      ensures r == Err(ExecutionFailed) <==>
        && !Malformed(w) && w.connection in connections && connections[w.connection] == Connection(w.channel, true)
        && forall c | c in w.body :: c == ' ' || 9 <= c as int <= 13
    {
      var refusal := Refused(connections, w);
      if refusal.Some? {
        return Err(refusal.value);
      }
      var summary := IngestInTransaction(w);
      r := Ok(summary);
    }
  }
}
