/**
 Idempotent webhook ingestion.  One webhook is one transaction: it inserts an event keyed by the hash
 of the raw body, the new messages with one job each, and the new delivery statuses; inserts that
 conflict with an existing row do nothing.
 */
module Ingestion {
  import opened Common
  import opened Documents

  datatype Channel = Telegram | WhatsApp

  datatype MessageKind = Text | Voice | Image | Unsupported

  /** A normalized customer message. */
  datatype Message = Message(channel: Channel, externalId: string, userId: string, kind: MessageKind, text: Option<string>)

  datatype DeliveryStatus = DeliveryStatus(externalId: string, recipientId: string, status: string, occurredAt: int, errorCodes: seq<nat>)

  /** An idealised fingerprint hash: the canonical fields themselves. */
  datatype Fingerprint = Fingerprint(externalId: string, recipientId: string, status: string, occurredAt: int, errorCodes: seq<nat>)

  function FingerprintOf(s: DeliveryStatus): Fingerprint {
    Fingerprint(Strip(s.externalId), Strip(s.recipientId), Strip(s.status), s.occurredAt, s.errorCodes)
  }

  function ExternalId(m: Message): string { m.externalId }

  datatype Connection = Connection(channel: Channel, active: bool)

  type EventKey = (nat, Channel, Digest)
  type MessageKey = (nat, Channel, string)
  type StatusKey = (nat, Fingerprint)

  datatype StoredMessage = StoredMessage(id: nat, eventId: nat, message: Message)

  /** `jobs` is keyed by the message a job is for, its unique constraint; `nextId` stands for uuid4. */
  datatype Database = Database(
    connections: map<nat, Connection>,
    events: map<EventKey, nat>,
    messages: map<MessageKey, StoredMessage>,
    jobs: map<nat, nat>,
    statuses: map<StatusKey, nat>,
    nextId: nat)

  function EmptyDatabase(connections: map<nat, Connection>): Database {
    Database(connections, map[], map[], map[], map[], 0)
  }

  /** One verified webhook; a body is one character per byte. */
  datatype Webhook = Webhook(connection: nat, channel: Channel, body: string, messages: seq<Message>, statuses: seq<DeliveryStatus>)

  datatype Refusal = ValidationFailed | ConnectionNotFound | ConnectionInactive | ConnectionMismatch | ExecutionFailed

  datatype Summary = Summary(
    eventId: nat, eventCreated: bool, messagesCreated: nat, messagesDuplicate: nat,
    jobsCreated: nat, statusesCreated: nat, statusesDuplicate: nat)

  /** Only white space of byte strings, which is less than that of text: space, and the codes 9 to 13. */
  predicate BlankBody(body: string) { forall c | c in body :: c == ' ' || 9 as char <= c <= 13 as char }

  /** The checks before and at the start of the transaction, in order. */
  function Refused(connections: map<nat, Connection>, w: Webhook): Option<Refusal> {
    if w.body == [] then Some(ValidationFailed)
    else if exists m :: m in w.messages && m.channel != w.channel then Some(ValidationFailed)
    else if w.channel != WhatsApp && w.statuses != [] then Some(ValidationFailed)
    else if w.connection !in connections then Some(ConnectionNotFound)
    else if !connections[w.connection].active then Some(ConnectionInactive)
    else if connections[w.connection].channel != w.channel then Some(ConnectionMismatch)
    else if BlankBody(w.body) then Some(ExecutionFailed)
    else None
  }

  // ----- removing repetitions inside one webhook

  predicate SameKey<T, K(==)>(xs: seq<T>, key: T -> K, k: K) { exists j | 0 <= j < |xs| :: key(xs[j]) == k }

  /** The first occurrence of each key, in order. */
  function DedupBy<T, K(==)>(xs: seq<T>, key: T -> K): (unique: seq<T>)
    ensures |unique| <= |xs|
  {
    if xs == [] then [] else
      var n := |xs| - 1;
      var front := DedupBy(xs[..n], key);
      if SameKey(xs[..n], key, key(xs[n])) then front else front + [xs[n]]
  }

  /** The loop shared by _deduplicate_messages and _deduplicate_statuses. */
  method Deduplicate<T, K(==)>(xs: seq<T>, key: T -> K) returns (unique: seq<T>)
    ensures unique == DedupBy(xs, key)
  {
    var seen: set<K> := {};
    unique := [];
    for i := 0 to |xs|
      invariant unique == DedupBy(xs[..i], key)
      invariant seen == set j | 0 <= j < i :: key(xs[j])
    {
      assert xs[..i + 1][..i] == xs[..i];
      assert key(xs[i]) in seen <==> SameKey(xs[..i], key, key(xs[i]));
      if key(xs[i]) !in seen {
        seen := seen + {key(xs[i])};
        unique := unique + [xs[i]];
      }
    }
    assert xs[..|xs|] == xs;
  }

  lemma SameKeySnoc<T, K>(xs: seq<T>, x: T, key: T -> K, k: K)
    ensures SameKey(xs + [x], key, k) <==> SameKey(xs, key, k) || key(x) == k
  {
    if SameKey(xs, key, k) {
      var j :| 0 <= j < |xs| && key(xs[j]) == k;
      assert (xs + [x])[j] == xs[j];
    }
    assert (xs + [x])[|xs|] == x;
  }

  /** Deduplication keeps exactly the keys, each once. */
  lemma {:induction false} DedupKeys<T, K>(xs: seq<T>, key: T -> K, k: K)
    ensures SameKey(DedupBy(xs, key), key, k) <==> SameKey(xs, key, k)
  {
    if xs != [] {
      var n := |xs| - 1;
      DedupKeys(xs[..n], key, k);
      assert xs == xs[..n] + [xs[n]];
      SameKeySnoc(xs[..n], xs[n], key, k);
      SameKeySnoc(DedupBy(xs[..n], key), xs[n], key, k);
    }
  }

  ghost predicate KeysApart<T, K>(xs: seq<T>, key: T -> K) {
    forall i, j | 0 <= i < j < |xs| :: key(xs[i]) != key(xs[j])
  }

  lemma {:induction false} DedupApart<T, K>(xs: seq<T>, key: T -> K)
    ensures KeysApart(DedupBy(xs, key), key)
  {
    if xs != [] {
      var n := |xs| - 1;
      DedupApart(xs[..n], key);
      DedupKeys(xs[..n], key, key(xs[n]));
      assert !SameKey(xs[..n], key, key(xs[n])) ==> !SameKey(DedupBy(xs[..n], key), key, key(xs[n]));
    }
  }

  /** What is kept of a key is its first entry. */
  lemma {:induction false} DedupKeepsFirst<T, K>(xs: seq<T>, key: T -> K, u: T)
    requires u in DedupBy(xs, key)
    ensures exists i :: 0 <= i < |xs| && xs[i] == u && forall j | 0 <= j < i :: key(xs[j]) != key(u)
  {
    var n := |xs| - 1;
    if u in DedupBy(xs[..n], key) {
      DedupKeepsFirst(xs[..n], key, u);
      var i :| 0 <= i < n && xs[..n][i] == u && forall j | 0 <= j < i :: key(xs[..n][j]) != key(u);
      assert xs[i] == u && forall j | 0 <= j < i :: xs[..n][j] == xs[j];
    } else {
      assert u == xs[n] && forall j | 0 <= j < n :: xs[..n][j] == xs[j];
    }
  }

  // ----- inserting

  datatype Inserted = Inserted(db: Database, ids: seq<nat>, duplicates: nat)

  function KeyFor(connection: nat, channel: Channel, m: Message): MessageKey { (connection, channel, m.externalId) }

  /** INSERT ... ON CONFLICT (connection, channel, external id) DO NOTHING RETURNING id */
  function InsertMessage(r: Inserted, connection: nat, channel: Channel, eventId: nat, m: Message): Inserted {
    var k := KeyFor(connection, channel, m);
    if k in r.db.messages then r.(duplicates := r.duplicates + 1)
    else
      var id := r.db.nextId;
      Inserted(r.db.(messages := r.db.messages[k := StoredMessage(id, eventId, m)], nextId := id + 1),
               r.ids + [id], r.duplicates)
  }

  function InsertMessages(db: Database, connection: nat, channel: Channel, eventId: nat, ms: seq<Message>): Inserted {
    if ms == [] then Inserted(db, [], 0)
    else InsertMessage(InsertMessages(db, connection, channel, eventId, ms[..|ms| - 1]), connection, channel, eventId, ms[|ms| - 1])
  }

  /** One PENDING job for each inserted message; returns the number of jobs created. */
  function InsertJobs(db: Database, ids: seq<nat>): (Database, nat) {
    if ids == [] then (db, 0) else
      var n := |ids| - 1;
      var (before, created) := InsertJobs(db, ids[..n]);
      if ids[n] in before.jobs then (before, created)
      else (before.(jobs := before.jobs[ids[n] := before.nextId], nextId := before.nextId + 1), created + 1)
  }

  datatype StatusesStored = StatusesStored(db: Database, created: nat, duplicates: nat)

  function InsertStatus(r: StatusesStored, connection: nat, eventId: nat, s: DeliveryStatus): StatusesStored {
    var k := (connection, FingerprintOf(s));
    if k in r.db.statuses then r.(duplicates := r.duplicates + 1)
    else StatusesStored(r.db.(statuses := r.db.statuses[k := eventId]), r.created + 1, r.duplicates)
  }

  function InsertStatuses(db: Database, connection: nat, eventId: nat, ss: seq<DeliveryStatus>): StatusesStored {
    if ss == [] then StatusesStored(db, 0, 0)
    else InsertStatus(InsertStatuses(db, connection, eventId, ss[..|ss| - 1]), connection, eventId, ss[|ss| - 1])
  }

  function EventKeyOf(w: Webhook): EventKey { (w.connection, w.channel, Sha256(w.body)) }

  function WithEvent(db: Database, w: Webhook): Database {
    db.(events := db.events[EventKeyOf(w) := db.nextId], nextId := db.nextId + 1)
  }

  function SummaryOf(w: Webhook, eventId: nat, unique: nat, r: Inserted, jobs: nat, uniqueStatuses: nat, st: StatusesStored): Summary
    requires unique <= |w.messages| && uniqueStatuses <= |w.statuses|
  {
    Summary(eventId, true, |r.ids|, |w.messages| - unique + r.duplicates, jobs, st.created, |w.statuses| - uniqueStatuses + st.duplicates)
  }

  /** The inserts of a new webhook, from the database with its event on. */
  function IngestNew(db: Database, w: Webhook, eventId: nat): (Database, Summary)
  {
    var unique := DedupBy(w.messages, ExternalId);
    var r := InsertMessages(db, w.connection, w.channel, eventId, unique);
    var (db2, jobs) := InsertJobs(r.db, r.ids);
    var uniqueStatuses := DedupBy(w.statuses, FingerprintOf);
    var st := InsertStatuses(db2, w.connection, eventId, uniqueStatuses);
    (st.db, SummaryOf(w, eventId, |unique|, r, jobs, |uniqueStatuses|, st))
  }

  /** _ingest_in_transaction, for a webhook that is not refused. */
  function Ingest(db: Database, w: Webhook): (Database, Summary) {
    if EventKeyOf(w) in db.events then
      (db, Summary(db.events[EventKeyOf(w)], false, 0, |DedupBy(w.messages, ExternalId)|, 0, 0, |DedupBy(w.statuses, FingerprintOf)|))
    else IngestNew(WithEvent(db, w), w, db.nextId)
  }

  // ----- what the inserts do

  /** Exactly one job per stored message, and ids are never reused. */
  ghost predicate JobAt(db: Database, k: MessageKey) {
    k in db.messages ==> db.messages[k].id < db.nextId && db.messages[k].id in db.jobs
  }

  ghost predicate JobOwned(db: Database, id: nat) {
    id in db.jobs ==> exists k :: k in db.messages && db.messages[k].id == id
  }

  ghost predicate MessagesApart(db: Database, j: MessageKey, k: MessageKey) {
    j in db.messages && k in db.messages && db.messages[j].id == db.messages[k].id ==> j == k
  }

  ghost predicate OneJobPerMessage(db: Database) {
    && (forall k :: JobAt(db, k))
    && (forall id :: JobOwned(db, id))
    && (forall j, k :: MessagesApart(db, j, k))
  }

  /** What inserting messages changes under one key. */
  ghost predicate InsertedAt(db: Database, r: Inserted, k: MessageKey) {
    && (k in db.messages ==> k in r.db.messages && r.db.messages[k] == db.messages[k])
    && (k in r.db.messages && k !in db.messages ==>
          db.nextId <= r.db.messages[k].id < r.db.nextId && r.db.messages[k].id in r.ids)
  }

  ghost predicate IdAt(db: Database, r: Inserted, id: nat) {
    id in r.ids ==> db.nextId <= id < r.db.nextId && exists k :: k in r.db.messages && k !in db.messages && r.db.messages[k].id == id
  }

  ghost predicate IdsConsecutive(db: Database, r: Inserted) {
    && (forall i | 0 <= i < |r.ids| :: r.ids[i] == db.nextId + i)
    && |r.db.messages| == |db.messages| + |r.ids|
    && r.db == db.(messages := r.db.messages, nextId := db.nextId + |r.ids|)
  }

  lemma OneId(db: Database, r: Inserted, connection: nat, channel: Channel, eventId: nat, m: Message)
    requires IdsConsecutive(db, r)
    ensures IdsConsecutive(db, InsertMessage(r, connection, channel, eventId, m))
  {
  }

  /** The inserted ids are consecutive, and every message is counted as inserted or as duplicate. */
  lemma {:induction false} InsertedIds(db: Database, connection: nat, channel: Channel, eventId: nat, ms: seq<Message>)
    ensures var r := InsertMessages(db, connection, channel, eventId, ms);
            IdsConsecutive(db, r) && |r.ids| + r.duplicates == |ms|
  {
    if ms != [] {
      var n := |ms| - 1;
      InsertedIds(db, connection, channel, eventId, ms[..n]);
      OneId(db, InsertMessages(db, connection, channel, eventId, ms[..n]), connection, channel, eventId, ms[n]);
    }
  }

  lemma OneInserted(db: Database, r: Inserted, connection: nat, channel: Channel, eventId: nat, m: Message, k: MessageKey)
    requires InsertedAt(db, r, k) && db.nextId <= r.db.nextId
    ensures InsertedAt(db, InsertMessage(r, connection, channel, eventId, m), k)
    ensures k in InsertMessage(r, connection, channel, eventId, m).db.messages <==>
            k in r.db.messages || k == KeyFor(connection, channel, m)
  {
  }

  lemma {:induction false} MessageInserted(db: Database, connection: nat, channel: Channel, eventId: nat, ms: seq<Message>, k: MessageKey)
    ensures var r := InsertMessages(db, connection, channel, eventId, ms);
            && InsertedAt(db, r, k)
            && (k in r.db.messages <==> k in db.messages || (k.0 == connection && k.1 == channel && SameKey(ms, ExternalId, k.2)))
  {
    if ms != [] {
      var n := |ms| - 1;
      MessageInserted(db, connection, channel, eventId, ms[..n], k);
      InsertedIds(db, connection, channel, eventId, ms[..n]);
      OneInserted(db, InsertMessages(db, connection, channel, eventId, ms[..n]), connection, channel, eventId, ms[n], k);
      assert ms == ms[..n] + [ms[n]];
      SameKeySnoc(ms[..n], ms[n], ExternalId, k.2);
    }
  }

  /** Row `k` is message `j` of the list as it came. */
  ghost predicate HoldsMessage(r: Inserted, eventId: nat, ms: seq<Message>, k: MessageKey, j: nat) {
    && j < |ms| && ms[j].externalId == k.2
    && k in r.db.messages && r.db.messages[k].message == ms[j] && r.db.messages[k].eventId == eventId
  }

  lemma {:induction false} InsertedContents(db: Database, connection: nat, channel: Channel, eventId: nat, ms: seq<Message>, k: MessageKey)
    requires k !in db.messages && k in InsertMessages(db, connection, channel, eventId, ms).db.messages
    ensures exists j: nat :: HoldsMessage(InsertMessages(db, connection, channel, eventId, ms), eventId, ms, k, j)
  {
    if ms != [] {
      var n := |ms| - 1;
      var before, after := InsertMessages(db, connection, channel, eventId, ms[..n]), InsertMessages(db, connection, channel, eventId, ms);
      if k in before.db.messages {
        InsertedContents(db, connection, channel, eventId, ms[..n], k);
        var j: nat :| HoldsMessage(before, eventId, ms[..n], k, j);
        assert ms[..n][j] == ms[j];
        assert HoldsMessage(after, eventId, ms, k, j);
      } else {
        assert HoldsMessage(after, eventId, ms, k, n);
      }
    }
  }

  lemma {:induction false} InsertedOwner(db: Database, connection: nat, channel: Channel, eventId: nat, ms: seq<Message>, id: nat)
    ensures IdAt(db, InsertMessages(db, connection, channel, eventId, ms), id)
  {
    if ms != [] {
      var n := |ms| - 1;
      var before := InsertMessages(db, connection, channel, eventId, ms[..n]);
      var r := InsertMessages(db, connection, channel, eventId, ms);
      InsertedOwner(db, connection, channel, eventId, ms[..n], id);
      InsertedIds(db, connection, channel, eventId, ms[..n]);
      MessageInserted(db, connection, channel, eventId, ms[..n], KeyFor(connection, channel, ms[n]));
      if id in before.ids {
        var j :| j in before.db.messages && j !in db.messages && before.db.messages[j].id == id;
        assert j in r.db.messages && r.db.messages[j].id == id;
      }
    }
  }

  lemma {:induction false} InsertedApart(db: Database, connection: nat, channel: Channel, eventId: nat, ms: seq<Message>, j: MessageKey, k: MessageKey)
    requires OneJobPerMessage(db)
    ensures MessagesApart(InsertMessages(db, connection, channel, eventId, ms).db, j, k)
  {
    if ms == [] {
      assert MessagesApart(db, j, k);
    } else {
      var n := |ms| - 1;
      InsertedApart(db, connection, channel, eventId, ms[..n], j, k);
      MessageInserted(db, connection, channel, eventId, ms[..n], j);
      MessageInserted(db, connection, channel, eventId, ms[..n], k);
      InsertedIds(db, connection, channel, eventId, ms[..n]);
      assert JobAt(db, j) && JobAt(db, k);
    }
  }

  lemma {:induction false} JobsInserted(db: Database, ids: seq<nat>, id: nat)
    requires Distinct(ids) && forall i | i in ids :: i !in db.jobs
    ensures var (after, created) := InsertJobs(db, ids);
            && created == |ids|
            && |after.jobs| == |db.jobs| + |ids|
            && (id in after.jobs <==> id in db.jobs || id in ids)
            && after == db.(jobs := after.jobs, nextId := after.nextId) && after.nextId == db.nextId + |ids|
  {
    if ids != [] {
      var n := |ids| - 1;
      assert ids == ids[..n] + [ids[n]] && ids[n] !in ids[..n];
      JobsInserted(db, ids[..n], id);
      JobsInserted(db, ids[..n], ids[n]);
    }
  }

  lemma {:induction false} StatusesInserted(db: Database, connection: nat, eventId: nat, ss: seq<DeliveryStatus>)
    ensures var StatusesStored(after, created, duplicates) := InsertStatuses(db, connection, eventId, ss);
            created + duplicates == |ss| && after == db.(statuses := after.statuses)
            && |after.statuses| == |db.statuses| + created
  {
    if ss != [] {
      StatusesInserted(db, connection, eventId, ss[..|ss| - 1]);
    }
  }

  /** The row of a status, by its stripped texts, its time and its codes. */
  ghost predicate IsStatusRow(s: DeliveryStatus, f: Fingerprint) {
    && f.externalId == Strip(s.externalId) && f.recipientId == Strip(s.recipientId) && f.status == Strip(s.status)
    && f.occurredAt == s.occurredAt && f.errorCodes == s.errorCodes
  }

  ghost predicate HoldsStatus(ss: seq<DeliveryStatus>, f: Fingerprint) { exists j :: 0 <= j < |ss| && IsStatusRow(ss[j], f) }

  /** What inserting statuses changes under one key. */
  ghost predicate StatusInsertedAt(db: Database, after: Database, connection: nat, eventId: nat, ss: seq<DeliveryStatus>, k: StatusKey) {
    && (k in after.statuses <==> k in db.statuses || (k.0 == connection && HoldsStatus(ss, k.1)))
    && (k in db.statuses ==> after.statuses[k] == db.statuses[k])
    && (k in after.statuses && k !in db.statuses ==> after.statuses[k] == eventId)
  }

  lemma HoldsStatusSnoc(ss: seq<DeliveryStatus>, s: DeliveryStatus, f: Fingerprint)
    ensures HoldsStatus(ss + [s], f) <==> HoldsStatus(ss, f) || IsStatusRow(s, f)
  {
    if HoldsStatus(ss, f) {
      var j :| 0 <= j < |ss| && IsStatusRow(ss[j], f);
      assert (ss + [s])[j] == ss[j];
    }
    assert (ss + [s])[|ss|] == s;
  }

  lemma {:induction false} StatusInserted(db: Database, connection: nat, eventId: nat, ss: seq<DeliveryStatus>, k: StatusKey)
    ensures StatusInsertedAt(db, InsertStatuses(db, connection, eventId, ss).db, connection, eventId, ss, k)
  {
    if ss != [] {
      var n := |ss| - 1;
      StatusInserted(db, connection, eventId, ss[..n], k);
      assert ss == ss[..n] + [ss[n]];
      HoldsStatusSnoc(ss[..n], ss[n], k.1);
    }
  }

  lemma DedupHoldsStatuses(ss: seq<DeliveryStatus>, f: Fingerprint)
    ensures HoldsStatus(DedupBy(ss, FingerprintOf), f) <==> HoldsStatus(ss, f)
  {
    DedupKeys(ss, FingerprintOf, f);
    HoldsIsKey(ss, f);
    HoldsIsKey(DedupBy(ss, FingerprintOf), f);
  }

  lemma HoldsIsKey(ss: seq<DeliveryStatus>, f: Fingerprint)
    ensures HoldsStatus(ss, f) <==> SameKey(ss, FingerprintOf, f)
  {
    if j :| 0 <= j < |ss| && IsStatusRow(ss[j], f) { assert FingerprintOf(ss[j]) == f; }
    if j :| 0 <= j < |ss| && FingerprintOf(ss[j]) == f { assert IsStatusRow(ss[j], f); }
  }

  // ----- one webhook

  /** A webhook contributes the keys of its messages. */
  ghost predicate Contributes(w: Webhook, k: MessageKey) {
    k.0 == w.connection && k.1 == w.channel && SameKey(w.messages, ExternalId, k.2)
  }

  lemma JobsMatchIds(db: Database, r: Inserted, id: nat)
    requires OneJobPerMessage(db) && r.db.jobs == db.jobs && (forall x :: IdAt(db, r, x))
    ensures id in r.ids ==> id !in db.jobs
  {
    assert IdAt(db, r, id) && JobOwned(db, id);
    assert forall k | k in db.messages && db.messages[k].id == id :: JobAt(db, k);
  }

  /** Message `i` of the webhook, the first with its id, is stored whole under key `k`. */
  ghost predicate StoresFirst(after: Database, w: Webhook, eventId: nat, k: MessageKey, i: nat) {
    && i < |w.messages| && w.messages[i].externalId == k.2 && (forall j | 0 <= j < i :: w.messages[j].externalId != k.2)
    && k in after.messages && after.messages[k].message == w.messages[i] && after.messages[k].eventId == eventId
  }

  lemma NewMessagesAreStoredWhole(db: Database, w: Webhook, k: MessageKey)
    requires EventKeyOf(w) !in db.events && k !in db.messages && k in Ingest(db, w).0.messages
    ensures exists i: nat :: StoresFirst(Ingest(db, w).0, w, db.nextId, k, i)
  {
    var db0, unique := WithEvent(db, w), DedupBy(w.messages, ExternalId);
    var r := InsertMessages(db0, w.connection, w.channel, db.nextId, unique);
    IngestKeepsInserted(db, w);
    InsertedContents(db0, w.connection, w.channel, db.nextId, unique, k);
    var j: nat :| HoldsMessage(r, db.nextId, unique, k, j);
    DedupKeepsFirst(w.messages, ExternalId, unique[j]);
    var i :| 0 <= i < |w.messages| && w.messages[i] == unique[j] && forall h | 0 <= h < i :: ExternalId(w.messages[h]) != ExternalId(unique[j]);
    assert forall h | 0 <= h < i :: w.messages[h].externalId == ExternalId(w.messages[h]);
    assert StoresFirst(Ingest(db, w).0, w, db.nextId, k, i);
  }

  /** After the messages are in, the later stages leave them alone; the statuses are those of the last stage. */
  lemma IngestKeepsInserted(db: Database, w: Webhook)
    requires EventKeyOf(w) !in db.events
    ensures var r := InsertMessages(WithEvent(db, w), w.connection, w.channel, db.nextId, DedupBy(w.messages, ExternalId));
            && Ingest(db, w).0.messages == r.db.messages
            && Ingest(db, w).0 == InsertStatuses(InsertJobs(r.db, r.ids).0, w.connection, db.nextId, DedupBy(w.statuses, FingerprintOf)).db
            && InsertJobs(r.db, r.ids).0.statuses == db.statuses
  {
    var r := InsertMessages(WithEvent(db, w), w.connection, w.channel, db.nextId, DedupBy(w.messages, ExternalId));
    MessagesOnly(WithEvent(db, w), w.connection, w.channel, db.nextId, DedupBy(w.messages, ExternalId));
    JobsOnly(r.db, r.ids);
    StatusesInserted(InsertJobs(r.db, r.ids).0, w.connection, db.nextId, DedupBy(w.statuses, FingerprintOf));
  }

  lemma {:induction false} MessagesOnly(db: Database, connection: nat, channel: Channel, eventId: nat, ms: seq<Message>)
    ensures InsertMessages(db, connection, channel, eventId, ms).db.statuses == db.statuses
  {
    if ms != [] { MessagesOnly(db, connection, channel, eventId, ms[..|ms| - 1]); }
  }

  lemma {:induction false} JobsOnly(db: Database, ids: seq<nat>)
    ensures InsertJobs(db, ids).0.messages == db.messages && InsertJobs(db, ids).0.statuses == db.statuses
  {
    if ids != [] { JobsOnly(db, ids[..|ids| - 1]); }
  }

  /**
   One new webhook: its messages are all there afterwards and no others, a new one as the webhook first
   carries it, and so are its statuses; each message still has exactly one job, and every supplied
   message and status is counted once, as created or as duplicate.
   */
  lemma IngestOnce(db: Database, w: Webhook)
    requires OneJobPerMessage(db) && EventKeyOf(w) !in db.events
    ensures var (after, s) := Ingest(db, w);
            && OneJobPerMessage(after)
            && (forall k :: k in after.messages <==> k in db.messages || Contributes(w, k))
            && (forall k | k in db.messages :: after.messages[k] == db.messages[k])
            && (forall k | k in after.messages && k !in db.messages :: exists i: nat :: StoresFirst(after, w, s.eventId, k, i))
            && (forall k :: StatusInsertedAt(db, after, w.connection, s.eventId, w.statuses, k))
            && s.eventCreated && s.eventId == db.nextId
            && after.events == db.events[EventKeyOf(w) := s.eventId]
            && after.connections == db.connections
            && s.messagesCreated + s.messagesDuplicate == |w.messages|
            && s.jobsCreated == s.messagesCreated
            && s.statusesCreated + s.statusesDuplicate == |w.statuses|
            && s.messagesCreated == |after.messages| - |db.messages|
            && s.jobsCreated == |after.jobs| - |db.jobs|
            && s.statusesCreated == |after.statuses| - |db.statuses|
  {
    var db0 := WithEvent(db, w);
    NewEventKeepsJobs(db, db0);
    IngestStages(db, w, db0);
    var after := Ingest(db, w).0;
    forall k ensures k in after.messages <==> k in db.messages || Contributes(w, k) {
      DedupKeys(w.messages, ExternalId, k.2);
    }
    forall k | k in after.messages && k !in db.messages ensures exists i: nat :: StoresFirst(after, w, db.nextId, k, i) {
      NewMessagesAreStoredWhole(db, w, k);
    }
    forall k ensures StatusInsertedAt(db, after, w.connection, db.nextId, w.statuses, k) { NewStatusesAreStored(db, w, k); }
  }

  lemma NewStatusesAreStored(db: Database, w: Webhook, k: StatusKey)
    requires EventKeyOf(w) !in db.events
    ensures StatusInsertedAt(db, Ingest(db, w).0, w.connection, db.nextId, w.statuses, k)
  {
    var r := InsertMessages(WithEvent(db, w), w.connection, w.channel, db.nextId, DedupBy(w.messages, ExternalId));
    IngestKeepsInserted(db, w);
    StatusInserted(InsertJobs(r.db, r.ids).0, w.connection, db.nextId, DedupBy(w.statuses, FingerprintOf), k);
    DedupHoldsStatuses(w.statuses, k.1);
  }

  /** The stages of one ingestion, from the database with the new event on. */
  lemma IngestStages(db: Database, w: Webhook, db0: Database)
    requires OneJobPerMessage(db0) && EventKeyOf(w) !in db.events && db0 == WithEvent(db, w)
    ensures var (after, s) := Ingest(db, w);
            && OneJobPerMessage(after)
            && (forall k :: k in after.messages <==>
                  k in db.messages || (k.0 == w.connection && k.1 == w.channel && SameKey(DedupBy(w.messages, ExternalId), ExternalId, k.2)))
            && (forall k | k in db.messages :: after.messages[k] == db.messages[k])
            && after.events == db0.events && after.connections == db0.connections && s.eventId == db.nextId
            && s.messagesCreated + s.messagesDuplicate == |w.messages|
            && s.jobsCreated == s.messagesCreated
            && s.statusesCreated + s.statusesDuplicate == |w.statuses|
            && s.messagesCreated == |after.messages| - |db.messages|
            && s.jobsCreated == |after.jobs| - |db.jobs|
            && s.statusesCreated == |after.statuses| - |db.statuses|
  {
    var r := InsertMessages(db0, w.connection, w.channel, db.nextId, DedupBy(w.messages, ExternalId));
    IngestedMessages(db0, w.connection, w.channel, db.nextId, DedupBy(w.messages, ExternalId));
    var db2 := InsertJobs(r.db, r.ids).0;
    JobsFollowMessages(db0, r, db2);
    StatusesInserted(db2, w.connection, db.nextId, DedupBy(w.statuses, FingerprintOf));
    StatusesKeepJobs(db2, Ingest(db, w).0);
    forall k | k in db.messages ensures k in r.db.messages && r.db.messages[k] == db.messages[k] { assert InsertedAt(db0, r, k); }
  }

  lemma NewEventKeepsJobs(db: Database, db0: Database)
    requires OneJobPerMessage(db) && db0 == db.(events := db0.events, nextId := db.nextId + 1)
    ensures OneJobPerMessage(db0)
  {
    forall k ensures JobAt(db0, k) { assert JobAt(db, k); }
    forall id ensures JobOwned(db0, id) { assert JobOwned(db, id); }
    forall j, k ensures MessagesApart(db0, j, k) { assert MessagesApart(db, j, k); }
  }

  lemma StatusesKeepJobs(db: Database, after: Database)
    requires OneJobPerMessage(db) && after == db.(statuses := after.statuses)
    ensures OneJobPerMessage(after)
  {
    forall k ensures JobAt(after, k) { assert JobAt(db, k); }
    forall id ensures JobOwned(after, id) { assert JobOwned(db, id); }
    forall j, k ensures MessagesApart(after, j, k) { assert MessagesApart(db, j, k); }
  }

  /** Inserting messages, as facts about the result. */
  ghost predicate MessagesAdded(db: Database, r: Inserted) {
    && (forall k :: InsertedAt(db, r, k))
    && (forall id :: IdAt(db, r, id))
    && (forall j, k :: MessagesApart(r.db, j, k))
    && Distinct(r.ids)
    && r.db == db.(messages := r.db.messages, nextId := r.db.nextId)
    && r.db.nextId >= db.nextId
    && |r.db.messages| == |db.messages| + |r.ids|
  }

  lemma IngestedMessages(db: Database, connection: nat, channel: Channel, eventId: nat, ms: seq<Message>)
    requires OneJobPerMessage(db)
    ensures var r := InsertMessages(db, connection, channel, eventId, ms);
            && MessagesAdded(db, r)
            && (forall k :: k in r.db.messages <==> k in db.messages || (k.0 == connection && k.1 == channel && SameKey(ms, ExternalId, k.2)))
            && |r.ids| + r.duplicates == |ms|
  {
    var r := InsertMessages(db, connection, channel, eventId, ms);
    forall k
      ensures InsertedAt(db, r, k)
      ensures k in r.db.messages <==> k in db.messages || (k.0 == connection && k.1 == channel && SameKey(ms, ExternalId, k.2))
    {
      MessageInserted(db, connection, channel, eventId, ms, k);
    }
    forall id: nat ensures IdAt(db, r, id) { InsertedOwner(db, connection, channel, eventId, ms, id); }
    forall j, k ensures MessagesApart(r.db, j, k) { InsertedApart(db, connection, channel, eventId, ms, j, k); }
    InsertedIds(db, connection, channel, eventId, ms);
  }

  lemma JobsFollowMessages(db: Database, r: Inserted, after: Database)
    requires OneJobPerMessage(db) && MessagesAdded(db, r) && after == InsertJobs(r.db, r.ids).0
    ensures OneJobPerMessage(after) && |after.jobs| == |db.jobs| + |r.ids|
    ensures InsertJobs(r.db, r.ids).1 == |r.ids| && after == r.db.(jobs := after.jobs, nextId := after.nextId)
  {
    forall id | id in r.ids ensures id !in r.db.jobs { JobsMatchIds(db, r, id); }
    JobsInserted(r.db, r.ids, 0);
    forall k ensures JobAt(after, k) {
      assert InsertedAt(db, r, k) && JobAt(db, k);
      if k in after.messages { JobsInserted(r.db, r.ids, after.messages[k].id); }
    }
    forall id: nat ensures JobOwned(after, id) {
      JobsInserted(r.db, r.ids, id);
      assert IdAt(db, r, id) && JobOwned(db, id);
      if id in db.jobs {
        var k :| k in db.messages && db.messages[k].id == id;
        assert InsertedAt(db, r, k);
      }
    }
    forall j, k ensures MessagesApart(after, j, k) { assert MessagesApart(r.db, j, k); }
  }

  // ----- replayed webhooks

  function KeySet<T, K(==)>(xs: seq<T>, key: T -> K): set<K> { set j | 0 <= j < |xs| :: key(xs[j]) }

  /** Deduplication keeps as many entries as there are distinct keys. */
  lemma {:induction false} DedupCountsKeys<T, K>(xs: seq<T>, key: T -> K)
    ensures |DedupBy(xs, key)| == |KeySet(xs, key)|
  {
    if xs != [] {
      var n := |xs| - 1;
      DedupCountsKeys(xs[..n], key);
      KeySetSnoc(xs, key);
    }
  }

  lemma KeySetSnoc<T, K>(xs: seq<T>, key: T -> K)
    requires xs != []
    ensures var n := |xs| - 1;
            KeySet(xs, key) == KeySet(xs[..n], key) + {key(xs[n])}
            && (key(xs[n]) in KeySet(xs[..n], key) <==> SameKey(xs[..n], key, key(xs[n])))
  {
    var n := |xs| - 1;
    forall k ensures k in KeySet(xs, key) <==> k in KeySet(xs[..n], key) || k == key(xs[n]) {
      if k in KeySet(xs, key) {
        var j :| 0 <= j < |xs| && key(xs[j]) == k;
        if j < n { assert xs[..n][j] == xs[j]; }
      }
      if k in KeySet(xs[..n], key) {
        var j :| 0 <= j < n && key(xs[..n][j]) == k;
        assert xs[j] == xs[..n][j];
      }
    }
  }

  /** Deduplication keeps everything exactly when no key repeats. */
  lemma {:induction false} DedupKeepsAllExactlyWhen<T, K>(xs: seq<T>, key: T -> K)
    ensures |DedupBy(xs, key)| == |xs| <==> KeysApart(xs, key)
  {
    if xs != [] {
      var n := |xs| - 1;
      DedupKeepsAllExactlyWhen(xs[..n], key);
      KeysApartSnoc(xs, key);
    }
  }

  lemma KeysApartSnoc<T, K>(xs: seq<T>, key: T -> K)
    requires xs != []
    ensures var n := |xs| - 1; KeysApart(xs, key) <==> KeysApart(xs[..n], key) && !SameKey(xs[..n], key, key(xs[n]))
  {
    var n := |xs| - 1;
    if KeysApart(xs, key) {
      forall j | 0 <= j < n ensures key(xs[..n][j]) != key(xs[n]) { assert xs[..n][j] == xs[j]; }
    }
    if KeysApart(xs[..n], key) && !SameKey(xs[..n], key, key(xs[n])) {
      forall i, j | 0 <= i < j < |xs| ensures key(xs[i]) != key(xs[j]) { assert xs[..n][i] == xs[i]; }
    }
  }

  /**
   Replaying a body that was seen on the connection changes nothing.  Its duplicate counters are the
   numbers of distinct identities supplied; so created and duplicate add up to the number supplied,
   as they do for a new event, exactly when the webhook repeats no identity.
   */
  lemma ReplayChangesNothing(db: Database, w: Webhook)
    requires EventKeyOf(w) in db.events
    ensures Ingest(db, w).0 == db
    ensures var s := Ingest(db, w).1;
            && !s.eventCreated && s.messagesCreated == s.jobsCreated == s.statusesCreated == 0
            && s.eventId == db.events[EventKeyOf(w)]
            && s.messagesDuplicate == |KeySet(w.messages, ExternalId)|
            && s.statusesDuplicate == |KeySet(w.statuses, FingerprintOf)|
            && (s.messagesCreated + s.messagesDuplicate == |w.messages| <==> KeysApart(w.messages, ExternalId))
            && (s.statusesCreated + s.statusesDuplicate == |w.statuses| <==> KeysApart(w.statuses, FingerprintOf))
  {
    DedupCountsKeys(w.messages, ExternalId);
    DedupCountsKeys(w.statuses, FingerprintOf);
    DedupKeepsAllExactlyWhen(w.messages, ExternalId);
    DedupKeepsAllExactlyWhen(w.statuses, FingerprintOf);
  }

  const TWICE := Message(WhatsApp, "wamid.1", "77010000000", Text, Some("1"))

  /** For example: a webhook with one message twice counts two messages when new, and one when replayed. */
  lemma ReplayedRepetitionIsCountedOnce(connections: map<nat, Connection>)
    ensures var w := Webhook(0, WhatsApp, "{}", [TWICE, TWICE], []);
            var (db, first) := Ingest(EmptyDatabase(connections), w);
            var (_, second) := Ingest(db, w);
            && first.eventCreated && first.messagesCreated + first.messagesDuplicate == 2
            && !second.eventCreated && second.messagesCreated + second.messagesDuplicate == 1
  {
    var w := Webhook(0, WhatsApp, "{}", [TWICE, TWICE], []);
    var db0 := EmptyDatabase(connections);
    forall k ensures JobAt(db0, k) {}
    forall id ensures JobOwned(db0, id) {}
    forall j, k ensures MessagesApart(db0, j, k) {}
    IngestOnce(db0, w);
    ReplayChangesNothing(Ingest(db0, w).0, w);
    assert KeySet(w.messages, ExternalId) == {TWICE.externalId} by {
      assert w.messages[0] == TWICE && w.messages[1] == TWICE;
    }
  }
}
