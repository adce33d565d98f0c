/** Ingestion over many deliveries: in any order, repeated, and rolled back and retried. */
module IngestionRuns {
  import opened Ingestion

  /**
   What the normalizer makes of a raw body.  The messages are a function of the body alone; a status
   without a timestamp of its own takes the time of receipt.
   */
  datatype Parsed = Parsed(messages: seq<Message>, statusesAt: int -> seq<DeliveryStatus>)

  type Parser = string -> Parsed

  /** One delivery attempt; one that does not commit is rolled back as a whole. */
  datatype Delivery = Delivery(connection: nat, channel: Channel, body: string, receivedAt: int, commits: bool)

  function StatusesOf(d: Delivery, parse: Parser): seq<DeliveryStatus> { parse(d.body).statusesAt(d.receivedAt) }

  function WebhookOf(d: Delivery, parse: Parser): Webhook {
    Webhook(d.connection, d.channel, d.body, parse(d.body).messages, StatusesOf(d, parse))
  }

  predicate Lands(connections: map<nat, Connection>, d: Delivery, parse: Parser) {
    d.commits && Refused(connections, WebhookOf(d, parse)).None?
  }

  function Deliver(db: Database, d: Delivery, parse: Parser): Database {
    if Lands(db.connections, d, parse) then Ingest(db, WebhookOf(d, parse)).0 else db
  }

  function DeliverAll(db: Database, ds: seq<Delivery>, parse: Parser): Database {
    if ds == [] then db else Deliver(DeliverAll(db, ds[..|ds| - 1], parse), ds[|ds| - 1], parse)
  }

  // ----- what has been delivered

  /** Some delivery that landed carries a message with key `k`. */
  ghost predicate Carried(connections: map<nat, Connection>, ds: seq<Delivery>, parse: Parser, k: MessageKey) {
    exists d :: d in ds && Lands(connections, d, parse) && Contributes(WebhookOf(d, parse), k)
  }

  /** Message `i` of delivery `d`, which landed, is what is stored under `k`. */
  ghost predicate IsStored(db: Database, d: Delivery, parse: Parser, k: MessageKey, i: nat) {
    && Lands(db.connections, d, parse) && k.0 == d.connection && k.1 == d.channel
    && i < |parse(d.body).messages| && parse(d.body).messages[i].externalId == k.2
    && (forall j | 0 <= j < i :: parse(d.body).messages[j].externalId != k.2)
    && k in db.messages && db.messages[k].message == parse(d.body).messages[i]
  }

  ghost predicate StoredWholeAt(ds: seq<Delivery>, db: Database, parse: Parser, k: MessageKey) {
    k in db.messages ==> exists d, i: nat :: d in ds && IsStored(db, d, parse, k, i)
  }

  ghost predicate LandsAs(connections: map<nat, Connection>, d: Delivery, parse: Parser, e: EventKey) {
    Lands(connections, d, parse) && EventKeyOf(WebhookOf(d, parse)) == e
  }

  ghost predicate SeenAt(ds: seq<Delivery>, db: Database, parse: Parser, e: EventKey) {
    e in db.events <==> exists d :: d in ds && LandsAs(db.connections, d, parse, e)
  }

  /** Delivery `i` is the first to land with its body on its connection. */
  ghost predicate LandsFirst(connections: map<nat, Connection>, ds: seq<Delivery>, i: nat, parse: Parser) {
    && i < |ds| && Lands(connections, ds[i], parse)
    && forall j | 0 <= j < i :: !LandsAs(connections, ds[j], parse, EventKeyOf(WebhookOf(ds[i], parse)))
  }

  ghost predicate BringsStatus(connections: map<nat, Connection>, ds: seq<Delivery>, i: nat, parse: Parser, k: StatusKey) {
    LandsFirst(connections, ds, i, parse) && k.0 == ds[i].connection && HoldsStatus(StatusesOf(ds[i], parse), k.1)
  }

  /** Some delivery, the first to land with its body, carries a status with the row `k`. */
  ghost predicate StatusBrought(connections: map<nat, Connection>, ds: seq<Delivery>, parse: Parser, k: StatusKey) {
    exists i: nat :: BringsStatus(connections, ds, i, parse, k)
  }

  ghost predicate RunInv(connections: map<nat, Connection>, ds: seq<Delivery>, db: Database, parse: Parser) {
    && db.connections == connections
    && OneJobPerMessage(db)
    && (forall k :: k in db.messages <==> Carried(connections, ds, parse, k))
    && (forall k :: StoredWholeAt(ds, db, parse, k))
    && (forall k :: k in db.statuses <==> StatusBrought(connections, ds, parse, k))
    && (forall e :: SeenAt(ds, db, parse, e))
  }

  // ----- one more delivery

  lemma CarriedSnoc(connections: map<nat, Connection>, ds: seq<Delivery>, d: Delivery, parse: Parser, k: MessageKey)
    ensures Carried(connections, ds + [d], parse, k) <==>
            Carried(connections, ds, parse, k) || (Lands(connections, d, parse) && Contributes(WebhookOf(d, parse), k))
  {
    if Carried(connections, ds, parse, k) {
      var x :| x in ds && Lands(connections, x, parse) && Contributes(WebhookOf(x, parse), k);
      assert x in ds + [d];
    }
    assert d in ds + [d];
  }

  lemma SeenSnoc(db: Database, ds: seq<Delivery>, d: Delivery, parse: Parser, e: EventKey)
    ensures (exists x :: x in ds + [d] && LandsAs(db.connections, x, parse, e)) <==>
            (exists x :: x in ds && LandsAs(db.connections, x, parse, e)) || LandsAs(db.connections, d, parse, e)
  {
    if x :| x in ds && LandsAs(db.connections, x, parse, e) { assert x in ds + [d]; }
    assert d in ds + [d];
  }

  lemma BringsSnoc(connections: map<nat, Connection>, ds: seq<Delivery>, d: Delivery, i: nat, parse: Parser, k: StatusKey)
    requires i < |ds|
    ensures BringsStatus(connections, ds + [d], i, parse, k) <==> BringsStatus(connections, ds, i, parse, k)
  {
    assert forall j | 0 <= j <= i :: (ds + [d])[j] == ds[j];
  }

  lemma LastLandsFirst(connections: map<nat, Connection>, ds: seq<Delivery>, db: Database, d: Delivery, parse: Parser)
    requires db.connections == connections && SeenAt(ds, db, parse, EventKeyOf(WebhookOf(d, parse)))
    ensures LandsFirst(connections, ds + [d], |ds|, parse) <==>
            Lands(connections, d, parse) && EventKeyOf(WebhookOf(d, parse)) !in db.events
  {
    var e := EventKeyOf(WebhookOf(d, parse));
    if x :| x in ds && LandsAs(connections, x, parse, e) {
      var j :| 0 <= j < |ds| && ds[j] == x;
      assert (ds + [d])[j] == x;
    }
    forall j | 0 <= j < |ds| && e !in db.events ensures !LandsAs(connections, (ds + [d])[j], parse, e) { assert ds[j] in ds; }
  }

  lemma DeliverKeepsStatuses(connections: map<nat, Connection>, ds: seq<Delivery>, db: Database, d: Delivery, parse: Parser, k: StatusKey)
    requires RunInv(connections, ds, db, parse)
    ensures k in Deliver(db, d, parse).statuses <==> StatusBrought(connections, ds + [d], parse, k)
  {
    var w, after := WebhookOf(d, parse), Deliver(db, d, parse);
    assert SeenAt(ds, db, parse, EventKeyOf(w));
    LastLandsFirst(connections, ds, db, d, parse);
    if Lands(connections, d, parse) && EventKeyOf(w) !in db.events {
      IngestOnce(db, w);
      assert StatusInsertedAt(db, after, w.connection, db.nextId, w.statuses, k);
    }
    if k in db.statuses {
      var i: nat :| BringsStatus(connections, ds, i, parse, k);
      BringsSnoc(connections, ds, d, i, parse, k);
    } else if k in after.statuses {
      assert BringsStatus(connections, ds + [d], |ds|, parse, k);
    }
    if i: nat :| BringsStatus(connections, ds + [d], i, parse, k) {
      if i < |ds| { BringsSnoc(connections, ds, d, i, parse, k); }
    }
  }

  lemma DeliverStoresWhole(connections: map<nat, Connection>, ds: seq<Delivery>, db: Database, d: Delivery, parse: Parser, k: MessageKey)
    requires RunInv(connections, ds, db, parse)
    ensures StoredWholeAt(ds + [d], Deliver(db, d, parse), parse, k)
  {
    var w, after := WebhookOf(d, parse), Deliver(db, d, parse);
    assert StoredWholeAt(ds, db, parse, k);
    var unseen := Lands(connections, d, parse) && EventKeyOf(w) !in db.events;
    if unseen { IngestOnce(db, w); }
    if k in db.messages {
      var x, i: nat :| x in ds && IsStored(db, x, parse, k, i);
      assert x in ds + [d] && IsStored(after, x, parse, k, i);
    } else if k in after.messages {
      var i: nat :| StoresFirst(after, w, db.nextId, k, i);
      assert Contributes(w, k);
      assert d in ds + [d] && IsStored(after, d, parse, k, i);
    }
  }

  lemma DeliverKeepsMessages(connections: map<nat, Connection>, ds: seq<Delivery>, db: Database, d: Delivery, parse: Parser, k: MessageKey)
    requires RunInv(connections, ds, db, parse)
    ensures k in Deliver(db, d, parse).messages <==> Carried(connections, ds + [d], parse, k)
  {
    var w := WebhookOf(d, parse);
    CarriedSnoc(connections, ds, d, parse, k);
    if Lands(connections, d, parse) {
      if EventKeyOf(w) !in db.events {
        IngestOnce(db, w);
      } else {
        assert SeenAt(ds, db, parse, EventKeyOf(w));
        var x :| x in ds && LandsAs(connections, x, parse, EventKeyOf(w));
        assert x.body == d.body && WebhookOf(x, parse).messages == w.messages;
        assert Contributes(WebhookOf(x, parse), k) <==> Contributes(w, k);
      }
    }
  }

  lemma DeliverKeepsInv(connections: map<nat, Connection>, ds: seq<Delivery>, db: Database, d: Delivery, parse: Parser)
    requires RunInv(connections, ds, db, parse)
    ensures RunInv(connections, ds + [d], Deliver(db, d, parse), parse)
  {
    var w, after := WebhookOf(d, parse), Deliver(db, d, parse);
    if Lands(connections, d, parse) && EventKeyOf(w) !in db.events { IngestOnce(db, w); }
    forall k ensures k in after.messages <==> Carried(connections, ds + [d], parse, k) {
      DeliverKeepsMessages(connections, ds, db, d, parse, k);
    }
    forall k ensures StoredWholeAt(ds + [d], after, parse, k) { DeliverStoresWhole(connections, ds, db, d, parse, k); }
    forall k ensures k in after.statuses <==> StatusBrought(connections, ds + [d], parse, k) {
      DeliverKeepsStatuses(connections, ds, db, d, parse, k);
    }
    forall e ensures SeenAt(ds + [d], after, parse, e) {
      assert SeenAt(ds, db, parse, e);
      SeenSnoc(db, ds, d, parse, e);
    }
  }

  lemma {:induction false} DeliverAllKeepsInv(connections: map<nat, Connection>, ds: seq<Delivery>, parse: Parser)
    ensures RunInv(connections, ds, DeliverAll(EmptyDatabase(connections), ds, parse), parse)
  {
    if ds != [] {
      var n := |ds| - 1;
      DeliverAllKeepsInv(connections, ds[..n], parse);
      DeliverKeepsInv(connections, ds[..n], DeliverAll(EmptyDatabase(connections), ds[..n], parse), ds[n], parse);
      assert ds[..n] + [ds[n]] == ds;
    }
  }

  // ----- any deliveries

  /**
   After any deliveries the stored messages are exactly those carried by a delivery that landed, each
   stored whole, once and with exactly one job; the stored statuses are exactly those carried by a
   delivery that was the first to land with its body.
   */
  lemma StoredAreTheCarried(connections: map<nat, Connection>, ds: seq<Delivery>, parse: Parser)
    ensures var db := DeliverAll(EmptyDatabase(connections), ds, parse);
            && (forall k :: k in db.messages <==> Carried(connections, ds, parse, k))
            && (forall k :: StoredWholeAt(ds, db, parse, k))
            && (forall k :: k in db.statuses <==> StatusBrought(connections, ds, parse, k))
            && OneJobPerMessage(db) && db.connections == connections
  {
    DeliverAllKeepsInv(connections, ds, parse);
  }

  /** Every status in a body has a timestamp of its own. */
  ghost predicate SelfDated(parse: Parser) {
    forall body, a, b :: parse(body).statusesAt(a) == parse(body).statusesAt(b)
  }

  lemma {:induction false} FirstToLand(connections: map<nat, Connection>, ds: seq<Delivery>, n: nat, parse: Parser, e: EventKey) returns (i: nat)
    requires n < |ds| && LandsAs(connections, ds[n], parse, e)
    ensures i <= n && LandsAs(connections, ds[i], parse, e) && LandsFirst(connections, ds, i, parse)
  {
    if j: nat :| j < n && LandsAs(connections, ds[j], parse, e) {
      i := FirstToLand(connections, ds, j, parse, e);
    } else {
      i := n;
    }
  }

  lemma SameMessages(connections: map<nat, Connection>, a: seq<Delivery>, b: seq<Delivery>, parse: Parser, k: MessageKey)
    requires (forall d: Delivery | d.commits :: d in a ==> d in b) && Carried(connections, a, parse, k)
    ensures Carried(connections, b, parse, k)
  {
  }

  /** Status rows that some delivery in `a` brings are brought in `b` as well, if the same deliveries commit there. */
  lemma SameStatuses(connections: map<nat, Connection>, a: seq<Delivery>, b: seq<Delivery>, parse: Parser, k: StatusKey)
    requires SelfDated(parse) && (forall d: Delivery | d.commits :: d in a ==> d in b) && StatusBrought(connections, a, parse, k)
    ensures StatusBrought(connections, b, parse, k)
  {
    var i: nat :| BringsStatus(connections, a, i, parse, k);
    var d := a[i];
    var n: nat :| n < |b| && b[n] == d;
    var j := FirstToLand(connections, b, n, parse, EventKeyOf(WebhookOf(d, parse)));
    assert b[j].body == d.body && StatusesOf(b[j], parse) == StatusesOf(d, parse);
    assert BringsStatus(connections, b, j, parse, k);
  }

  lemma NothingLost(connections: map<nat, Connection>, a: seq<Delivery>, b: seq<Delivery>, parse: Parser)
    requires forall d: Delivery | d.commits :: d in a ==> d in b
    ensures DeliverAll(EmptyDatabase(connections), a, parse).messages.Keys
         <= DeliverAll(EmptyDatabase(connections), b, parse).messages.Keys
    ensures SelfDated(parse) ==>
              DeliverAll(EmptyDatabase(connections), a, parse).statuses.Keys
              <= DeliverAll(EmptyDatabase(connections), b, parse).statuses.Keys
  {
    var x := DeliverAll(EmptyDatabase(connections), a, parse);
    StoredAreTheCarried(connections, a, parse);
    StoredAreTheCarried(connections, b, parse);
    forall k | k in x.messages ensures Carried(connections, b, parse, k) { SameMessages(connections, a, b, parse, k); }
    forall k | SelfDated(parse) && k in x.statuses ensures StatusBrought(connections, b, parse, k) {
      SameStatuses(connections, a, b, parse, k);
    }
  }

  /**
   Confluence: deliveries that land the same webhooks, in whatever order, however often repeated and
   with whatever failed attempts in between, end in the same set of stored messages; and in the same
   set of stored statuses, if those have timestamps of their own.
   */
  lemma DeliveryOrderIsIrrelevant(connections: map<nat, Connection>, a: seq<Delivery>, b: seq<Delivery>, parse: Parser)
    requires forall d: Delivery | d.commits :: d in a <==> d in b
    ensures DeliverAll(EmptyDatabase(connections), a, parse).messages.Keys
         == DeliverAll(EmptyDatabase(connections), b, parse).messages.Keys
    ensures SelfDated(parse) ==>
              DeliverAll(EmptyDatabase(connections), a, parse).statuses.Keys
              == DeliverAll(EmptyDatabase(connections), b, parse).statuses.Keys
  {
    NothingLost(connections, a, b, parse);
    NothingLost(connections, b, a, parse);
  }

  /** Delivering again, at any time, a body that has landed before changes nothing at all, whatever came in between. */
  lemma RedeliveryChangesNothing(connections: map<nat, Connection>, ds: seq<Delivery>, d: Delivery, again: Delivery, parse: Parser)
    requires d in ds && Lands(connections, d, parse)
    requires again.connection == d.connection && again.channel == d.channel && again.body == d.body
    ensures var db := DeliverAll(EmptyDatabase(connections), ds, parse); Deliver(db, again, parse) == db
  {
    var db := DeliverAll(EmptyDatabase(connections), ds, parse);
    DeliverAllKeepsInv(connections, ds, parse);
    assert LandsAs(connections, d, parse, EventKeyOf(WebhookOf(again, parse)));
    assert SeenAt(ds, db, parse, EventKeyOf(WebhookOf(again, parse)));
    ReplayChangesNothing(db, WebhookOf(again, parse));
  }
}
