/**
 * The write-ahead journal (lora_bridge/core/journal.py). The connection sees a working table; a
 * commit publishes everything executed so far, by any task, and a crash falls back to the table
 * last committed.
 */
module Journal {
  import opened Domain

  // One row of `outbound_journal`, without its primary key.
  datatype Row = Row(
    originTransport: string,
    originChat: string,
    originMsgId: string,
    targetNode: string,
    targetEndpoint: string,
    status: DeliveryStatus,
    enqueuedAt: real,
    txStartedAt: Option<real>,
    payload: string)

  type Table = map<string, Row>

  datatype Entry = Entry(msgKey: string, row: Row)

  datatype Stmt =
    | Insert(msgKey: string, row: Row)                    // INSERT OR REPLACE
    | SetTransmitting(msgKey: string, at: real)           // UPDATE status, tx_started_at
    | SetStatus(msgKey: string, status: DeliveryStatus)   // UPDATE status
    | Delete(msgKey: string)

  // An UPDATE of a missing key changes nothing.
  function Exec(t: Table, s: Stmt): Table {
    match s
    case Insert(k, row) => t[k := row]
    case SetTransmitting(k, at) =>
      if k in t then t[k := t[k].(status := TRANSMITTING, txStartedAt := Some(at))] else t
    case SetStatus(k, status) => if k in t then t[k := t[k].(status := status)] else t
    case Delete(k) => t - {k}
  }

  datatype Db = Db(working: Table, committed: Table) {
    function Executed(s: Stmt): Db {
      this.(working := Exec(working, s))
    }

    function Published(): Db {
      this.(committed := working)
    }

    function Crashed(): Db {
      this.(working := committed)
    }
  }

  // The orphans `recover` looks for.
  predicate Orphan(row: Row) {
    row.status == PENDING || row.status == TRANSMITTING
  }

  // SQL promises no order: any listing of the orphans, each once, with its current row.
  ghost predicate ListsOrphans(t: Table, entries: seq<Entry>) {
    && (forall i, j :: 0 <= i < j < |entries| ==> entries[i].msgKey != entries[j].msgKey)
    && (forall i :: 0 <= i < |entries| ==> entries[i].msgKey in t && t[entries[i].msgKey] == entries[i].row)
    && (forall i :: 0 <= i < |entries| ==> Orphan(entries[i].row))
    && (forall k :: k in t && Orphan(t[k]) ==> Entry(k, t[k]) in entries)
  }

  // A listing has an entry for exactly the unfinished rows, PENDING or TRANSMITTING.
  lemma UnfinishedAreListed(t: Table, entries: seq<Entry>, k: string)
    requires ListsOrphans(t, entries) && k in t
    ensures Entry(k, t[k]) in entries <==> t[k].status in {PENDING, TRANSMITTING}
  {
  }

  // ---- The mutable journal --------------------------------------------------------------------

  class SqliteJournal {
    var db: Db

    // `start` on a database file: what was committed is what the connection sees.
    constructor (stored: Table)
      ensures db == Db(stored, stored)
    {
      db := Db(stored, stored);
    }

    method Execute(s: Stmt)
      modifies this
      ensures db == old(db).Executed(s)
    {
      db := db.Executed(s);
    }

    method Commit()
      modifies this
      ensures db == old(db).Published()
    {
      db := db.Published();
    }

    // The row is always written PENDING and without a start time, whatever the entry says.
    method RecordPending(entry: Entry)
      modifies this
      ensures db ==
        old(db).Executed(Insert(entry.msgKey, entry.row.(status := PENDING, txStartedAt := None))).Published()
    {
      Execute(Insert(entry.msgKey, entry.row.(status := PENDING, txStartedAt := None)));
      Commit();
    }

    method MarkTransmitting(msgKey: string, now: real)
      modifies this
      ensures db == old(db).Executed(SetTransmitting(msgKey, now)).Published()
    {
      Execute(SetTransmitting(msgKey, now));
      Commit();
    }

    method MarkTerminal(msgKey: string, status: DeliveryStatus)
      modifies this
      ensures db == old(db).Executed(SetStatus(msgKey, status)).Published()
    {
      Execute(SetStatus(msgKey, status));
      Commit();
    }

    method Prune(msgKey: string)
      modifies this
      ensures db == old(db).Executed(Delete(msgKey)).Published()
    {
      Execute(Delete(msgKey));
      Commit();
    }

    // Every PENDING or TRANSMITTING row exactly once, nothing else, nothing changed.
    method Recover() returns (entries: seq<Entry>)
      ensures ListsOrphans(db.working, entries)
      ensures forall k :: k in db.working ==>
        (Entry(k, db.working[k]) in entries <==> db.working[k].status in {PENDING, TRANSMITTING})
    {
      entries := [];
      var keys := set k | k in db.working && Orphan(db.working[k]);
      while keys != {}
        invariant forall i, j :: 0 <= i < j < |entries| ==> entries[i].msgKey != entries[j].msgKey
        invariant forall i :: 0 <= i < |entries| ==>
          && entries[i].msgKey in db.working && db.working[entries[i].msgKey] == entries[i].row
          && Orphan(entries[i].row) && entries[i].msgKey !in keys
        invariant forall k :: k in keys ==> k in db.working && Orphan(db.working[k])
        invariant forall k :: k in db.working && Orphan(db.working[k]) ==>
          k in keys || Entry(k, db.working[k]) in entries
        decreases keys
      {
        var k :| k in keys;
        entries := entries + [Entry(k, db.working[k])];
        keys := keys - {k};
      }
      forall k | k in db.working
        ensures Entry(k, db.working[k]) in entries <==> db.working[k].status in {PENDING, TRANSMITTING}
      {
        UnfinishedAreListed(db.working, entries, k);
      }
    }
  }
}
