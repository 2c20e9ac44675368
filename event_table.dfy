/**
 * The `event_tracking` table both ingestion services append to, as an
 * in-memory table with an auto-increment identifier. Nullable text
 * columns hold `""` for NULL and nullable numeric columns `0`.
 */
module EventTable {

  /** The client-description columns (device, browser, operating system, screen). */
  datatype ClientColumns = ClientColumns(
    deviceType: string, deviceMemory: int, hardwareConcurrency: int,
    browserName: string, browserVersion: string, browserLanguage: string,
    osName: string, osVersion: string,
    screenWidth: int, screenHeight: int, colorDepth: int, pixelRatio: int)

  const NoClientColumns := ClientColumns("", 0, 0, "", "", "", "", "", 0, 0, 0, 0)

  /** `status = 1`: a valid record. */
  const StatusValid := 1

  /** One row; `createdDay` is the day of `created_times`, which the database fills in. */
  datatype EventRow = EventRow(
    id: nat,
    userId: string,
    sessionId: string,
    eventType: string,
    pagePath: string,
    pageTitle: string,
    referrer: string,
    userAgent: string,
    clientIp: string,
    client: ClientColumns,
    eventTimestamp: int,
    eventData: string,
    status: int,
    createdDay: int)

  class EventStore {
    var rows: seq<EventRow>
    /** The identifier the next insert receives. */
    var nextId: nat

    /** Identifiers are positive, below `nextId`, and increase in insertion order. */
    predicate Valid()
      reads this
    {
      nextId >= 1
      && (forall i | 0 <= i < |rows| :: 1 <= rows[i].id < nextId)
      && (forall i, j | 0 <= i < j < |rows| :: rows[i].id < rows[j].id)
    }

    constructor()
      ensures Valid() && rows == [] && nextId == 1
    {
      rows := [];
      nextId := 1;
    }

    /** `INSERT INTO event_tracking …`, answering `insertId`. */
    method Insert(row: EventRow) returns (id: nat)
      requires Valid()
      modifies this
      ensures Valid()
      ensures id == old(nextId) && nextId == id + 1
      ensures rows == old(rows) + [row.(id := id)]
      ensures forall i | 0 <= i < |old(rows)| :: old(rows)[i].id != id
    {
      id := nextId;
      rows := rows + [row.(id := id)];
      nextId := nextId + 1;
    }
  }
}
