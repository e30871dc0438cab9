/** The session store behind /api/sessions (app/api/sessions/route.ts): the file-backed
    list that POST appends to (deduplicating by `clientSessionId`) and GET pages through
    newest first, and the database path, where a repeated `clientSessionId` updates the
    existing row instead of adding one. */
module SessionStore {
  import opened Strings

  const MaxPageSize: int := 100
  const DefaultPage: int := 1
  const DefaultPageSize: int := 10

  /** The JSON body of a POST. Absent, null and empty strings are all "". `id` is kept
      apart because a body that carries one overrides the generated id. */
  datatype Body = Body(id: Option<string>, clientSessionId: string, title: string, transcript: string,
                       summary: string, keywords: seq<string>)

  /** A stored record: `{ id, ...body }`. */
  datatype Record = Record(id: string, body: Body)

  /** The answer to a POST: its status and the session it returns. */
  datatype Posted = Posted(status: nat, session: Record)

  // ---------------------------------------------------------------- the file store

  /** `sessions.find(s => s.clientSessionId && String(s.clientSessionId) === cid)`: the
      index of the first record saved with that id. */
  function FirstWithClient(records: seq<Record>, cid: string): (k: Option<nat>)
    ensures k.Some? ==> k.value < |records| && records[k.value].body.clientSessionId == cid
    ensures k.Some? ==> forall j :: 0 <= j < k.value ==> records[j].body.clientSessionId != cid
    ensures k.None? && cid != "" ==> forall j :: 0 <= j < |records| ==> records[j].body.clientSessionId != cid
    ensures cid == "" ==> k.None?
  {
    if cid == "" || records == [] then None
    else if records[0].body.clientSessionId == cid then Some(0)
    else match FirstWithClient(records[1..], cid)
      case Some(k) => Some(k + 1)
      case None => None
  }

  /** The record a POST creates: the body under `s_<time>`, unless the body has an id. */
  function NewRecord(body: Body, now: nat): (r: Record)
    ensures r.body == body
    ensures body.id.None? ==> r.id == "s_" + NatToString(now)
  {
    Record(if body.id.Some? then body.id.value else "s_" + NatToString(now), body)
  }

  /** The records after a POST whose file read and write both succeed. */
  function AfterPost(records: seq<Record>, body: Body, now: nat): seq<Record>
  {
    if FirstWithClient(records, body.clientSessionId).Some? then records else records + [NewRecord(body, now)]
  }

  /** `readSessions()`: the stored list, or `[]` when the file cannot be read or parsed. */
  function Loaded(records: seq<Record>, readOk: bool): (r: seq<Record>)
    ensures readOk ==> r == records
    ensures !readOk ==> r == []
  {
    if readOk then records else []
  }

  /** The file after a POST: the list as read, with the new record appended, is written
      only when no record matched; a failed write (swallowed by `writeSessions`) leaves
      the file as it was. */
  function StoredAfterPost(records: seq<Record>, body: Body, now: nat, readOk: bool, writeOk: bool): seq<Record>
  {
    var loaded := Loaded(records, readOk);
    if FirstWithClient(loaded, body.clientSessionId).Some? || !writeOk then records
    else loaded + [NewRecord(body, now)]
  }

  class FileStore {
    var records: seq<Record>

    constructor()
      ensures records == []
    {
      records := [];
    }

    /** POST: the list is read (`[]` when `readOk` fails); a body whose `clientSessionId`
        is in that list gets its record back and changes nothing; any other body is
        answered 201 as a new record, which reaches the file only when `writeOk`. */
    method Post(body: Body, now: nat, readOk: bool, writeOk: bool) returns (answer: Posted)
      modifies this
      ensures records == StoredAfterPost(old(records), body, now, readOk, writeOk)
      ensures var loaded := Loaded(old(records), readOk);
        var k := FirstWithClient(loaded, body.clientSessionId);
        && (k.Some? ==> answer == Posted(200, loaded[k.value]))
        && (k.None? ==> answer == Posted(201, NewRecord(body, now)))
      ensures readOk && writeOk ==> records == AfterPost(old(records), body, now)
    {
      var sessions := if readOk then records else [];
      var existing := FirstWithClient(sessions, body.clientSessionId);
      if existing.Some? {
        return Posted(200, sessions[existing.value]);
      }
      var session := NewRecord(body, now);
      if writeOk {
        records := sessions + [session];
      }
      answer := Posted(201, session);
    }
  }

  /** A failed write still answers 201 but stores nothing, and an unreadable file is
      replaced by the new record alone. */
  lemma FailedFileAccess(records: seq<Record>, body: Body, now: nat)
    ensures StoredAfterPost(records, body, now, true, false) == records
    ensures StoredAfterPost(records, body, now, false, true) == [NewRecord(body, now)]
    ensures StoredAfterPost(records, body, now, true, true) == AfterPost(records, body, now)
  {
  }

  /** A POST keeps every earlier record in place and adds at most one at the end. */
  lemma PostAppendsAtMostOne(records: seq<Record>, body: Body, now: nat)
    ensures var after := AfterPost(records, body, now);
      && records <= after && |after| <= |records| + 1
      && (|after| == |records| + 1 <==> FirstWithClient(records, body.clientSessionId).None?)
  {
  }

  /** A body without a `clientSessionId` is always appended. */
  lemma NoClientIdAppends(records: seq<Record>, body: Body, now: nat)
    requires body.clientSessionId == ""
    ensures AfterPost(records, body, now) == records + [NewRecord(body, now)]
  {
  }

  /** Posting the same body with a `clientSessionId` twice stores it once. */
  lemma RepeatedPostIsDeduplicated(records: seq<Record>, body: Body, t1: nat, t2: nat)
    requires body.clientSessionId != ""
    ensures AfterPost(AfterPost(records, body, t1), body, t2) == AfterPost(records, body, t1)
  {
    var once := AfterPost(records, body, t1);
    if FirstWithClient(records, body.clientSessionId).None? {
      NewIsFound(records, NewRecord(body, t1), body.clientSessionId);
    } else {
      assert once == records;
    }
  }

  /** The recorder first posts a preliminary record and the server later posts the final
      one under the same `clientSessionId`: the file store keeps the preliminary record and
      drops the final transcript and summary. */
  lemma FinalSaveKeepsPreliminary(records: seq<Record>, preliminary: Body, final: Body, t1: nat, t2: nat)
    requires preliminary.clientSessionId != "" && final.clientSessionId == preliminary.clientSessionId
    ensures AfterPost(AfterPost(records, preliminary, t1), final, t2) == AfterPost(records, preliminary, t1)
  {
    if FirstWithClient(records, preliminary.clientSessionId).None? {
      NewIsFound(records, NewRecord(preliminary, t1), preliminary.clientSessionId);
    }
  }

  lemma {:induction false} NewIsFound(records: seq<Record>, r: Record, cid: string)
    requires cid != "" && r.body.clientSessionId == cid
    ensures FirstWithClient(records + [r], cid).Some?
    decreases |records|
  {
    if records != [] && records[0].body.clientSessionId != cid {
      assert (records + [r])[1..] == records[1..] + [r];
      NewIsFound(records[1..], r, cid);
    } else if records == [] {
      assert records + [r] == [r];
    }
  }

  // ---------------------------------------------------------------- GET

  /** A query parameter: absent (or empty), a number, or something `Number` reads as NaN.
      Only whole numbers are modelled. */
  datatype Param = Absent | Number(n: int) | NotANumber

  /** `Math.max(1, Number(page || '1'))`: `None` stands for NaN. */
  function ClampPage(p: Param): (r: Option<int>)
    ensures r.Some? ==> r.value >= 1
    ensures p.Absent? ==> r == Some(DefaultPage)
    ensures p.Number? ==> r == Some(Max(1, p.n))
    ensures p.NotANumber? <==> r.None?
  {
    match p
    case Absent => Some(DefaultPage)
    case Number(n) => Some(Max(1, n))
    case NotANumber => None
  }

  /** `Math.max(1, Math.min(100, Number(pageSize || '10')))`. */
  function ClampPageSize(p: Param): (r: Option<int>)
    ensures r.Some? ==> 1 <= r.value <= MaxPageSize
    ensures p.Absent? ==> r == Some(DefaultPageSize)
    ensures p.Number? && 1 <= p.n <= MaxPageSize ==> r == Some(p.n)
    ensures p.NotANumber? <==> r.None?
  {
    match p
    case Absent => Some(DefaultPageSize)
    case Number(n) => Some(Max(1, Min(MaxPageSize, n)))
    case NotANumber => None
  }

  function Reverse<T>(s: seq<T>): (r: seq<T>)
    ensures |r| == |s| && forall i :: 0 <= i < |s| ==> r[i] == s[|s| - 1 - i]
  {
    if s == [] then [] else Reverse(s[1..]) + [s[0]]
  }

  /** GET on the file store: the page of the records newest first, and their number. A
      NaN parameter makes `slice` read its bounds as 0, so the page is empty. */
  function GetPage(records: seq<Record>, page: Param, pageSize: Param): (r: (seq<Record>, nat))
    ensures r.1 == |records|
    ensures ClampPageSize(pageSize).Some? ==> |r.0| <= ClampPageSize(pageSize).value
    ensures ClampPage(page).None? || ClampPageSize(pageSize).None? ==> r.0 == []
  {
    match (ClampPage(page), ClampPageSize(pageSize))
    case (Some(p), Some(size)) =>
      var start := (p - 1) * size;
      (Slice(Reverse(records), start, start + size), |records|)
    case _ => ([], |records|)
  }

  /** Page p of size `size` starts `(p - 1) * size` records from the newest. */
  lemma GetPageStart(records: seq<Record>, p: int, size: int)
    requires 1 <= p && 1 <= size <= MaxPageSize
    ensures (p - 1) * size >= 0
    ensures GetPage(records, Number(p), Number(size)).0
         == Slice(Reverse(records), (p - 1) * size, (p - 1) * size + size)
  {
    assert ClampPage(Number(p)) == Some(p);
    assert ClampPageSize(Number(size)) == Some(size);
  }

  /** The i-th item of a page starting at `start` is the record `start + i` places from
      the newest; a page that starts past the end is empty, and one that ends before it
      is full. */
  lemma PageItems(records: seq<Record>, start: nat, size: nat)
    ensures var items := Slice(Reverse(records), start, start + size);
      && |items| <= size
      && (forall i :: 0 <= i < |items| ==> items[i] == records[|records| - 1 - (start + i)])
      && (start >= |records| ==> items == [])
      && (start + size <= |records| ==> |items| == size)
  {
  }

  /** The listing pages fetch `page=1&pageSize=1000` once; the size is clamped to 100, so
      they see the newest 100 records (all of them when there are fewer). */
  lemma ListingFetch(records: seq<Record>)
    ensures GetPage(records, Number(1), Number(1000)).0 == Take(Reverse(records), MaxPageSize as nat)
    ensures |GetPage(records, Number(1), Number(1000)).0| == Min(MaxPageSize, |records|)
  {
    assert ClampPage(Number(1)) == Some(1);
    assert ClampPageSize(Number(1000)) == Some(MaxPageSize);
    var rev := Reverse(records);
    assert GetPage(records, Number(1), Number(1000)).0 == Slice(rev, 0, MaxPageSize);
  }

  /** A record just appended is the first item of the default page. */
  lemma NewestFirst(records: seq<Record>, r: Record)
    ensures GetPage(records + [r], Absent, Absent).0 != [] && GetPage(records + [r], Absent, Absent).0[0] == r
  {
  }

  // ---------------------------------------------------------------- the database path

  /** A stored action item: `type` defaults to TASK, the other fields to empty. */
  datatype DbItem = DbItem(kind: string, description: string, assignee: Option<string>, deadline: Option<string>)

  /** A row of the session table with its action items. */
  datatype DbRow = DbRow(id: nat, clientSessionId: string, title: string, transcript: string,
                         summary: string, completed: bool, items: seq<DbItem>)

  /** An action item as the client sends it ("" for missing fields). */
  datatype ItemIn = ItemIn(kind: string, description: string, assignee: string, deadline: string)

  function ToDbItem(item: ItemIn): (d: DbItem)
    ensures d.kind == (if item.kind == "" then "TASK" else item.kind)
    ensures d.assignee.None? <==> item.assignee == ""
    ensures d.deadline.None? <==> item.deadline == ""
  {
    DbItem(if item.kind == "" then "TASK" else item.kind, item.description,
           if item.assignee == "" then None else Some(item.assignee),
           if item.deadline == "" then None else Some(item.deadline))
  }

  function ToDbItems(items: seq<ItemIn>): (r: seq<DbItem>)
    ensures |r| == |items| && forall i :: 0 <= i < |items| ==> r[i] == ToDbItem(items[i])
  {
    seq(|items|, i requires 0 <= i < |items| => ToDbItem(items[i]))
  }

  /** `findFirst({ where: { clientSessionId } })`: the index of the first such row. */
  function RowWithClient(rows: seq<DbRow>, cid: string): (k: Option<nat>)
    ensures k.Some? ==> k.value < |rows| && rows[k.value].clientSessionId == cid
    ensures k.None? ==> forall j :: 0 <= j < |rows| ==> rows[j].clientSessionId != cid
  {
    if rows == [] then None
    else if rows[0].clientSessionId == cid then Some(0)
    else match RowWithClient(rows[1..], cid)
      case Some(k) => Some(k + 1)
      case None => None
  }

  const DefaultTitle: string := "Untitled session"

  /** The title the handler saves: `const { title = 'Untitled session' } = body` replaces
      only an absent title (`None`); an empty one is kept. */
  function BodyTitle(title: Option<string>): (t: string)
    ensures title.None? ==> t == DefaultTitle
    ensures title.Some? ==> t == title.value
  {
    if title.Some? then title.value else DefaultTitle
  }

  /** The row an update leaves: new title, transcript and summary, COMPLETED, and the
      action items replaced wholesale when the request brings any. */
  function Updated(row: DbRow, title: string, transcript: string, summary: string, items: seq<ItemIn>): (r: DbRow)
    ensures r.id == row.id && r.clientSessionId == row.clientSessionId && r.completed
    ensures r.title == title && r.transcript == transcript && r.summary == summary
    ensures r.items == if items == [] then row.items else ToDbItems(items)
  {
    DbRow(row.id, row.clientSessionId, title, transcript, summary, true,
          if items == [] then row.items else ToDbItems(items))
  }

  class Database {
    var rows: seq<DbRow>
    var nextId: nat

    /** Every row's id was issued before `nextId`, so the next row's id is fresh. */
    ghost predicate Valid()
      reads this
    {
      forall j :: 0 <= j < |rows| ==> rows[j].id < nextId
    }

    constructor()
      ensures rows == [] && Valid()
    {
      rows := [];
      nextId := 0;
    }

    /** POST on the database: a known `clientSessionId` updates its row in place; any
        other request creates one COMPLETED row. */
    method Save(clientSessionId: string, title: Option<string>, transcript: string, summary: string,
                items: seq<ItemIn>)
      returns (row: DbRow)
      requires Valid()
      modifies this
      ensures Valid()
      ensures row.title == BodyTitle(title)
      ensures clientSessionId != "" && RowWithClient(old(rows), clientSessionId).Some? ==>
        var k := RowWithClient(old(rows), clientSessionId).value;
        row == Updated(old(rows)[k], BodyTitle(title), transcript, summary, items) && rows == old(rows)[k := row]
      ensures clientSessionId == "" || RowWithClient(old(rows), clientSessionId).None? ==>
        row == DbRow(old(nextId), clientSessionId, BodyTitle(title), transcript, summary, true, ToDbItems(items))
        && rows == old(rows) + [row]
      ensures clientSessionId == "" || RowWithClient(old(rows), clientSessionId).None? ==>
        forall j :: 0 <= j < |old(rows)| ==> old(rows)[j].id != row.id
    {
      var t := BodyTitle(title);
      if clientSessionId != "" {
        var existing := RowWithClient(rows, clientSessionId);
        if existing.Some? {
          row := Updated(rows[existing.value], t, transcript, summary, items);
          rows := rows[existing.value := row];
          return;
        }
      }
      row := DbRow(nextId, clientSessionId, t, transcript, summary, true, ToDbItems(items));
      rows := rows + [row];
      nextId := nextId + 1;
    }
  }

  /** After an update the number of rows carrying the id is unchanged: saving again never
      duplicates a session. */
  lemma UpdateKeepsCount(rows: seq<DbRow>, k: nat, row: DbRow)
    requires k < |rows| && row.clientSessionId == rows[k].clientSessionId
    ensures |rows[k := row]| == |rows|
    ensures forall cid :: RowWithClient(rows[k := row], cid).Some? <==> RowWithClient(rows, cid).Some?
  {
    forall cid ensures RowWithClient(rows[k := row], cid).Some? <==> RowWithClient(rows, cid).Some? {
      var after := rows[k := row];
      if RowWithClient(rows, cid).Some? {
        var j := RowWithClient(rows, cid).value;
        assert after[j].clientSessionId == cid;
        NotNone(after, j, cid);
      }
      if RowWithClient(after, cid).Some? {
        var j := RowWithClient(after, cid).value;
        assert rows[j].clientSessionId == cid;
        NotNone(rows, j, cid);
      }
    }
  }

  lemma NotNone(rows: seq<DbRow>, j: nat, cid: string)
    requires j < |rows| && rows[j].clientSessionId == cid
    ensures RowWithClient(rows, cid).Some?
  {
  }
}
