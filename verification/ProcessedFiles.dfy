/**
 The processed_files table: the columns the claim protocol reads or writes, the SQL
 statements as functions from rows to rows, and the repository that runs them.
 Every statement is committed on its own, so each one is a single atomic step.
 */
module ProcessedFiles {
  import opened Wrappers

  type Instance = string

  datatype Status = Pending | Claimed | Processing | Success | Failed | Skipped

  /** One row. None stands for SQL NULL. */
  datatype Row = Row(
    status: Status,
    claimedBy: Option<Instance>,
    claimedAt: int,
    claimExpiresAt: Option<int>,
    retryCount: nat)

  /** The unique key uk_task_file_mtime. */
  datatype FileKey = FileKey(taskId: string, filePath: string, fileMtime: int)

  /** The bound parameters of the upsert in try_claim. */
  datatype Claim = Claim(instance: Instance, now: int, expires: int, maxRetries: int)

  /** A comparison with NULL is not true, so a NULL lease never expires. */
  predicate LeaseExpired(row: Row, now: int) {
    row.claimExpiresAt.Some? && row.claimExpiresAt.value < now
  }

  /** The condition repeated in all four IFs of the upsert. */
  predicate Claimable(row: Row, now: int, maxRetries: int) {
    || (row.status == Failed && row.retryCount < maxRetries)
    || (row.status in {Claimed, Processing} && LeaseExpired(row, now))
  }

  /** How the assignments of a SET list see each other. MySQL evaluates them left to right. */
  datatype SetOrder = LeftToRight | Simultaneous

  /** Every IF sees the columns that the assignments before it have already written. */
  function UpdateLeftToRight(row: Row, c: Claim): Row {
    var r1 := if Claimable(row, c.now, c.maxRetries) then row.(status := Claimed) else row;
    var r2 := if Claimable(r1, c.now, c.maxRetries) then r1.(claimedBy := Some(c.instance)) else r1;
    var r3 := if Claimable(r2, c.now, c.maxRetries) then r2.(claimedAt := c.now) else r2;
    if Claimable(r3, c.now, c.maxRetries) then r3.(claimExpiresAt := Some(c.expires)) else r3
  }

  /** Every IF sees the row as it was before the statement. */
  function UpdateSimultaneously(row: Row, c: Claim): Row {
    if Claimable(row, c.now, c.maxRetries)
    then Row(Claimed, Some(c.instance), c.now, Some(c.expires), row.retryCount)
    else row
  }

  function Upsert(slot: Option<Row>, c: Claim, order: SetOrder): Row {
    match slot
    case None => Row(Claimed, Some(c.instance), c.now, Some(c.expires), 0)
    case Some(row) =>
      if order == LeftToRight then UpdateLeftToRight(row, c) else UpdateSimultaneously(row, c)
  }

  predicate CanStart(row: Row, instance: Instance) {
    row.claimedBy == Some(instance) && row.status == Claimed
  }

  function Fail(row: Row): Row {
    row.(status := Failed, retryCount := row.retryCount + 1, claimExpiresAt := None)
  }

  /** The statement of the manual retry endpoint. */
  function Requeue(row: Row): Row {
    if row.status == Failed
    then row.(status := Pending, retryCount := 0, claimExpiresAt := None, claimedBy := None)
    else row
  }

  /** The shared database. `foundRows` is the connection's CLIENT_FOUND_ROWS flag. */
  class Database {
    var files: map<FileKey, Row>
    const foundRows: bool

    constructor (foundRows: bool)
      ensures files == map[] && this.foundRows == foundRows
    {
      files := map[];
      this.foundRows := foundRows;
    }

    function Slot(key: FileKey): Option<Row>
      reads this
    {
      if key in files then Some(files[key]) else None
    }
  }

  class ProcessedFileRepository {
    const db: Database
    const instanceId: Instance
    const claimTimeout: int

    constructor (db: Database, instanceId: Instance, claimTimeout: int)
      ensures this.db == db && this.instanceId == instanceId && this.claimTimeout == claimTimeout
    {
      this.db := db;
      this.instanceId := instanceId;
      this.claimTimeout := claimTimeout;
    }

    function ClaimAt(now: int, maxRetries: int): Claim {
      Claim(instanceId, now, now + claimTimeout, maxRetries)
    }

    /** The return value is no proof of ownership: with found-rows counting it is always true. */
    method TryClaim(key: FileKey, now: int, maxRetries: int) returns (claimed: bool)
      modifies db
      ensures db.files == old(db.files)[key := Upsert(old(db.Slot(key)), ClaimAt(now, maxRetries), LeftToRight)]
      ensures match old(db.Slot(key))
        case None => db.files[key] == Row(Claimed, Some(instanceId), now, Some(now + claimTimeout), 0)
        case Some(row) =>
          if row.status in {Claimed, Processing} && row.claimExpiresAt.Some? && row.claimExpiresAt.value < now then
            db.files[key] == Row(Claimed, Some(instanceId), now, Some(now + claimTimeout), row.retryCount)
          else if row.status == Failed && row.retryCount < maxRetries && row.claimExpiresAt.None? then
            db.files[key] == row.(status := Claimed)
          else if row.status == Failed && row.retryCount < maxRetries then
            db.files[key].status == Claimed
          else
            db.files[key] == row
      ensures claimed <==> old(db.Slot(key)) != db.Slot(key) || db.foundRows
    {
      var expires := now + claimTimeout;
      var rowcount: int;
      if key !in db.files {
        db.files := db.files[key := Row(Claimed, Some(instanceId), now, Some(expires), 0)];
        rowcount := 1;
      } else {
        var before := db.files[key];
        var row := before;
        if Claimable(row, now, maxRetries) { row := row.(status := Claimed); }
        if Claimable(row, now, maxRetries) { row := row.(claimedBy := Some(instanceId)); }
        if Claimable(row, now, maxRetries) { row := row.(claimedAt := now); }
        if Claimable(row, now, maxRetries) { row := row.(claimExpiresAt := Some(expires)); }
        db.files := db.files[key := row];
        rowcount := if row != before then 2 else if db.foundRows then 1 else 0;
      }
      claimed := rowcount in {1, 2};
    }

    /** The real guard of the protocol: owner and status are both checked in the WHERE clause. */
    method MarkProcessing(key: FileKey) returns (started: bool)
      modifies db
      ensures started <==> old(db.Slot(key)).Some? && CanStart(old(db.Slot(key)).value, instanceId)
      ensures db.files == if started then old(db.files)[key := old(db.files[key]).(status := Processing)]
                          else old(db.files)
    {
      started := key in db.files && CanStart(db.files[key], instanceId);
      if started {
        db.files := db.files[key := db.files[key].(status := Processing)];
      }
    }

    /** Neither owner nor status is checked here, nor in the two methods below. */
    method MarkSuccess(key: FileKey) returns (found: bool)
      modifies db
      ensures found <==> key in old(db.files)
      ensures db.files == if found then old(db.files)[key := old(db.files[key]).(status := Success)]
                          else old(db.files)
    {
      found := key in db.files;
      if found {
        db.files := db.files[key := db.files[key].(status := Success)];
      }
    }

    method MarkFailed(key: FileKey) returns (newRetry: nat)
      modifies db
      ensures db.files == if key in old(db.files) then old(db.files)[key := Fail(old(db.files[key]))]
                          else old(db.files)
      ensures newRetry == if key in old(db.files) then old(db.files[key]).retryCount + 1 else 1
    {
      if key in db.files {
        db.files := db.files[key := Fail(db.files[key])];
        newRetry := db.files[key].retryCount;
      } else {
        newRetry := 1;
      }
    }

    method MarkSkipped(key: FileKey)
      modifies db
      ensures db.files == if key in old(db.files) then old(db.files)[key := old(db.files[key]).(status := Skipped)]
                          else old(db.files)
    {
      if key in db.files {
        db.files := db.files[key := db.files[key].(status := Skipped)];
      }
    }
  }

  /**
   How long a lease lasts: a claim made at `now` on a free or expired row holds, started or not,
   against every claim up to `now + claimTimeout`, and falls to any later one.
   */
  lemma LeaseLastsForTimeout(
      mine: ProcessedFileRepository, other: ProcessedFileRepository, slot: Option<Row>,
      now: int, maxRetries: int, started: bool, t: int, otherMax: int)
    requires slot.None? || (slot.value.status in {Claimed, Processing} && LeaseExpired(slot.value, now))
    ensures var claimed := Upsert(slot, mine.ClaimAt(now, maxRetries), LeftToRight);
      var row := if started then claimed.(status := Processing) else claimed;
      var next := Upsert(Some(row), other.ClaimAt(t, otherMax), LeftToRight);
      && claimed.claimedBy == Some(mine.instanceId) && claimed.status == Claimed
      && (t <= now + mine.claimTimeout ==> next == row)
      && (t > now + mine.claimTimeout ==>
            next == Row(Claimed, Some(other.instanceId), t, Some(t + other.claimTimeout), row.retryCount))
  {
  }

  /** The HTTP answers of the retry endpoint. */
  datatype RetryReply = Queued | NotRetryable | NotFound

  method RetryFile(db: Database, key: FileKey) returns (reply: RetryReply)
    modifies db
    ensures key in old(db.files) && old(db.files[key]).status == Failed ==>
      db.files == old(db.files)[key :=
        old(db.files[key]).(status := Pending, retryCount := 0, claimExpiresAt := None, claimedBy := None)]
    ensures key !in old(db.files) || old(db.files[key]).status != Failed ==> db.files == old(db.files)
    ensures reply == if key !in old(db.files) then NotFound
                     else if old(db.files[key]).status == Failed then Queued else NotRetryable
  {
    if key in db.files && db.files[key].status == Failed {
      db.files := db.files[key := Requeue(db.files[key])];
      return Queued;
    }
    if key in db.files {
      return NotRetryable;
    }
    return NotFound;
  }
}
