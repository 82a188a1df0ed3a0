/**
 The trust-record tables as lists of rows in rowid order, and the repositories that write
 them. A campaign database keeps a working copy and the last committed copy.
 */
module TurnTables {
  import opened Basics
  import Sorting

  // ISO-8601 UTC stamps are compared only by order, so a time is a number.
  type Time = int

  datatype TurnStatus = Complete | NeedsVaultRepair | Narrated | Discarded | Retried | Retconned

  datatype TurnRecord = TurnRecord(
    turnId: string, campaign: string, session: string, status: TurnStatus,
    startedAt: Time, completedAt: Time, schemaVersion: nat, syncWarning: Option<string>)

  /** A row that belongs to a turn, with the column its table is ordered by inside the turn. */
  datatype Entry<P> = Entry(turnId: string, order: int, payload: P)

  datatype LineKind = PlayerInput | NarrationFinal | SystemNote
  datatype Line = Line(kind: LineKind, content: string, createdAt: Time)

  datatype CheckpointKind = PreNarration | Final
  datatype Checkpoint = Checkpoint(id: string, kind: CheckpointKind)

  type TranscriptEntry = Entry<Line>       // ordered by sequence
  type CheckpointRef = Entry<Checkpoint>   // ordered by created_at

  datatype RollRow = RollRow(rollId: string, turnId: Option<string>, payload: string)
  datatype LogRow = LogRow(turnId: Option<string>, payload: string)
  datatype LogTable = ProviderLogs | StateDeltas | CostLogs

  datatype RetconAudit = RetconAudit(
    retconId: string, campaign: string, selected: string, affected: seq<string>,
    priorCheckpoint: string, token: string, reason: string, createdAt: Time)

  datatype VaultWrite = VaultWrite(turnId: string, path: string, recordedAt: Time)

  datatype Tables = Tables(
    turns: seq<TurnRecord>,
    transcripts: seq<TranscriptEntry>,
    rolls: seq<RollRow>,
    providerLogs: seq<LogRow>,
    stateDeltas: seq<LogRow>,
    costLogs: seq<LogRow>,
    checkpoints: seq<CheckpointRef>,
    retcons: seq<RetconAudit>,
    vaultWrites: seq<VaultWrite>)

  // ---------------------------------------------------------------- turn_records

  /** turn_id is the primary key. */
  predicate UniqueIds(turns: seq<TurnRecord>) {
    forall i, j :: 0 <= i < j < |turns| ==> turns[i].turnId != turns[j].turnId
  }

  function GetTurn(turns: seq<TurnRecord>, id: string): (r: Option<TurnRecord>)
    ensures r.Some? ==> r.value in turns && r.value.turnId == id
    ensures r.None? ==> forall t :: t in turns ==> t.turnId != id
  {
    if turns == [] then None
    else if turns[0].turnId == id then Some(turns[0])
    else GetTurn(turns[1..], id)
  }

  function Without(turns: seq<TurnRecord>, id: string): (r: seq<TurnRecord>)
    ensures forall t :: t in r <==> t in turns && t.turnId != id
    ensures UniqueIds(turns) ==> UniqueIds(r)
  {
    if turns == [] then []
    else if turns[0].turnId == id then Without(turns[1..], id)
    else [turns[0]] + Without(turns[1..], id)
  }

  /** INSERT OR REPLACE: the old row goes, the new one takes the last rowid. */
  function Upsert(turns: seq<TurnRecord>, rec: TurnRecord): (r: seq<TurnRecord>)
    ensures forall t :: t in r <==> t == rec || (t in turns && t.turnId != rec.turnId)
    ensures UniqueIds(turns) ==> UniqueIds(r)
  {
    Without(turns, rec.turnId) + [rec]
  }

  function MarkedRetconned(turns: seq<TurnRecord>, ids: seq<string>): (r: seq<TurnRecord>)
    ensures |r| == |turns|
    ensures forall i :: 0 <= i < |turns| ==>
      r[i] == if turns[i].turnId in ids then turns[i].(status := Retconned) else turns[i]
  {
    if turns == [] then []
    else [if turns[0].turnId in ids then turns[0].(status := Retconned) else turns[0]]
         + MarkedRetconned(turns[1..], ids)
  }

  function WithSyncWarning(turns: seq<TurnRecord>, id: string, warning: string): (r: seq<TurnRecord>)
    ensures |r| == |turns|
    ensures forall i :: 0 <= i < |turns| ==>
      r[i] == if turns[i].turnId == id then turns[i].(syncWarning := Some(warning)) else turns[i]
  {
    if turns == [] then []
    else [if turns[0].turnId == id then turns[0].(syncWarning := Some(warning)) else turns[0]]
         + WithSyncWarning(turns[1..], id, warning)
  }

  lemma GetUnique(turns: seq<TurnRecord>, t: TurnRecord)
    requires UniqueIds(turns) && t in turns
    ensures GetTurn(turns, t.turnId) == Some(t)
  {
  }

  // ---------------------------------------------------------------- canon

  predicate IsCanonical(t: TurnRecord, campaign: string) {
    t.campaign == campaign && t.status.Complete?
  }

  function SelectTurns(turns: seq<TurnRecord>, campaign: string, includeRetconned: bool): (r: seq<TurnRecord>)
    ensures forall t :: t in r <==> t in turns && t.campaign == campaign && (includeRetconned || t.status.Complete?)
  {
    if turns == [] then []
    else if turns[0].campaign == campaign && (includeRetconned || turns[0].status.Complete?) then
      [turns[0]] + SelectTurns(turns[1..], campaign, includeRetconned)
    else SelectTurns(turns[1..], campaign, includeRetconned)
  }

  predicate CompletedBefore(a: TurnRecord, b: TurnRecord) {
    a.completedAt < b.completedAt
  }

  /** The canonical turns of a campaign, oldest first. */
  function Canon(turns: seq<TurnRecord>, campaign: string): seq<TurnRecord> {
    Sorting.Sort(CompletedBefore, SelectTurns(turns, campaign, false))
  }

  /** No two canonical turns of one campaign completed at the same time. */
  ghost predicate DistinctTimes(turns: seq<TurnRecord>) {
    forall i, j :: 0 <= i < j < |turns| ==>
      turns[i].status.Complete? && turns[j].status.Complete? && turns[i].campaign == turns[j].campaign ==>
      turns[i].completedAt != turns[j].completedAt
  }

  /** Every row was written at or before `clock`. */
  ghost predicate WrittenBy(turns: seq<TurnRecord>, clock: Time) {
    forall t :: t in turns ==> t.completedAt <= clock
  }

  lemma {:induction false} SelectDistinguished(turns: seq<TurnRecord>, campaign: string)
    requires DistinctTimes(turns)
    ensures Sorting.Distinguished(CompletedBefore, SelectTurns(turns, campaign, false))
  {
    if turns != [] {
      assert DistinctTimes(turns[1..]) by {
        forall i, j | 0 <= i < j < |turns| - 1
          ensures turns[1..][i] == turns[i + 1] && turns[1..][j] == turns[j + 1] {}
      }
      SelectDistinguished(turns[1..], campaign);
      var rest := SelectTurns(turns[1..], campaign, false);
      if IsCanonical(turns[0], campaign) {
        forall j | 0 <= j < |rest| ensures turns[0].completedAt != rest[j].completedAt {
          assert rest[j] in turns[1..];
          var k :| 0 <= k < |turns| - 1 && turns[1..][k] == rest[j];
          assert turns[k + 1] == rest[j];
        }
      }
    }
  }

  lemma CanonSorted(turns: seq<TurnRecord>, campaign: string)
    requires DistinctTimes(turns)
    ensures Sorting.StrictlySorted(CompletedBefore, Canon(turns, campaign))
  {
    SelectDistinguished(turns, campaign);
    Sorting.SortStrict(CompletedBefore, SelectTurns(turns, campaign, false));
  }

  lemma CanonMember(turns: seq<TurnRecord>, campaign: string, t: TurnRecord)
    ensures t in Canon(turns, campaign) <==> t in turns && IsCanonical(t, campaign)
  {
    Sorting.SortElements(CompletedBefore, SelectTurns(turns, campaign, false));
  }

  /** Canon is determined by being sorted and having the right members. */
  lemma CanonIs(turns: seq<TurnRecord>, campaign: string, sorted: seq<TurnRecord>)
    requires DistinctTimes(turns)
    requires Sorting.StrictlySorted(CompletedBefore, sorted)
    requires forall t :: t in sorted <==> t in turns && IsCanonical(t, campaign)
    ensures Canon(turns, campaign) == sorted
  {
    SelectDistinguished(turns, campaign);
    Sorting.SortUnique(CompletedBefore, SelectTurns(turns, campaign, false), sorted);
  }

  // ---------------------------------------------------------------- the database

  /** New primary keys: absent from the table and pairwise different. */
  predicate Insertable(existing: seq<string>, added: seq<string>) {
    forall i :: 0 <= i < |added| ==> added[i] !in existing && added[i] !in added[..i]
  }

  function RollIds(rolls: seq<RollRow>): (r: seq<string>)
    ensures |r| == |rolls| && forall i :: 0 <= i < |rolls| ==> r[i] == rolls[i].rollId
  {
    seq(|rolls|, i requires 0 <= i < |rolls| => rolls[i].rollId)
  }

  function CheckpointIds(refs: seq<CheckpointRef>): (r: seq<string>)
    ensures |r| == |refs| && forall i :: 0 <= i < |refs| ==> r[i] == refs[i].payload.id
  {
    seq(|refs|, i requires 0 <= i < |refs| => refs[i].payload.id)
  }

  function RetconIds(retcons: seq<RetconAudit>): (r: seq<string>)
    ensures |r| == |retcons| && forall i :: 0 <= i < |retcons| ==> r[i] == retcons[i].retconId
  {
    seq(|retcons|, i requires 0 <= i < |retcons| => retcons[i].retconId)
  }

  function WithLogs(t: Tables, table: LogTable, rows: seq<LogRow>): Tables {
    match table
    case ProviderLogs => t.(providerLogs := t.providerLogs + rows)
    case StateDeltas => t.(stateDeltas := t.stateDeltas + rows)
    case CostLogs => t.(costLogs := t.costLogs + rows)
  }

  /**
   One SQLite connection. The environment says which statements the engine fails, by their number;
   `statements` is how many the connection has executed.
   */
  class CampaignDb {
    var tables: Tables
    var committed: Tables
    var inTransaction: bool
    var statements: nat
    const failing: iset<nat>

    constructor (stored: Tables, failing: iset<nat>)
      ensures tables == committed == stored && !inTransaction && statements == 0 && this.failing == failing
    {
      tables, committed, inTransaction, statements, this.failing := stored, stored, false, 0, failing;
    }

    /** Executes one statement; `ok` is whether the engine goes along. */
    method Tick() returns (ok: bool)
      modifies `statements
      ensures ok <==> old(statements) !in failing
      ensures statements == old(statements) + 1
    {
      ok := statements !in failing;
      statements := statements + 1;
    }

    /** A writing statement: opens a transaction, then takes effect entirely or not at all. */
    method Write(next: Tables, violatesKey: bool) returns (ok: bool)
      modifies this
      ensures ok <==> old(statements) !in failing && !violatesKey
      ensures tables == if ok then next else old(tables)
      ensures committed == old(committed) && inTransaction
      ensures statements == old(statements) + 1
    {
      inTransaction := true;
      ok := Tick();
      if violatesKey { ok := false; }
      if ok { tables := next; }
    }

    method Commit() returns (ok: bool)
      modifies this
      ensures ok <==> old(statements) !in failing
      ensures tables == old(tables)
      ensures committed == if ok then tables else old(committed)
      ensures inTransaction == (!ok && old(inTransaction))
      ensures statements == old(statements) + 1
    {
      ok := Tick();
      if ok { committed, inTransaction := tables, false; }
    }

    method Rollback()
      modifies `tables, `inTransaction
      ensures tables == committed && !inTransaction
    {
      tables, inTransaction := committed, false;
    }

    method AppendTranscript(e: TranscriptEntry) returns (ok: bool)
      modifies this
      ensures ok <==> old(statements) !in failing
      ensures tables == if ok then old(tables).(transcripts := old(tables.transcripts) + [e]) else old(tables)
      ensures committed == old(committed) && inTransaction
      ensures statements == old(statements) + 1
    {
      ok := Write(tables.(transcripts := tables.transcripts + [e]), false);
    }

    method AppendRoll(r: RollRow) returns (ok: bool)
      modifies this
      ensures ok <==> old(statements) !in failing && r.rollId !in RollIds(old(tables.rolls))
      ensures tables == if ok then old(tables).(rolls := old(tables.rolls) + [r]) else old(tables)
      ensures committed == old(committed) && inTransaction
      ensures statements == old(statements) + 1
    {
      ok := Write(tables.(rolls := tables.rolls + [r]), r.rollId in RollIds(tables.rolls));
    }

    method AppendLog(table: LogTable, row: LogRow) returns (ok: bool)
      modifies this
      ensures ok <==> old(statements) !in failing
      ensures tables == if ok then WithLogs(old(tables), table, [row]) else old(tables)
      ensures committed == old(committed) && inTransaction
      ensures statements == old(statements) + 1
    {
      ok := Write(WithLogs(tables, table, [row]), false);
    }

    method AppendCheckpoint(ref: CheckpointRef) returns (ok: bool)
      modifies this
      ensures ok <==> old(statements) !in failing && ref.payload.id !in CheckpointIds(old(tables.checkpoints))
      ensures tables == if ok then old(tables).(checkpoints := old(tables.checkpoints) + [ref]) else old(tables)
      ensures committed == old(committed) && inTransaction
      ensures statements == old(statements) + 1
    {
      ok := Write(tables.(checkpoints := tables.checkpoints + [ref]),
                  ref.payload.id in CheckpointIds(tables.checkpoints));
    }

    method UpsertTurn(rec: TurnRecord) returns (ok: bool)
      modifies this
      ensures ok <==> old(statements) !in failing
      ensures tables == if ok then old(tables).(turns := Upsert(old(tables.turns), rec)) else old(tables)
      ensures committed == old(committed) && inTransaction
      ensures statements == old(statements) + 1
    {
      ok := Write(tables.(turns := Upsert(tables.turns, rec)), false);
    }

    /** No ids, no statement. */
    method MarkRetconned(ids: seq<string>) returns (ok: bool)
      modifies this
      ensures ok <==> ids == [] || old(statements) !in failing
      ensures tables == if ok then old(tables).(turns := MarkedRetconned(old(tables.turns), ids)) else old(tables)
      ensures committed == old(committed)
      ensures inTransaction == (ids != [] || old(inTransaction))
      ensures statements == old(statements) + if ids == [] then 0 else 1
    {
      if ids == [] {
        assert MarkedRetconned(tables.turns, ids) == tables.turns;
        return true;
      }
      ok := Write(tables.(turns := MarkedRetconned(tables.turns, ids)), false);
    }

    /** retcon_id is the primary key, and the record schema wants at least one affected turn. */
    method AppendRetconAudit(a: RetconAudit) returns (ok: bool)
      modifies this
      ensures ok <==> old(statements) !in failing && a.affected != [] && a.retconId !in RetconIds(old(tables.retcons))
      ensures tables == if ok then old(tables).(retcons := old(tables.retcons) + [a]) else old(tables)
      ensures committed == old(committed) && inTransaction
      ensures statements == old(statements) + 1
    {
      ok := Write(tables.(retcons := tables.retcons + [a]),
                  a.affected == [] || a.retconId in RetconIds(tables.retcons));
    }

    method AppendVaultWrite(w: VaultWrite) returns (ok: bool)
      modifies this
      ensures ok <==> old(statements) !in failing
      ensures tables == if ok then old(tables).(vaultWrites := old(tables.vaultWrites) + [w]) else old(tables)
      ensures committed == old(committed) && inTransaction
      ensures statements == old(statements) + 1
    {
      ok := Write(tables.(vaultWrites := tables.vaultWrites + [w]), false);
    }

    method SetSyncWarning(id: string, warning: string) returns (ok: bool)
      modifies this
      ensures ok <==> old(statements) !in failing
      ensures tables ==
              if ok then old(tables).(turns := WithSyncWarning(old(tables.turns), id, warning)) else old(tables)
      ensures committed == old(committed) && inTransaction
      ensures statements == old(statements) + 1
    {
      ok := Write(tables.(turns := WithSyncWarning(tables.turns, id, warning)), false);
    }
  }
}
