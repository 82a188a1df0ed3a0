/**
 Closing a turn: one database transaction, then the vault writes with their audit rows, then
 the derived indices and the player-vault sync.
 */
module TurnClose {
  import opened Basics
  import opened TurnTables
  import opened VaultPage
  import FtsIndex
  import GraphHistory
  import VaultGraph

  /** Everything a turn commits at once. */
  datatype Bundle = Bundle(
    turn: TurnRecord,
    transcripts: seq<TranscriptEntry>,
    rolls: seq<RollRow>,
    providerLogs: seq<LogRow>,
    stateDeltas: seq<LogRow>,
    costLogs: seq<LogRow>,
    checkpoints: seq<CheckpointRef>)

  function CompletedRecord(b: Bundle, now: Time): TurnRecord {
    b.turn.(status := Complete, completedAt := now, syncWarning := None)
  }

  /** The tables with every row of the bundle and the turn marked complete. */
  function Closed(t: Tables, b: Bundle, now: Time): Tables {
    t.(transcripts := t.transcripts + b.transcripts,
       rolls := t.rolls + b.rolls,
       providerLogs := t.providerLogs + b.providerLogs,
       stateDeltas := t.stateDeltas + b.stateDeltas,
       costLogs := t.costLogs + b.costLogs,
       checkpoints := t.checkpoints + b.checkpoints,
       turns := Upsert(t.turns, CompletedRecord(b, now)))
  }

  /** Every row table grew by its own part of the bundle, and the retcon table did not change. */
  ghost predicate BundleStored(t: Tables, b: Bundle, s: Tables) {
    && s.transcripts == t.transcripts + b.transcripts && s.rolls == t.rolls + b.rolls
    && s.providerLogs == t.providerLogs + b.providerLogs && s.stateDeltas == t.stateDeltas + b.stateDeltas
    && s.costLogs == t.costLogs + b.costLogs && s.checkpoints == t.checkpoints + b.checkpoints
    && s.retcons == t.retcons
  }

  /** The record is the bundle's turn, completed now, with this status and warning. */
  predicate IsTurnOf(r: TurnRecord, turn: TurnRecord, now: Time, status: TurnStatus, warning: Option<string>) {
    && r.turnId == turn.turnId && r.campaign == turn.campaign && r.session == turn.session
    && r.startedAt == turn.startedAt && r.schemaVersion == turn.schemaVersion
    && r.completedAt == now && r.status == status && r.syncWarning == warning
  }

  /** The turn has one record, as described, and every other turn has the records it had. */
  ghost predicate TurnStored(
      t: Tables, turn: TurnRecord, now: Time, status: TurnStatus, warning: Option<string>, s: Tables)
  {
    && (exists r :: r in s.turns && r.turnId == turn.turnId)
    && (forall r :: r in s.turns && r.turnId == turn.turnId ==> IsTurnOf(r, turn, now, status, warning))
    && (forall r: TurnRecord :: r.turnId != turn.turnId ==> (r in s.turns <==> r in t.turns))
  }

  /** The audit rows that were added name the turn, the place of each page in turn, and the time. */
  ghost predicate Audited(
      audits: seq<VaultWrite>, turnId: string, pages: seq<Page>, now: Time, n: nat, audits': seq<VaultWrite>)
  {
    && |audits'| == |audits| + n && audits <= audits' && n <= |pages|
    && forall i :: 0 <= i < n ==>
         && audits'[|audits| + i].turnId == turnId && audits'[|audits| + i].recordedAt == now
         && RelativePath(pages[i]) == Some(audits'[|audits| + i].path)
  }

  predicate KeysFree(t: Tables, b: Bundle) {
    && Insertable(RollIds(t.rolls), RollIds(b.rolls))
    && Insertable(CheckpointIds(t.checkpoints), CheckpointIds(b.checkpoints))
  }

  method AppendTranscripts(db: CampaignDb, entries: seq<TranscriptEntry>) returns (ok: bool)
    modifies db
    ensures ok <==> Quiet(db.failing, old(db.statements), old(db.statements) + |entries|)
    ensures ok ==> db.tables == old(db.tables).(transcripts := old(db.tables.transcripts) + entries)
    ensures ok ==> db.statements == old(db.statements) + |entries|
    ensures db.committed == old(db.committed)
  {
    for i := 0 to |entries|
      invariant db.tables == old(db.tables).(transcripts := old(db.tables.transcripts) + entries[..i])
      invariant db.committed == old(db.committed)
      invariant db.statements == old(db.statements) + i && Quiet(db.failing, old(db.statements), db.statements)
    {
      ok := db.AppendTranscript(entries[i]);
      if !ok { return; }
    }
    assert entries[..|entries|] == entries;
    ok := true;
  }

  method AppendRolls(db: CampaignDb, rolls: seq<RollRow>) returns (ok: bool)
    modifies db
    ensures ok <==>
      && Insertable(RollIds(old(db.tables.rolls)), RollIds(rolls))
      && Quiet(db.failing, old(db.statements), old(db.statements) + |rolls|)
    ensures ok ==> db.tables == old(db.tables).(rolls := old(db.tables.rolls) + rolls)
    ensures ok ==> db.statements == old(db.statements) + |rolls|
    ensures db.committed == old(db.committed)
  {
    for i := 0 to |rolls|
      invariant db.tables == old(db.tables).(rolls := old(db.tables.rolls) + rolls[..i])
      invariant db.committed == old(db.committed)
      invariant db.statements == old(db.statements) + i && Quiet(db.failing, old(db.statements), db.statements)
      invariant forall k :: 0 <= k < i ==>
        RollIds(rolls)[k] !in RollIds(old(db.tables.rolls)) && RollIds(rolls)[k] !in RollIds(rolls)[..k]
    {
      assert RollIds(db.tables.rolls) == RollIds(old(db.tables.rolls)) + RollIds(rolls)[..i];
      ok := db.AppendRoll(rolls[i]);
      if !ok { return; }
    }
    assert rolls[..|rolls|] == rolls;
    ok := true;
  }

  method AppendLogs(db: CampaignDb, table: LogTable, rows: seq<LogRow>) returns (ok: bool)
    modifies db
    ensures ok <==> Quiet(db.failing, old(db.statements), old(db.statements) + |rows|)
    ensures ok ==> db.tables == WithLogs(old(db.tables), table, rows)
    ensures ok ==> db.statements == old(db.statements) + |rows|
    ensures db.committed == old(db.committed)
  {
    for i := 0 to |rows|
      invariant db.tables == WithLogs(old(db.tables), table, rows[..i])
      invariant db.committed == old(db.committed)
      invariant db.statements == old(db.statements) + i && Quiet(db.failing, old(db.statements), db.statements)
    {
      ok := db.AppendLog(table, rows[i]);
      if !ok { return; }
    }
    assert rows[..|rows|] == rows;
    ok := true;
  }

  method AppendCheckpoints(db: CampaignDb, refs: seq<CheckpointRef>) returns (ok: bool)
    modifies db
    ensures ok <==>
      && Insertable(CheckpointIds(old(db.tables.checkpoints)), CheckpointIds(refs))
      && Quiet(db.failing, old(db.statements), old(db.statements) + |refs|)
    ensures ok ==> db.tables == old(db.tables).(checkpoints := old(db.tables.checkpoints) + refs)
    ensures ok ==> db.statements == old(db.statements) + |refs|
    ensures db.committed == old(db.committed)
  {
    for i := 0 to |refs|
      invariant db.tables == old(db.tables).(checkpoints := old(db.tables.checkpoints) + refs[..i])
      invariant db.committed == old(db.committed)
      invariant db.statements == old(db.statements) + i && Quiet(db.failing, old(db.statements), db.statements)
      invariant forall k :: 0 <= k < i ==>
        && CheckpointIds(refs)[k] !in CheckpointIds(old(db.tables.checkpoints))
        && CheckpointIds(refs)[k] !in CheckpointIds(refs)[..k]
    {
      assert CheckpointIds(db.tables.checkpoints)
             == CheckpointIds(old(db.tables.checkpoints)) + CheckpointIds(refs)[..i];
      ok := db.AppendCheckpoint(refs[i]);
      if !ok { return; }
    }
    assert refs[..|refs|] == refs;
    ok := true;
  }

  method AppendAllLogs(db: CampaignDb, b: Bundle) returns (ok: bool)
    modifies db
    ensures ok <==> Quiet(db.failing, old(db.statements), old(db.statements) + LogRows(b))
    ensures ok ==>
      db.tables == old(db.tables).(providerLogs := old(db.tables.providerLogs) + b.providerLogs,
                                   stateDeltas := old(db.tables.stateDeltas) + b.stateDeltas,
                                   costLogs := old(db.tables.costLogs) + b.costLogs)
    ensures ok ==> db.statements == old(db.statements) + LogRows(b)
    ensures db.committed == old(db.committed)
  {
    ok := AppendLogs(db, ProviderLogs, b.providerLogs);
    if ok { ok := AppendLogs(db, StateDeltas, b.stateDeltas); }
    if ok { ok := AppendLogs(db, CostLogs, b.costLogs); }
  }

  function LogRows(b: Bundle): nat {
    |b.providerLogs| + |b.stateDeltas| + |b.costLogs|
  }

  /** One statement for every row of the bundle and one for its turn. */
  function InsertStatements(b: Bundle): nat {
    |b.transcripts| + |b.rolls| + LogRows(b) + |b.checkpoints| + 1
  }

  /** The statements between the redaction sweep and the commit. */
  method InsertBundle(db: CampaignDb, b: Bundle, now: Time) returns (ok: bool)
    modifies db
    ensures ok <==>
      && KeysFree(old(db.tables), b)
      && Quiet(db.failing, old(db.statements), old(db.statements) + InsertStatements(b))
    ensures ok ==> db.tables == Closed(old(db.tables), b, now)
    ensures ok ==> BundleStored(old(db.tables), b, db.tables)
    ensures ok ==> db.statements == old(db.statements) + InsertStatements(b)
    ensures db.committed == old(db.committed)
  {
    ok := AppendTranscripts(db, b.transcripts);
    if ok { ok := AppendRolls(db, b.rolls); }
    if ok { ok := AppendAllLogs(db, b); }
    if ok { ok := AppendCheckpoints(db, b.checkpoints); }
    if ok { ok := db.UpsertTurn(CompletedRecord(b, now)); }
  }

  /** The close commits: the sweep finds nothing, the keys are free, and no statement up to the commit fails. */
  ghost predicate Commits(failing: iset<nat>, from: nat, t: Tables, b: Bundle, sweepClean: bool) {
    sweepClean && KeysFree(t, b) && Quiet(failing, from, from + InsertStatements(b) + 1)
  }

  /**
   The transaction of a turn close: all of the bundle on top of the tables, or the last
   committed store, whatever statements the engine fails.
   */
  method CommitTurn(db: CampaignDb, b: Bundle, now: Time, sweepClean: bool) returns (ok: bool)
    modifies db
    ensures ok <==> Commits(db.failing, old(db.statements), old(db.tables), b, sweepClean)
    ensures ok ==> db.tables == Closed(old(db.tables), b, now)
    ensures ok ==> BundleStored(old(db.tables), b, db.tables)
    ensures ok ==> db.statements == old(db.statements) + InsertStatements(b) + 1
    ensures !ok ==> db.tables == old(db.committed)
    ensures db.committed == db.tables && !db.inTransaction
  {
    ok := sweepClean;
    if ok { ok := InsertBundle(db, b, now); }
    if ok { ok := db.Commit(); }
    if !ok { db.Rollback(); }
  }

  // ---------------------------------------------------------------- the vault

  /**
   The master vault on disk. The environment says which page writes fail, by their number, and which
   of these fail late, when the file has been replaced.
   */
  class MasterVault {
    var files: map<string, string>
    var writes: nat
    const failing: iset<nat>
    const late: iset<nat>

    constructor (stored: map<string, string>, failing: iset<nat>, late: iset<nat>)
      ensures files == stored && writes == 0 && this.failing == failing && this.late == late
    {
      files, writes, this.failing, this.late := stored, 0, failing, late;
    }

    method WritePage(yaml: Yaml, page: Page, path: string) returns (ok: bool, replaced: bool)
      modifies this
      ensures ok <==> old(writes) !in failing
      ensures replaced <==> old(writes) !in failing || old(writes) in late
      ensures files == if replaced then old(files)[path := AsMarkdown(yaml, page)] else old(files)
      ensures writes == old(writes) + 1
    {
      ok := writes !in failing;
      replaced := ok || writes in late;
      if replaced { files := files[path := AsMarkdown(yaml, page)]; }
      writes := writes + 1;
    }
  }

  predicate Placed(pages: seq<Page>) {
    forall i :: 0 <= i < |pages| ==> RelativePath(pages[i]).Some?
  }

  /** Where each page of a plan goes; ids may repeat. */
  function Plan(pages: seq<Page>): (r: seq<FtsIndex.Write>)
    requires Placed(pages)
    ensures |r| == |pages|
    ensures forall i :: 0 <= i < |r| ==> r[i] == FtsIndex.Write(RelativePath(pages[i]).value, pages[i])
  {
    seq(|pages|, i requires 0 <= i < |pages| => FtsIndex.Write(RelativePath(pages[i]).value, pages[i]))
  }

  function AuditRows(turnId: string, writes: seq<FtsIndex.Write>, now: Time): (r: seq<VaultWrite>)
    ensures |r| == |writes|
    ensures forall i :: 0 <= i < |r| ==> r[i] == VaultWrite(turnId, writes[i].path, now)
  {
    seq(|writes|, i requires 0 <= i < |writes| => VaultWrite(turnId, writes[i].path, now))
  }

  function RepairRecord(rec: TurnRecord): TurnRecord {
    rec.(status := NeedsVaultRepair, syncWarning := None)
  }

  // ---------------------------------------------------------------- where the page writes stop

  /** What the engine and the disk fail, and how many statements and writes each has behind it. */
  datatype Faults = Faults(engine: iset<nat>, statement: nat, disk: iset<nat>, late: iset<nat>, write: nat)

  function FaultsOf(db: CampaignDb, vault: MasterVault): Faults
    reads db, vault
  {
    Faults(db.failing, db.statements, vault.failing, vault.late, vault.writes)
  }

  function Later(f: Faults, statements: nat): Faults {
    f.(statement := f.statement + statements)
  }

  /** A page that cannot be placed, written or audited, when everything before it went through. */
  predicate Stops(f: Faults, pages: seq<Page>, i: nat)
    requires i < |pages|
  {
    RelativePath(pages[i]).None? || f.write + i in f.disk || f.statement + i in f.engine
  }

  function StopFrom(f: Faults, pages: seq<Page>, i: nat): (s: nat)
    requires i <= |pages|
    ensures i <= s <= |pages|
    decreases |pages| - i
  {
    if i == |pages| || Stops(f, pages, i) then i else StopFrom(f, pages, i + 1)
  }

  /** The first page at which the writes stop, or the number of pages. */
  function FirstStop(f: Faults, pages: seq<Page>): nat {
    StopFrom(f, pages, 0)
  }

  lemma {:induction false} StopIsFirst(f: Faults, pages: seq<Page>, i: nat)
    requires i <= |pages|
    ensures var s := StopFrom(f, pages, i);
            (s == |pages| || Stops(f, pages, s)) && forall k :: i <= k < s ==> !Stops(f, pages, k)
    decreases |pages| - i
  {
    if i < |pages| && !Stops(f, pages, i) { StopIsFirst(f, pages, i + 1); }
  }

  /** Without faults the writes stop only where a page has no place. */
  lemma StopWithoutFaults(f: Faults, pages: seq<Page>)
    requires f.engine == f.disk == iset{}
    ensures FirstStop(f, pages) == |pages| <==> Placed(pages)
  {
    StopIsFirst(f, pages, 0);
    if FirstStop(f, pages) == |pages| {
      forall i | 0 <= i < |pages| ensures RelativePath(pages[i]).Some? {
        assert !Stops(f, pages, i);
      }
    }
  }

  predicate Replaces(f: Faults, i: nat) {
    f.write + i !in f.disk || f.write + i in f.late
  }

  /** How far the writes come when they stop at `s`: the file of that page may be in place. */
  function ProgressAt(f: Faults, pages: seq<Page>, s: nat): Progress {
    Progress(s, if s < |pages| && RelativePath(pages[s]).Some? && Replaces(f, s) then s + 1 else s)
  }

  /** The audit statements until the writes stop at `s`: the last one may have failed. */
  function AuditsAt(f: Faults, pages: seq<Page>, s: nat): nat {
    if s < |pages| && RelativePath(pages[s]).Some? && f.write + s !in f.disk then s + 1 else s
  }

  function ProgressOf(f: Faults, pages: seq<Page>): Progress {
    ProgressAt(f, pages, FirstStop(f, pages))
  }

  function AuditStatements(f: Faults, pages: seq<Page>): nat {
    AuditsAt(f, pages, FirstStop(f, pages))
  }

  /** Every page is written and audited, the resolver refreshes, and the commit succeeds. */
  predicate WritesKept(f: Faults, pages: seq<Page>, refreshOk: bool) {
    FirstStop(f, pages) == |pages| && refreshOk && f.statement + |pages| !in f.engine
  }

  /** The statement after the writes and, if it comes to it, their commit. */
  function NextStatement(f: Faults, pages: seq<Page>, refreshOk: bool): nat {
    f.statement + AuditStatements(f, pages) + if FirstStop(f, pages) == |pages| && refreshOk then 1 else 0
  }

  /** How the writes go: whether they are kept, and which statement comes next. */
  datatype Course = Course(kept: bool, next: nat, failing: iset<nat>) {
    /** The next two statements, which note a repair mark or a sync warning and commit it, both succeed. */
    predicate NoteStored() { next !in failing && next + 1 !in failing }

    /** The first of them succeeds, so the connection reads the note. */
    predicate NoteRead() { next !in failing }
  }

  function CourseOf(f: Faults, pages: seq<Page>, refreshOk: bool): Course {
    Course(WritesKept(f, pages, refreshOk), NextStatement(f, pages, refreshOk), f.engine)
  }

  /** A database that stays locked keeps no writes and takes no repair mark, whatever the pages are. */
  lemma LockedLosesMark(f: Faults, pages: seq<Page>, refreshOk: bool)
    requires forall k: nat :: f.statement <= k ==> k in f.engine
    ensures var c := CourseOf(f, pages, refreshOk);
            !c.kept && !c.NoteRead() && VaultResult(c, None) == Failed(RepairLost)
  {
  }

  /** One page: its file, then its audit row. */
  method WritePageAndAudit(
      db: CampaignDb, vault: MasterVault, yaml: Yaml, turnId: string, page: Page, path: string, now: Time)
    returns (ok: bool, replaced: bool)
    modifies db, vault
    ensures ok <==> old(vault.writes) !in vault.failing && old(db.statements) !in db.failing
    ensures replaced <==> old(vault.writes) !in vault.failing || old(vault.writes) in vault.late
    ensures vault.files == if replaced then old(vault.files)[path := AsMarkdown(yaml, page)] else old(vault.files)
    ensures vault.writes == old(vault.writes) + 1
    ensures db.tables ==
            if ok then old(db.tables).(vaultWrites := old(db.tables.vaultWrites) + [VaultWrite(turnId, path, now)])
            else old(db.tables)
    ensures db.committed == old(db.committed)
    ensures db.statements == old(db.statements) + if old(vault.writes) !in vault.failing then 1 else 0
  {
    ok, replaced := vault.WritePage(yaml, page, path);
    if ok { ok := db.AppendVaultWrite(VaultWrite(turnId, path, now)); }
  }

  datatype Progress = Progress(audited: nat, written: nat)

  /** A prefix of the plan is on disk, and a prefix of that is audited under the turn. */
  ghost predicate Advanced(
      yaml: Yaml, turnId: string, pages: seq<Page>, now: Time, files: map<string, string>, audits: seq<VaultWrite>,
      files': map<string, string>, audits': seq<VaultWrite>, p: Progress)
  {
    && p.audited <= p.written <= |pages| && Placed(pages[..p.written])
    && files' == FtsIndex.Written(yaml, files, Plan(pages[..p.written]))
    && audits' == audits + AuditRows(turnId, Plan(pages[..p.written])[..p.audited], now)
  }

  lemma PlanStep(pages: seq<Page>, i: nat)
    requires i < |pages| && Placed(pages[..i]) && RelativePath(pages[i]).Some?
    ensures Placed(pages[..i + 1])
    ensures Plan(pages[..i + 1]) == Plan(pages[..i]) + [FtsIndex.Write(RelativePath(pages[i]).value, pages[i])]
    ensures Plan(pages[..i + 1])[..i] == Plan(pages[..i])
  {
  }

  /** One more page written, then audited. */
  lemma AdvancedStep(
      yaml: Yaml, turnId: string, pages: seq<Page>, now: Time, files: map<string, string>, audits: seq<VaultWrite>,
      files': map<string, string>, audits': seq<VaultWrite>, i: nat)
    requires i < |pages| && RelativePath(pages[i]).Some?
    requires Advanced(yaml, turnId, pages, now, files, audits, files', audits', Progress(i, i))
    ensures var path := RelativePath(pages[i]).value;
            var written := files'[path := AsMarkdown(yaml, pages[i])];
            && Advanced(yaml, turnId, pages, now, files, audits, written, audits', Progress(i, i + 1))
            && Advanced(yaml, turnId, pages, now, files, audits,
                        written, audits' + [VaultWrite(turnId, path, now)], Progress(i + 1, i + 1))
  {
    PlanStep(pages, i);
    var plan, path := Plan(pages[..i + 1]), RelativePath(pages[i]).value;
    assert Plan(pages[..i])[..i] == Plan(pages[..i]) && plan[..i + 1] == plan;
    assert AuditRows(turnId, plan, now) == AuditRows(turnId, plan[..i], now) + [VaultWrite(turnId, path, now)];
  }

  /** The environment is the one of `f` after `n` statements and page writes. */
  ghost predicate After(f: Faults, n: nat, db: CampaignDb, vault: MasterVault)
    reads db, vault
  {
    FaultsOf(db, vault) == f.(statement := f.statement + n, write := f.write + n)
  }

  /** The next page of the plan, when all before it are written and audited. */
  method WriteNext(
      db: CampaignDb, vault: MasterVault, yaml: Yaml, turnId: string, pages: seq<Page>, i: nat, now: Time,
      ghost f: Faults, ghost files: map<string, string>, ghost audits: seq<VaultWrite>)
    returns (ok: bool, p: Progress)
    requires i < |pages| && After(f, i, db, vault)
    requires Advanced(yaml, turnId, pages, now, files, audits, vault.files, db.tables.vaultWrites, Progress(i, i))
    modifies db, vault
    ensures Advanced(yaml, turnId, pages, now, files, audits, vault.files, db.tables.vaultWrites, p)
    ensures db.tables == old(db.tables).(vaultWrites := db.tables.vaultWrites)
    ensures db.committed == old(db.committed)
    ensures ok <==> !Stops(f, pages, i)
    ensures ok ==> p == Progress(i + 1, i + 1) && After(f, i + 1, db, vault)
    ensures !ok ==> p == ProgressAt(f, pages, i) && db.statements == f.statement + AuditsAt(f, pages, i)
  {
    ghost var w, n := f.write + i, f.statement + i;
    assert vault.writes == w && db.statements == n;
    var place := RelativePath(pages[i]);
    if place.None? { return false, Progress(i, i); }
    AdvancedStep(yaml, turnId, pages, now, files, audits, vault.files, db.tables.vaultWrites, i);
    var replaced;
    ok, replaced := WritePageAndAudit(db, vault, yaml, turnId, pages[i], place.value, now);
    p := Progress(if ok then i + 1 else i, if replaced then i + 1 else i);
  }

  lemma AdvancedStart(
      yaml: Yaml, turnId: string, pages: seq<Page>, now: Time, files: map<string, string>, audits: seq<VaultWrite>)
    ensures Advanced(yaml, turnId, pages, now, files, audits, files, audits, Progress(0, 0))
  {
    assert audits == audits + AuditRows(turnId, Plan(pages[..0])[..0], now);
  }

  /** Writes page after page, auditing each one after its file is in place. */
  method WriteAndAudit(db: CampaignDb, vault: MasterVault, yaml: Yaml, turnId: string, pages: seq<Page>, now: Time)
    returns (ok: bool, p: Progress)
    modifies db, vault
    ensures Advanced(yaml, turnId, pages, now, old(vault.files), old(db.tables.vaultWrites),
                     vault.files, db.tables.vaultWrites, p)
    ensures db.tables == old(db.tables).(vaultWrites := db.tables.vaultWrites)
    ensures db.committed == old(db.committed)
    ensures p == ProgressOf(old(FaultsOf(db, vault)), pages)
    ensures ok <==> p.audited == |pages|
    ensures db.statements == old(db.statements) + AuditStatements(old(FaultsOf(db, vault)), pages)
  {
    ghost var f := FaultsOf(db, vault);
    p := Progress(0, 0);
    ok := true;
    AdvancedStart(yaml, turnId, pages, now, vault.files, db.tables.vaultWrites);
    for i := 0 to |pages|
      invariant ok && p == Progress(i, i)
      invariant Advanced(yaml, turnId, pages, now, old(vault.files), old(db.tables.vaultWrites),
                         vault.files, db.tables.vaultWrites, p)
      invariant db.tables == old(db.tables).(vaultWrites := db.tables.vaultWrites)
      invariant db.committed == old(db.committed)
      invariant After(f, i, db, vault)
      invariant FirstStop(f, pages) == StopFrom(f, pages, i)
    {
      ok, p := WriteNext(db, vault, yaml, turnId, pages, i, now, f, old(vault.files), old(db.tables.vaultWrites));
      if !ok { return; }
    }
  }

  // ---------------------------------------------------------------- derived indices

  /** The two derived read layers. */
  class DerivedIndices {
    const fts: FtsIndex.Index
    const graph: VaultGraph.VaultGraph

    constructor (fts: FtsIndex.Index, graph: VaultGraph.VaultGraph)
      ensures this.fts == fts && this.graph == graph
    {
      this.fts, this.graph := fts, graph;
    }

    method UpdateFts(pages: seq<Page>)
      requires Placed(pages)
      modifies fts
      ensures fts.rows == FtsIndex.AllIndexed(old(fts.rows), Plan(pages))
    {
      ghost var plan := Plan(pages);
      for i := 0 to |pages|
        invariant fts.rows == FtsIndex.AllIndexed(old(fts.rows), plan[..i])
      {
        assert plan[..i + 1][..i] == plan[..i];
        var path := RelativePath(pages[i]).value;
        if pages[i].front.visibility.GmOnly? {
          fts.RemovePage(path);
        } else {
          fts.IndexPage(path, pages[i].body);
        }
      }
      assert plan[..|plan|] == plan;
    }

    method UpdateGraph(pages: seq<Page>)
      modifies graph
      ensures graph.graph == VaultGraph.StarsAdded(old(graph.graph), GraphHistory.VisibleStars(pages))
    {
      for i := 0 to |pages|
        invariant graph.graph == VaultGraph.StarsAdded(old(graph.graph), GraphHistory.VisibleStars(pages[..i]))
      {
        assert pages[..i + 1][..i] == pages[..i];
        if pages[i].front.visibility.GmOnly? { continue; }
        var star := VaultGraph.PageStar(pages[i]);
        VaultGraph.StarsAddedSnoc(old(graph.graph), GraphHistory.VisibleStars(pages[..i]), star);
        graph.UpdatePage(star);
      }
      assert pages[..|pages|] == pages;
    }
  }

  // ---------------------------------------------------------------- the vault half of a close

  /**
   How the vault half can fail: with the turn marked for repair, with the mark lost, or with the sync warning
   lost.
   */
  datatype VaultFailure = RepairMarked | RepairLost | WarningLost

  datatype VaultOutcome = Synced | SyncFailed | Failed(why: VaultFailure)

  /** Re-marks the turn for repair and commits; `ok` is whether the engine let both happen. */
  method MarkForRepair(db: CampaignDb, rec: TurnRecord, ghost c: Course) returns (ok: bool)
    requires c.next == db.statements && c.failing == db.failing
    modifies db
    ensures db.tables ==
            if c.NoteRead() then old(db.tables).(turns := Upsert(old(db.tables.turns), RepairRecord(rec)))
            else old(db.tables)
    ensures ok <==> c.NoteStored()
    ensures db.committed == if ok then db.tables else old(db.committed)
  {
    ok := db.UpsertTurn(RepairRecord(rec));
    if ok { ok := db.Commit(); }
  }

  /** A failed sync keeps the turn complete and notes the warning, unless the engine fails then. */
  method FinishSync(db: CampaignDb, rec: TurnRecord, syncError: Option<string>, ghost c: Course)
    returns (outcome: VaultOutcome)
    requires c.kept && c.next == db.statements && c.failing == db.failing
    modifies db
    ensures outcome == VaultResult(c, syncError)
    ensures db.tables == old(db.tables).(turns := TurnsAfter(c, syncError, old(db.tables.turns), rec))
    ensures db.committed == if outcome.SyncFailed? then db.tables else old(db.committed)
  {
    if syncError.None? { return Synced; }
    var ok := db.SetSyncWarning(rec.turnId, syncError.value);
    if ok { ok := db.Commit(); }
    outcome := if ok then SyncFailed else Failed(WarningLost);
  }

  /**
   How the vault half ends. The repair mark is lost exactly when the writes are not kept and one of
   the two statements after them fails.
   */
  function VaultResult(c: Course, syncError: Option<string>): VaultOutcome {
    if !c.kept then Failed(if c.NoteStored() then RepairMarked else RepairLost)
    else if syncError.None? then Synced
    else if c.NoteStored() then SyncFailed
    else Failed(WarningLost)
  }

  /** What the connection reads of the turns after the vault half. */
  function TurnsAfter(c: Course, syncError: Option<string>, turns: seq<TurnRecord>, rec: TurnRecord): seq<TurnRecord> {
    if !c.NoteRead() then turns
    else if !c.kept then Upsert(turns, RepairRecord(rec))
    else if syncError.Some? then WithSyncWarning(turns, rec.turnId, syncError.value)
    else turns
  }

  /**
   When a page cannot be placed, written or audited, when the resolver cannot refresh or the
   commit fails, the turn is re-marked for repair.
   */
  method CommitWrites(
      db: CampaignDb, vault: MasterVault, yaml: Yaml, rec: TurnRecord, pages: seq<Page>, now: Time, refreshOk: bool,
      ghost c: Course)
    returns (ok: bool, recorded: bool, p: Progress)
    requires c == CourseOf(FaultsOf(db, vault), pages, refreshOk)
    modifies db, vault
    ensures Advanced(yaml, rec.turnId, pages, now, old(vault.files), old(db.tables.vaultWrites),
                     vault.files, db.tables.vaultWrites, p)
    ensures p == ProgressOf(old(FaultsOf(db, vault)), pages)
    ensures db.tables == old(db.tables).(turns := db.tables.turns, vaultWrites := db.tables.vaultWrites)
    ensures ok <==> c.kept
    ensures db.tables.turns == if ok then old(db.tables.turns) else TurnsAfter(c, None, old(db.tables.turns), rec)
    ensures recorded <==> ok || c.NoteStored()
    ensures db.committed == if recorded then db.tables else old(db.committed)
    ensures ok ==> p.audited == |pages| && db.statements == c.next
  {
    ok, p := WriteAndAudit(db, vault, yaml, rec.turnId, pages, now);
    recorded := true;
    if ok { ok := refreshOk; }
    if ok { ok := db.Commit(); }
    if !ok { recorded := MarkForRepair(db, rec, c); }
  }

  ghost predicate Indexed(pages: seq<Page>, rows: seq<FtsIndex.Row>, graph: VaultGraph.Graph,
                          rows': seq<FtsIndex.Row>, graph': VaultGraph.Graph)
  {
    && Placed(pages)
    && rows' == FtsIndex.AllIndexed(rows, Plan(pages))
    && graph' == VaultGraph.StarsAdded(graph, GraphHistory.VisibleStars(pages))
  }

  /** The derived indices move only behind kept writes. */
  predicate MovesIndices(outcome: VaultOutcome) {
    match outcome case Failed(why) => why.WarningLost? case _ => true
  }

  /** The derived indices after the vault half: moved by the whole plan once it was audited, or not at all. */
  ghost predicate IndicesFollow(
      moved: bool, pages: seq<Page>, p: Progress, rows: seq<FtsIndex.Row>, graph: VaultGraph.Graph,
      rows': seq<FtsIndex.Row>, graph': VaultGraph.Graph)
  {
    if moved then p.audited == |pages| && Indexed(pages, rows, graph, rows', graph')
    else rows' == rows && graph' == graph
  }

  /** What the vault half leaves in the working copy and in the committed store, given those before it. */
  ghost predicate VaultDone(
      before: Tables, storedBefore: Tables, rec: TurnRecord, c: Course, syncError: Option<string>,
      working: Tables, stored: Tables)
  {
    && working == before.(turns := TurnsAfter(c, syncError, before.turns, rec), vaultWrites := working.vaultWrites)
    && before.vaultWrites <= working.vaultWrites
    && stored == match VaultResult(c, syncError)
                 case Failed(RepairLost) => storedBefore
                 case Failed(WarningLost) => before.(vaultWrites := working.vaultWrites)
                 case _ => working
  }

  /** The vault half of a close: write, audit, index, sync. */
  method ApplyVaultWrites(
      db: CampaignDb, vault: MasterVault, indices: DerivedIndices, yaml: Yaml,
      rec: TurnRecord, pages: seq<Page>, now: Time, refreshOk: bool, syncError: Option<string>)
    returns (outcome: VaultOutcome, p: Progress)
    requires pages != []
    modifies db, vault, indices.fts, indices.graph
    ensures outcome == VaultResult(CourseOf(old(FaultsOf(db, vault)), pages, refreshOk), syncError)
    ensures p == ProgressOf(old(FaultsOf(db, vault)), pages)
    ensures Advanced(yaml, rec.turnId, pages, now, old(vault.files), old(db.tables.vaultWrites),
                     vault.files, db.tables.vaultWrites, p)
    ensures VaultDone(old(db.tables), old(db.committed), rec, CourseOf(old(FaultsOf(db, vault)), pages, refreshOk),
                      syncError, db.tables, db.committed)
    ensures IndicesFollow(MovesIndices(outcome), pages, p, old(indices.fts.rows), old(indices.graph.graph),
                          indices.fts.rows, indices.graph.graph)
  {
    ghost var c := CourseOf(FaultsOf(db, vault), pages, refreshOk);
    var ok, recorded;
    ok, recorded, p := CommitWrites(db, vault, yaml, rec, pages, now, refreshOk, c);
    if !ok { return Failed(if recorded then RepairMarked else RepairLost), p; }
    assert pages[..p.written] == pages;
    indices.UpdateFts(pages);
    indices.UpdateGraph(pages);
    outcome := FinishSync(db, rec, syncError, c);
  }

  datatype CloseOutcome = Completed(record: TurnRecord) | CloseFailed | VaultFailed(why: VaultFailure)

  /**
   What a close leaves behind when its transaction was committed: in the working copy every bundle
   row, some audit rows and the turn as it settled, and in the committed store as much of that as
   the last commit reached.
   */
  ghost predicate Settled(
      t: Tables, b: Bundle, now: Time, outcome: CloseOutcome, syncError: Option<string>, working: Tables,
      stored: Tables)
  {
    var c := Closed(t, b, now);
    var warned := if syncError.Some? then WithSyncWarning(c.turns, b.turn.turnId, syncError.value) else c.turns;
    var repaired := Upsert(c.turns, RepairRecord(CompletedRecord(b, now)));
    && working == c.(turns := working.turns, vaultWrites := working.vaultWrites)
    && c.vaultWrites <= working.vaultWrites
    && match outcome
       case Completed(rec) =>
         && rec == CompletedRecord(b, now) && stored == working
         && (working.turns == c.turns || working.turns == warned)
       case VaultFailed(RepairMarked) => stored == working && working.turns == repaired
       case VaultFailed(RepairLost) => stored == c && (working.turns == c.turns || working.turns == repaired)
       case VaultFailed(WarningLost) =>
         && stored == c.(vaultWrites := working.vaultWrites)
         && (working.turns == c.turns || working.turns == warned)
       case CloseFailed => false
  }

  function CloseOutcomeOf(rec: TurnRecord, result: VaultOutcome): CloseOutcome {
    match result case Failed(why) => VaultFailed(why) case _ => Completed(rec)
  }

  lemma VaultDoneSettles(
      t: Tables, b: Bundle, now: Time, c: Course, syncError: Option<string>, working: Tables, stored: Tables)
    requires VaultDone(Closed(t, b, now), Closed(t, b, now), CompletedRecord(b, now), c, syncError, working, stored)
    ensures Settled(t, b, now, CloseOutcomeOf(CompletedRecord(b, now), VaultResult(c, syncError)), syncError,
                    working, stored)
  {
  }

  /** How the steps behind the commit end; without pages there are none. */
  function CloseResult(c: Course, rec: TurnRecord, pages: seq<Page>, syncError: Option<string>): CloseOutcome {
    if pages == [] then Completed(rec) else CloseOutcomeOf(rec, VaultResult(c, syncError))
  }

  function CloseTurns(
      c: Course, rec: TurnRecord, pages: seq<Page>, syncError: Option<string>, turns: seq<TurnRecord>):
    seq<TurnRecord>
  {
    if pages == [] then turns else TurnsAfter(c, syncError, turns, rec)
  }

  lemma NothingPlanned(
      yaml: Yaml, t: Tables, b: Bundle, now: Time, syncError: Option<string>, files: map<string, string>,
      rows: seq<FtsIndex.Row>, graph: VaultGraph.Graph)
    ensures Advanced(yaml, b.turn.turnId, [], now, files, t.vaultWrites, files, t.vaultWrites, Progress(0, 0))
    ensures Indexed([], rows, graph, rows, graph)
    ensures Settled(t, b, now, Completed(CompletedRecord(b, now)), syncError, Closed(t, b, now), Closed(t, b, now))
  {
    assert Plan([]) == [] && AuditRows(b.turn.turnId, [], now) == [];
    assert t.vaultWrites + [] == t.vaultWrites;
  }

  predicate MovesIndicesOf(outcome: CloseOutcome) {
    match outcome
    case Completed(_) => true
    case VaultFailed(why) => why.WarningLost?
    case CloseFailed => false
  }

  /** What the steps behind the commit leave in the database. */
  ghost predicate Finished(
      c: Course, t: Tables, b: Bundle, now: Time, pages: seq<Page>, syncError: Option<string>,
      outcome: CloseOutcome, working: Tables, stored: Tables)
  {
    && outcome == CloseResult(c, CompletedRecord(b, now), pages, syncError)
    && Settled(t, b, now, outcome, syncError, working, stored)
    && working.turns == CloseTurns(c, CompletedRecord(b, now), pages, syncError, Closed(t, b, now).turns)
    && CanonAfter(c, b.turn, pages, working.turns, stored.turns)
  }

  /** The steps behind the commit. */
  method FinishClose(
      db: CampaignDb, ghost t: Tables, b: Bundle, now: Time, vault: MasterVault, indices: DerivedIndices,
      yaml: Yaml, pages: seq<Page>, refreshOk: bool, syncError: Option<string>, ghost f: Faults)
    returns (outcome: CloseOutcome, p: Progress)
    requires db.tables == db.committed == Closed(t, b, now) && f == FaultsOf(db, vault)
    modifies db, vault, indices.fts, indices.graph
    ensures !outcome.CloseFailed? && p == ProgressOf(f, pages)
    ensures Finished(CourseOf(f, pages, refreshOk), t, b, now, pages, syncError, outcome, db.tables, db.committed)
    ensures Advanced(yaml, b.turn.turnId, pages, now, old(vault.files), t.vaultWrites,
                     vault.files, db.tables.vaultWrites, p)
    ensures IndicesFollow(MovesIndicesOf(outcome), pages, p, old(indices.fts.rows), old(indices.graph.graph),
                          indices.fts.rows, indices.graph.graph)
  {
    var rec := CompletedRecord(b, now);
    ghost var c := CourseOf(f, pages, refreshOk);
    if pages == [] {
      outcome, p := Completed(rec), Progress(0, 0);
      NothingPlanned(yaml, t, b, now, syncError, vault.files, indices.fts.rows, indices.graph.graph);
    } else {
      var result;
      result, p := ApplyVaultWrites(db, vault, indices, yaml, rec, pages, now, refreshOk, syncError);
      outcome := CloseOutcomeOf(rec, result);
      VaultDoneSettles(t, b, now, c, syncError, db.tables, db.committed);
    }
    LeavesCanonExactly(c, t, b, now, pages, syncError, db.tables, db.committed);
  }

  /**
   Commit first; only a committed turn reaches the vault. `f` is what the engine and the disk fail
   after the commit.
   */
  method CloseTurn(
      db: CampaignDb, b: Bundle, now: Time, sweepClean: bool, vault: MasterVault, indices: DerivedIndices,
      yaml: Yaml, pages: seq<Page>, refreshOk: bool, syncError: Option<string>)
    returns (outcome: CloseOutcome, p: Progress)
    modifies db, vault, indices.fts, indices.graph
    ensures outcome.CloseFailed? <==> !Commits(db.failing, old(db.statements), old(db.tables), b, sweepClean)
    ensures outcome.CloseFailed? ==> db.tables == db.committed == old(db.committed) && vault.files == old(vault.files)
    ensures !outcome.CloseFailed? ==>
      var f := Later(old(FaultsOf(db, vault)), InsertStatements(b) + 1);
      && p == ProgressOf(f, pages)
      && Finished(CourseOf(f, pages, refreshOk), old(db.tables), b, now, pages, syncError, outcome,
                  db.tables, db.committed)
      && Advanced(yaml, b.turn.turnId, pages, now, old(vault.files), old(db.tables.vaultWrites),
                  vault.files, db.tables.vaultWrites, p)
    ensures !outcome.CloseFailed? ==>
      && BundleStored(old(db.tables), b, db.committed)
      && TurnStored(old(db.tables), b.turn, now,
                    if outcome == VaultFailed(RepairMarked) then NeedsVaultRepair else Complete,
                    if outcome.Completed? && pages != [] then syncError else None, db.committed)
      && Audited(old(db.tables.vaultWrites), b.turn.turnId, pages, now, p.audited, db.tables.vaultWrites)
    ensures IndicesFollow(MovesIndicesOf(outcome), pages, p, old(indices.fts.rows), old(indices.graph.graph),
                          indices.fts.rows, indices.graph.graph)
  {
    ghost var before, f := db.tables, Later(FaultsOf(db, vault), InsertStatements(b) + 1);
    var ok := CommitTurn(db, b, now, sweepClean);
    if !ok { return CloseFailed, Progress(0, 0); }
    outcome, p := FinishClose(db, before, b, now, vault, indices, yaml, pages, refreshOk, syncError, f);
    FinishedStores(CourseOf(f, pages, refreshOk), before, b, now, pages, syncError, outcome, db.tables, db.committed);
    AdvancedAudits(yaml, b.turn.turnId, pages, now, old(vault.files), before.vaultWrites,
                   vault.files, db.tables.vaultWrites, p);
  }

  lemma AdvancedAudits(
      yaml: Yaml, turnId: string, pages: seq<Page>, now: Time, files: map<string, string>, audits: seq<VaultWrite>,
      files': map<string, string>, audits': seq<VaultWrite>, p: Progress)
    requires Advanced(yaml, turnId, pages, now, files, audits, files', audits', p)
    ensures Audited(audits, turnId, pages, now, p.audited, audits')
  {
    var plan := Plan(pages[..p.written]);
    forall i | 0 <= i < p.audited
      ensures audits'[|audits| + i] == VaultWrite(turnId, RelativePath(pages[i]).value, now)
    {
      assert plan[..p.audited][i] == plan[i] == FtsIndex.Write(RelativePath(pages[i]).value, pages[i]);
    }
  }

  lemma CompletedStored(t: Tables, b: Bundle, now: Time, s: Tables)
    requires s.turns == Upsert(t.turns, CompletedRecord(b, now))
    ensures TurnStored(t, b.turn, now, Complete, None, s)
  {
    assert CompletedRecord(b, now) in s.turns;
  }

  lemma RepairedStored(t: Tables, b: Bundle, now: Time, s: Tables)
    requires s.turns == Upsert(Upsert(t.turns, CompletedRecord(b, now)), RepairRecord(CompletedRecord(b, now)))
    ensures TurnStored(t, b.turn, now, NeedsVaultRepair, None, s)
  {
    assert RepairRecord(CompletedRecord(b, now)) in s.turns;
  }

  lemma WarnedStored(t: Tables, b: Bundle, now: Time, warning: string, s: Tables)
    requires s.turns == WithSyncWarning(Upsert(t.turns, CompletedRecord(b, now)), b.turn.turnId, warning)
    ensures TurnStored(t, b.turn, now, Complete, Some(warning), s)
  {
    var rec, turns := CompletedRecord(b, now), Upsert(t.turns, CompletedRecord(b, now));
    assert turns[|turns| - 1] == rec && s.turns[|turns| - 1] == rec.(syncWarning := Some(warning));
    WarnedRows(turns, b.turn.turnId, warning);
    forall r: TurnRecord | r.turnId != b.turn.turnId ensures r in turns <==> r in t.turns {}
  }

  /** A warning changes the rows of its turn in nothing else. */
  lemma WarnedRows(turns: seq<TurnRecord>, turnId: string, warning: string)
    ensures var warned := WithSyncWarning(turns, turnId, warning);
            && (forall r :: r in warned && r.turnId == turnId ==>
                  exists x :: x in turns && x.turnId == turnId && r == x.(syncWarning := Some(warning)))
            && (forall r: TurnRecord :: r.turnId != turnId ==> (r in warned <==> r in turns))
  {
    var warned := WithSyncWarning(turns, turnId, warning);
    forall r: TurnRecord | r.turnId != turnId && r in turns ensures r in warned {
      var i :| 0 <= i < |turns| && turns[i] == r;
      assert warned[i] == r;
    }
  }

  /** What a close whose transaction was committed leaves in the committed store. */
  lemma FinishedStores(
      c: Course, t: Tables, b: Bundle, now: Time, pages: seq<Page>, syncError: Option<string>,
      outcome: CloseOutcome, working: Tables, stored: Tables)
    requires Finished(c, t, b, now, pages, syncError, outcome, working, stored)
    ensures BundleStored(t, b, stored)
    ensures TurnStored(t, b.turn, now, if outcome == VaultFailed(RepairMarked) then NeedsVaultRepair else Complete,
                       if outcome.Completed? && pages != [] then syncError else None, stored)
  {
    match outcome
    case VaultFailed(RepairMarked) => RepairedStored(t, b, now, stored);
    case Completed(_) =>
      if pages != [] && syncError.Some? {
        WarnedStored(t, b, now, syncError.value, stored);
      } else {
        CompletedStored(t, b, now, stored);
      }
    case _ => CompletedStored(t, b, now, stored);
  }

  // ---------------------------------------------------------------- whether the turn is canonical

  ghost predicate InCanon(turns: seq<TurnRecord>, campaign: string, id: string) {
    exists r :: r in Canon(turns, campaign) && r.turnId == id
  }

  lemma CompletedIsCanon(turns: seq<TurnRecord>, rec: TurnRecord)
    requires rec.status.Complete? && rec in turns
    ensures InCanon(turns, rec.campaign, rec.turnId)
  {
    CanonMember(turns, rec.campaign, rec);
  }

  lemma RepairedIsNotCanon(turns: seq<TurnRecord>, rec: TurnRecord, campaign: string)
    requires !rec.status.Complete?
    ensures !InCanon(Upsert(turns, rec), campaign, rec.turnId)
  {
    forall r | r in Canon(Upsert(turns, rec), campaign) ensures r.turnId != rec.turnId {
      CanonMember(Upsert(turns, rec), campaign, r);
    }
  }

  lemma WarnedIsCanon(turns: seq<TurnRecord>, rec: TurnRecord, warning: string)
    requires rec.status.Complete? && rec in turns
    ensures InCanon(WithSyncWarning(turns, rec.turnId, warning), rec.campaign, rec.turnId)
  {
    var i :| 0 <= i < |turns| && turns[i] == rec;
    assert WithSyncWarning(turns, rec.turnId, warning)[i] == rec.(syncWarning := Some(warning));
    CompletedIsCanon(WithSyncWarning(turns, rec.turnId, warning), rec.(syncWarning := Some(warning)));
  }

  /**
   Whether the turn is canonical after its close: the stored turn is out of canon exactly when the
   writes were not kept and neither statement of the re-mark failed; what the connection itself
   reads is out of canon exactly when the first of them did not fail.
   */
  ghost predicate CanonAfter(
      c: Course, turn: TurnRecord, pages: seq<Page>, working: seq<TurnRecord>, stored: seq<TurnRecord>)
  {
    && (!InCanon(stored, turn.campaign, turn.turnId) <==> pages != [] && !c.kept && c.NoteStored())
    && (!InCanon(working, turn.campaign, turn.turnId) <==> pages != [] && !c.kept && c.NoteRead())
  }

  /** Every close whose transaction was committed leaves the turn in or out of canon as CanonAfter says. */
  lemma LeavesCanonExactly(
      c: Course, t: Tables, b: Bundle, now: Time, pages: seq<Page>, syncError: Option<string>,
      working: Tables, stored: Tables)
    requires Settled(t, b, now, CloseResult(c, CompletedRecord(b, now), pages, syncError), syncError, working, stored)
    requires working.turns == CloseTurns(c, CompletedRecord(b, now), pages, syncError, Closed(t, b, now).turns)
    ensures CanonAfter(c, b.turn, pages, working.turns, stored.turns)
  {
    var turns, rec := Closed(t, b, now).turns, CompletedRecord(b, now);
    CompletedIsCanon(turns, rec);
    RepairedIsNotCanon(turns, RepairRecord(rec), b.turn.campaign);
    if syncError.Some? { WarnedIsCanon(turns, rec, syncError.value); }
  }
}
