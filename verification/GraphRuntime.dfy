/** The runtime: the one caller that begins, closes and retcons turns, and moves the thread head. */
module GraphRuntime {
  import opened Basics
  import opened TurnTables
  import opened TurnHistory
  import opened CampaignRun
  import Retcon
  import Sorting
  import TurnClose
  import VaultPage

  /** The final checkpoint reference the runtime builds for a close. */
  function FinalRef(turnId: string, checkpoint: string, createdAt: Time): CheckpointRef {
    Entry(turnId, createdAt, Checkpoint(checkpoint, Final))
  }

  function InitialRecord(turnId: string, campaign: string, session: string, now: Time): TurnRecord {
    TurnRecord(turnId, campaign, session, NeedsVaultRepair, now, now, 1, None)
  }

  function PreNarrations(refs: seq<CheckpointRef>, turnId: string): seq<CheckpointRef> {
    if refs == [] then []
    else
      var front, last := PreNarrations(refs[..|refs| - 1], turnId), refs[|refs| - 1];
      if last.turnId == turnId && last.payload.kind.PreNarration? then front + [last] else front
  }

  /** The newest pre-narration checkpoint of the turn: every later row is another turn's or another kind's. */
  lemma {:induction false} NewestPreNarration(refs: seq<CheckpointRef>, turnId: string) returns (i: nat)
    requires PreNarrations(refs, turnId) != []
    ensures i < |refs| && refs[i] == PreNarrations(refs, turnId)[|PreNarrations(refs, turnId)| - 1]
    ensures refs[i].turnId == turnId && refs[i].payload.kind.PreNarration?
    ensures forall k :: i < k < |refs| ==> refs[k].turnId != turnId || !refs[k].payload.kind.PreNarration?
  {
    var n := |refs| - 1;
    i := n;
    if refs[n].turnId != turnId || !refs[n].payload.kind.PreNarration? {
      i := NewestPreNarration(refs[..n], turnId);
      assert forall k :: i < k < n ==> refs[..n][k] == refs[k];
    }
  }

  /** The close that leads from one state of the tables to another. */
  function EventOf(t: Tables, b: TurnClose.Bundle, now: Time, syncError: Option<string>, after: Tables): Event {
    var c := TurnClose.Closed(t, b, now);
    var repaired := Upsert(c.turns, TurnClose.RepairRecord(TurnClose.CompletedRecord(b, now)));
    Closed(b, now,
           if c.vaultWrites <= after.vaultWrites then after.vaultWrites[|c.vaultWrites|..] else [],
           after.turns != repaired,
           if after.turns == c.turns then None else syncError)
  }

  lemma RepairedDiffers(turns: seq<TurnRecord>, rec: TurnRecord, warning: string)
    requires rec.status.Complete? && rec in turns
    ensures Upsert(turns, TurnClose.RepairRecord(rec)) != turns
    ensures Upsert(turns, TurnClose.RepairRecord(rec)) != WithSyncWarning(turns, rec.turnId, warning)
  {
    var i :| 0 <= i < |turns| && turns[i] == rec;
    var repaired := Upsert(turns, TurnClose.RepairRecord(rec));
    assert rec !in repaired;
    var warned := WithSyncWarning(turns, rec.turnId, warning);
    assert warned[i] == rec.(syncWarning := Some(warning)) && warned[i] in warned;
    assert warned[i] !in repaired;
  }

  lemma EventLeads(t: Tables, b: TurnClose.Bundle, now: Time, syncError: Option<string>, after: Tables)
    requires var c := TurnClose.Closed(t, b, now);
             && after == c.(turns := after.turns, vaultWrites := after.vaultWrites)
             && c.vaultWrites <= after.vaultWrites
             && (|| after.turns == c.turns
                 || after.turns == Upsert(c.turns, TurnClose.RepairRecord(TurnClose.CompletedRecord(b, now)))
                 || (syncError.Some? && after.turns == WithSyncWarning(c.turns, b.turn.turnId, syncError.value)))
    ensures Apply(t, EventOf(t, b, now, syncError, after)) == after
    ensures var repaired :=
            Upsert(TurnClose.Closed(t, b, now).turns, TurnClose.RepairRecord(TurnClose.CompletedRecord(b, now)));
            EventOf(t, b, now, syncError, after).vaultOk <==> after.turns != repaired
  {
    var c := TurnClose.Closed(t, b, now);
    assert c.vaultWrites + after.vaultWrites[|c.vaultWrites|..] == after.vaultWrites;
  }

  /** What a settled close leaves, read and stored, is the outcome of a close event each. */
  lemma SettledIsEvent(
      t: Tables, b: TurnClose.Bundle, now: Time, outcome: TurnClose.CloseOutcome, syncError: Option<string>,
      working: Tables, stored: Tables)
    requires TurnClose.Settled(t, b, now, outcome, syncError, working, stored)
    ensures var seen, kept := EventOf(t, b, now, syncError, working), EventOf(t, b, now, syncError, stored);
            && Apply(t, seen) == working && Apply(t, kept) == stored
            && (kept.vaultOk <==> outcome != TurnClose.VaultFailed(TurnClose.RepairMarked))
            && (outcome == TurnClose.VaultFailed(TurnClose.RepairLost) ==> kept.warning.None? && kept.audits == [])
            && (outcome == TurnClose.VaultFailed(TurnClose.WarningLost) ==> seen.vaultOk && kept.warning.None?)
  {
    var c, rec := TurnClose.Closed(t, b, now), TurnClose.CompletedRecord(b, now);
    assert rec in c.turns;
    RepairedDiffers(c.turns, rec, if syncError.Some? then syncError.value else "");
    EventLeads(t, b, now, syncError, working);
    EventLeads(t, b, now, syncError, stored);
  }

  /** A close as events: what the connection reads of it afterwards, and what was stored of it. */
  ghost predicate ClosesAs(
      c: TurnClose.Course, t: Tables, b: TurnClose.Bundle, now: Time, pages: seq<VaultPage.Page>,
      syncError: Option<string>, outcome: TurnClose.CloseOutcome, seen: Event, kept: Event,
      working: Tables, stored: Tables)
  {
    && outcome == TurnClose.CloseResult(c, TurnClose.CompletedRecord(b, now), pages, syncError)
    && Apply(t, seen) == working && Apply(t, kept) == stored
    && seen.Closed? && seen.now == now && seen.bundle == b
    && kept.Closed? && kept.now == now && kept.bundle == b
    && (kept.vaultOk <==> pages == [] || c.kept || !c.NoteStored())
    && (outcome.Completed? || outcome == TurnClose.VaultFailed(TurnClose.RepairMarked) ==> seen == kept)
    && (outcome == TurnClose.VaultFailed(TurnClose.RepairLost) ==> kept.warning.None? && kept.audits == [])
    && (outcome == TurnClose.VaultFailed(TurnClose.WarningLost) ==> seen.vaultOk && kept.warning.None?)
  }

  /** How a close ends: refused with the committed store as it was, or as two close events. */
  ghost predicate Ended(
      b: TurnClose.Bundle, now: Time, sweepClean: bool, pages: seq<VaultPage.Page>, refreshOk: bool,
      syncError: Option<string>, f: TurnClose.Faults, t: Tables, storedBefore: Tables,
      outcome: TurnClose.CloseOutcome, seen: Event, kept: Event, working: Tables, stored: Tables)
  {
    var later := TurnClose.Later(f, TurnClose.InsertStatements(b) + 1);
    && (outcome.CloseFailed? <==> !TurnClose.Commits(f.engine, f.statement, t, b, sweepClean))
    && (outcome.CloseFailed? ==> working == stored == storedBefore)
    && (!outcome.CloseFailed? ==>
          ClosesAs(TurnClose.CourseOf(later, pages, refreshOk), t, b, now, pages, syncError, outcome, seen, kept,
                   working, stored))
  }

  lemma FinishedCloses(
      c: TurnClose.Course, t: Tables, b: TurnClose.Bundle, now: Time, pages: seq<VaultPage.Page>,
      syncError: Option<string>, outcome: TurnClose.CloseOutcome, working: Tables, stored: Tables)
    requires TurnClose.Finished(c, t, b, now, pages, syncError, outcome, working, stored)
    ensures ClosesAs(c, t, b, now, pages, syncError, outcome, EventOf(t, b, now, syncError, working),
                     EventOf(t, b, now, syncError, stored), working, stored)
  {
    SettledIsEvent(t, b, now, outcome, syncError, working, stored);
  }

  function WithFinal(bundle: TurnClose.Bundle, checkpoint: string, createdAt: Time): TurnClose.Bundle {
    bundle.(checkpoints := [FinalRef(bundle.turn.turnId, checkpoint, createdAt)])
  }

  function PreNarrationRef(turnId: string, checkpoint: string, createdAt: Time): CheckpointRef {
    Entry(turnId, createdAt, Checkpoint(checkpoint, PreNarration))
  }

  /** What the connection reads of a session page, as an event. */
  function SessionEvent(
      c: TurnClose.Course, rec: TurnRecord, now: Time, syncError: Option<string>, before: Tables, after: Tables): Event
  {
    SessionWritten(
      rec, now, if before.vaultWrites <= after.vaultWrites then after.vaultWrites[|before.vaultWrites|..] else [],
      c.kept || !c.NoteRead(), if c.kept && c.NoteRead() then syncError else None)
  }

  /** A failed page takes the turn's record back to repair; a lost mark stores nothing of it. */
  ghost predicate SessionSeen(
      c: TurnClose.Course, rec: TurnRecord, now: Time, syncError: Option<string>, before: Tables,
      storedBefore: Tables, seen: Event, working: Tables, stored: Tables)
  {
    && seen == SessionEvent(c, rec, now, syncError, before, working)
    && working == Apply(before, seen)
    && stored == match TurnClose.VaultResult(c, syncError)
                 case Failed(RepairLost) => storedBefore
                 case Failed(WarningLost) => Apply(before, seen.(warning := None))
                 case _ => working
  }

  lemma SessionIsSeen(
      c: TurnClose.Course, rec: TurnRecord, now: Time, syncError: Option<string>, before: Tables,
      storedBefore: Tables, working: Tables, stored: Tables)
    requires TurnClose.VaultDone(before, storedBefore, rec, c, syncError, working, stored)
    ensures SessionSeen(c, rec, now, syncError, before, storedBefore,
                        SessionEvent(c, rec, now, syncError, before, working), working, stored)
  {
    assert before.vaultWrites + working.vaultWrites[|before.vaultWrites|..] == working.vaultWrites;
  }

  /** A failed page leaves one record of the turn, marked for repair; a failed sync changes its warning only. */
  ghost predicate SessionStored(
      t: Tables, storedBefore: Tables, rec: TurnRecord, outcome: TurnClose.VaultOutcome, syncError: Option<string>,
      s: Tables)
  {
    match outcome
    case Failed(RepairLost) => s == storedBefore
    case Failed(RepairMarked) =>
      && s == t.(turns := s.turns, vaultWrites := s.vaultWrites)
      && (exists r :: r in s.turns && r.turnId == rec.turnId)
      && (forall r :: r in s.turns && r.turnId == rec.turnId ==>
            r == rec.(status := NeedsVaultRepair, syncWarning := None))
      && (forall r: TurnRecord :: r.turnId != rec.turnId ==> (r in s.turns <==> r in t.turns))
    case _ =>
      && s == t.(turns := s.turns, vaultWrites := s.vaultWrites) && |s.turns| == |t.turns|
      && (forall i :: 0 <= i < |t.turns| ==>
            s.turns[i] == if outcome.SyncFailed? && t.turns[i].turnId == rec.turnId
                            then t.turns[i].(syncWarning := syncError) else t.turns[i])
  }

  lemma SessionStores(
      c: TurnClose.Course, rec: TurnRecord, now: Time, syncError: Option<string>, before: Tables,
      storedBefore: Tables, seen: Event, working: Tables, stored: Tables)
    requires SessionSeen(c, rec, now, syncError, before, storedBefore, seen, working, stored)
    ensures SessionStored(before, storedBefore, rec, TurnClose.VaultResult(c, syncError), syncError, stored)
  {
    if TurnClose.VaultResult(c, syncError) == TurnClose.VaultOutcome.Failed(TurnClose.RepairMarked) {
      assert rec.(status := NeedsVaultRepair, syncWarning := None) in stored.turns;
    }
  }

  datatype DiscardOutcome = DiscardDone | NoPreNarration | NoTurnRecord | DiscardFault

  /** The turn has one record, the old one discarded now and without a warning; nothing else changed. */
  ghost predicate SetAsideStored(t: Tables, turnId: string, now: Time, s: Tables) {
    && s == t.(turns := s.turns) && GetTurn(t.turns, turnId).Some?
    && (exists r :: r in s.turns && r.turnId == turnId)
    && (forall r :: r in s.turns && r.turnId == turnId ==>
          r == GetTurn(t.turns, turnId).value.(status := TurnStatus.Discarded, completedAt := now, syncWarning := None))
    && (forall r: TurnRecord :: r.turnId != turnId ==> (r in s.turns <==> r in t.turns))
  }

  lemma DiscardStored(t: Tables, turnId: string, now: Time)
    requires GetTurn(t.turns, turnId).Some?
    ensures SetAsideStored(t, turnId, now, Apply(t, SetAside(turnId, TurnStatus.Discarded, now)))
  {
    var stored := GetTurn(t.turns, turnId).value;
    var aside := stored.(status := TurnStatus.Discarded, completedAt := now, syncWarning := None);
    assert aside in Apply(t, SetAside(turnId, TurnStatus.Discarded, now)).turns;
  }

  predicate NextTwoWork(failing: iset<nat>, at: nat) {
    at !in failing && at + 1 !in failing
  }

  class GraphRuntime {
    const db: CampaignDb
    const campaign: string
    const vault: TurnClose.MasterVault
    const indices: TurnClose.DerivedIndices
    const yaml: VaultPage.Yaml
    var threadHead: string

    constructor (db: CampaignDb, campaign: string, vault: TurnClose.MasterVault,
                 indices: TurnClose.DerivedIndices, yaml: VaultPage.Yaml, head: string)
      ensures this.db == db && this.campaign == campaign && this.vault == vault
      ensures this.indices == indices && this.yaml == yaml && threadHead == head
    {
      this.db, this.campaign, this.vault, this.indices := db, campaign, vault, indices;
      this.yaml, threadHead := yaml, head;
    }

    /** Upserts one turn and commits. */
    method StoreTurn(rec: TurnRecord) returns (ok: bool)
      modifies db
      ensures ok <==> NextTwoWork(db.failing, old(db.statements))
      ensures ok ==>
        db.tables == old(db.tables).(turns := Upsert(old(db.tables.turns), rec)) && db.committed == db.tables
      ensures !ok ==> db.committed == old(db.committed)
    {
      ok := db.UpsertTurn(rec);
      if ok { ok := db.Commit(); }
    }

    /** Creates the parent row of a turn unless one exists. */
    method EnsureTurnRecord(turnId: string, session: string, now: Time) returns (ok: bool)
      modifies db
      ensures ok ==> db.tables == Apply(old(db.tables), Began(InitialRecord(turnId, campaign, session, now)))
      ensures ok <==>
        GetTurn(old(db.tables.turns), turnId).Some? || NextTwoWork(db.failing, old(db.statements))
      ensures !ok ==> db.committed == old(db.committed)
      ensures ok && GetTurn(old(db.tables.turns), turnId).None? ==>
        && db.committed == db.tables && db.tables == old(db.tables).(turns := db.tables.turns)
        && (exists r :: r in db.tables.turns && r.turnId == turnId)
        && (forall r :: r in db.tables.turns && r.turnId == turnId ==>
              && r.campaign == campaign && r.session == session && r.status == NeedsVaultRepair
              && r.startedAt == now && r.completedAt == now && r.schemaVersion == 1 && r.syncWarning == None)
        && (forall r: TurnRecord :: r.turnId != turnId ==> (r in db.tables.turns <==> r in old(db.tables.turns)))
    {
      if GetTurn(db.tables.turns, turnId).Some? { return true; }
      ok := StoreTurn(InitialRecord(turnId, campaign, session, now));
      assert ok ==> InitialRecord(turnId, campaign, session, now) in db.tables.turns;
    }

    /**
     Closes the turn with the one final checkpoint the graph surfaced; without one nothing is
     written. `seen` is the close as this connection reads it afterwards, `stored` as the last
     commit left it; they differ only when a repair mark or a sync warning was lost.
     */
    method ResumeAndClose(
        bundle: TurnClose.Bundle, checkpoint: Option<string>, createdAt: Time, now: Time, sweepClean: bool,
        pages: seq<VaultPage.Page>, refreshOk: bool, syncError: Option<string>)
      returns (outcome: TurnClose.CloseOutcome, ghost seen: Event, ghost stored: Event)
      modifies this, db, vault, indices.fts, indices.graph
      ensures threadHead == match checkpoint case Some(c) => c case None => old(threadHead)
      ensures checkpoint.None? ==>
        outcome.CloseFailed? && db.tables == old(db.tables) && db.committed == old(db.committed)
      ensures checkpoint.Some? ==>
        Ended(WithFinal(bundle, checkpoint.value, createdAt), now, sweepClean, pages, refreshOk, syncError,
              old(TurnClose.FaultsOf(db, vault)), old(db.tables), old(db.committed), outcome, seen, stored,
              db.tables, db.committed)
      ensures !outcome.CloseFailed? ==>
        && checkpoint.Some? && |db.committed.checkpoints| == |old(db.tables.checkpoints)| + 1
        && old(db.tables.checkpoints) <= db.committed.checkpoints
        && var row := db.committed.checkpoints[|old(db.tables.checkpoints)|];
           && row.turnId == bundle.turn.turnId && row.order == createdAt
           && row.payload.id == checkpoint.value && row.payload.kind == Final
    {
      if checkpoint.None? {
        seen := Closed(bundle, now, [], false, None);
        return TurnClose.CloseFailed, seen, seen;
      }
      threadHead := checkpoint.value;
      var b := WithFinal(bundle, checkpoint.value, createdAt);
      outcome, seen, stored := Close(b, now, sweepClean, pages, refreshOk, syncError);
    }

    method Close(
        b: TurnClose.Bundle, now: Time, sweepClean: bool, pages: seq<VaultPage.Page>, refreshOk: bool,
        syncError: Option<string>)
      returns (outcome: TurnClose.CloseOutcome, ghost seen: Event, ghost stored: Event)
      modifies db, vault, indices.fts, indices.graph
      ensures Ended(b, now, sweepClean, pages, refreshOk, syncError, old(TurnClose.FaultsOf(db, vault)),
                    old(db.tables), old(db.committed), outcome, seen, stored, db.tables, db.committed)
      ensures !outcome.CloseFailed? ==>
        db.committed.checkpoints == old(db.tables.checkpoints) + b.checkpoints
    {
      ghost var before := db.tables;
      ghost var f := TurnClose.Later(TurnClose.FaultsOf(db, vault), TurnClose.InsertStatements(b) + 1);
      var p;
      outcome, p := TurnClose.CloseTurn(db, b, now, sweepClean, vault, indices, yaml, pages, refreshOk, syncError);
      seen := EventOf(before, b, now, syncError, db.tables);
      stored := EventOf(before, b, now, syncError, db.committed);
      if !outcome.CloseFailed? {
        FinishedCloses(TurnClose.CourseOf(f, pages, refreshOk), before, b, now, pages, syncError, outcome,
                       db.tables, db.committed);
      }
    }

    /** Records the checkpoint at which the narration of a turn starts; the graph must surface one. */
    method RecordPreNarration(turnId: string, checkpoint: Option<string>, now: Time) returns (ok: bool)
      modifies db
      ensures ok <==>
        && checkpoint.Some? && checkpoint.value !in CheckpointIds(old(db.tables.checkpoints))
        && NextTwoWork(db.failing, old(db.statements))
      ensures ok ==>
        && db.tables == Apply(old(db.tables), Checkpointed(PreNarrationRef(turnId, checkpoint.value, now), now))
        && db.committed == db.tables
        && db.tables == old(db.tables).(checkpoints := db.tables.checkpoints)
        && |db.tables.checkpoints| == |old(db.tables.checkpoints)| + 1
        && old(db.tables.checkpoints) <= db.tables.checkpoints
        && var row := db.tables.checkpoints[|old(db.tables.checkpoints)|];
           && row.turnId == turnId && row.order == now
           && row.payload.id == checkpoint.value && row.payload.kind == PreNarration
      ensures !ok ==> db.committed == old(db.committed)
    {
      if checkpoint.None? { return false; }
      ok := db.AppendCheckpoint(PreNarrationRef(turnId, checkpoint.value, now));
      if ok { ok := db.Commit(); }
    }

    /**
     Writes the page of a session that ended behind the close of its last turn. `seen` is what this
     connection reads of it afterwards.
     */
    method AuthorSession(
        rec: TurnRecord, page: VaultPage.Page, now: Time, refreshOk: bool, syncError: Option<string>)
      returns (outcome: TurnClose.VaultOutcome, ghost seen: Event)
      modifies db, vault, indices.fts, indices.graph
      ensures var c := TurnClose.CourseOf(old(TurnClose.FaultsOf(db, vault)), [page], refreshOk);
              && outcome == TurnClose.VaultResult(c, syncError)
              && SessionSeen(c, rec, now, syncError, old(db.tables), old(db.committed), seen, db.tables, db.committed)
      ensures SessionStored(old(db.tables), old(db.committed), rec, outcome, syncError, db.committed)
    {
      ghost var before, stored := db.tables, db.committed;
      ghost var c := TurnClose.CourseOf(TurnClose.FaultsOf(db, vault), [page], refreshOk);
      var p;
      outcome, p := TurnClose.ApplyVaultWrites(db, vault, indices, yaml, rec, [page], now, refreshOk, syncError);
      seen := SessionEvent(c, rec, now, syncError, before, db.tables);
      SessionIsSeen(c, rec, now, syncError, before, stored, db.tables, db.committed);
      SessionStores(c, rec, now, syncError, before, stored, seen, db.tables, db.committed);
    }

    /** Marks the stored turn discarded, whatever its status was. */
    method MarkDiscarded(turnId: string, now: Time) returns (outcome: DiscardOutcome)
      modifies db
      ensures outcome ==
              if GetTurn(old(db.tables.turns), turnId).None? then NoTurnRecord
              else if NextTwoWork(db.failing, old(db.statements)) then DiscardDone
              else DiscardFault
      ensures outcome.DiscardDone? ==>
        && db.tables == Apply(old(db.tables), SetAside(turnId, TurnStatus.Discarded, now)) && db.committed == db.tables
        && SetAsideStored(old(db.tables), turnId, now, db.tables)
      ensures outcome.NoTurnRecord? ==> db.tables == old(db.tables)
      ensures !outcome.DiscardDone? ==> db.committed == old(db.committed)
    {
      var existing := GetTurn(db.tables.turns, turnId);
      if existing.None? { return NoTurnRecord; }
      DiscardStored(db.tables, turnId, now);
      var ok := StoreTurn(existing.value.(status := TurnStatus.Discarded, completedAt := now, syncWarning := None));
      outcome := if ok then DiscardDone else DiscardFault;
    }

    /**
     Rewinds to the newest pre-narration checkpoint of the turn, then marks the turn discarded,
     whatever its status was. The rewind comes first and stays when there is no record to mark.
     */
    method DiscardIncompleteTurn(turnId: string, now: Time) returns (outcome: DiscardOutcome)
      modifies this, db
      ensures var refs := PreNarrations(old(db.tables.checkpoints), turnId);
              && threadHead == (if refs == [] then old(threadHead) else refs[|refs| - 1].payload.id)
              && outcome ==
                 if refs == [] then NoPreNarration
                 else if GetTurn(old(db.tables.turns), turnId).None? then NoTurnRecord
                 else if NextTwoWork(db.failing, old(db.statements)) then DiscardDone
                 else DiscardFault
      ensures outcome.DiscardDone? ==>
        && db.tables == Apply(old(db.tables), SetAside(turnId, TurnStatus.Discarded, now)) && db.committed == db.tables
        && SetAsideStored(old(db.tables), turnId, now, db.tables)
      ensures outcome.NoPreNarration? || outcome.NoTurnRecord? ==> db.tables == old(db.tables)
      ensures !outcome.DiscardDone? ==> db.committed == old(db.committed)
    {
      var refs := PreNarrations(db.tables.checkpoints, turnId);
      if refs == [] { return NoPreNarration; }
      threadHead := refs[|refs| - 1].payload.id;
      outcome := MarkDiscarded(turnId, now);
    }

    /** Confirms, then forks the thread from the checkpoint the retcon chose. */
    method ConfirmRetcon(selected: string, token: string, reason: string, auditId: string, now: Time)
      returns (r: Result<Retcon.Preview, Retcon.Refusal>)
      modifies this, db
      ensures r.Ok? ==>
        && db.tables == Apply(old(db.tables), Event.Retconned(campaign, selected, auditId, reason, now))
        && db.committed == db.tables && threadHead == r.value.priorCheckpoint
      ensures r.Err? ==> threadHead == old(threadHead) && db.committed == old(db.committed)
      ensures r == Retcon.ConfirmResult(
                     Retcon.PreviewOf(old(db.tables), campaign, selected), token == Retcon.Token(selected),
                     Retcon.TransactionFault(Retcon.Free(old(db.tables), old(db.inTransaction), auditId),
                                             db.failing, old(db.statements)))
      ensures r == Err(Retcon.CommitFault) ==>
        && db.inTransaction
        && db.tables == Apply(old(db.tables), Event.Retconned(campaign, selected, auditId, reason, now))
    {
      AppliedRetcon(db.tables, Event.Retconned(campaign, selected, auditId, reason, now));
      var service := new Retcon.RetconService(db, campaign);
      r := service.Confirm(selected, token, reason, auditId, now);
      if r.Ok? { threadHead := r.value.priorCheckpoint; }
    }
  }

  /** Every close of the run went through the runtime. */
  ghost predicate RuntimeRun(events: seq<Event>) {
    forall e :: e in events && e.Closed? ==>
      exists checkpoint, createdAt :: e.bundle.checkpoints == [FinalRef(e.bundle.turn.turnId, checkpoint, createdAt)]
  }

  lemma OneFinalFrame(b: TurnClose.Bundle, now: Time, checkpoint: string, createdAt: Time)
    requires b.checkpoints == [FinalRef(b.turn.turnId, checkpoint, createdAt)]
    ensures FrameOfBundle(b, now).finals == b.checkpoints
  {
    assert b.checkpoints[1..] == [] && Sorting.Sort(OrderBefore<Checkpoint>, b.checkpoints[1..]) == [];
    assert Finals(b.checkpoints) == b.checkpoints;
    assert RowsOf(b.checkpoints, b.turn.turnId) == b.checkpoints;
  }

  lemma {:induction false} DropKeepsOneFinal(stack: seq<Frame>, id: string)
    requires OneFinalEach(stack)
    ensures OneFinalEach(FrameDropped(stack, id))
  {
    if stack != [] { DropKeepsOneFinal(stack[..|stack| - 1], id); }
  }

  /** Over every run the runtime drives, each canonical turn has exactly one final checkpoint. */
  lemma {:induction false} RuntimeKeepsOneFinal(stack: seq<Frame>, campaign: string, events: seq<Event>)
    requires OneFinalEach(stack) && RuntimeRun(events)
    ensures OneFinalEach(StackRun(stack, campaign, events))
  {
    if events != [] {
      var front, last := events[..|events| - 1], events[|events| - 1];
      assert last in events;
      assert forall e :: e in front ==> e in events;
      RuntimeKeepsOneFinal(stack, campaign, front);
      if last.Closed? {
        var checkpoint, createdAt :|
          last.bundle.checkpoints == [FinalRef(last.bundle.turn.turnId, checkpoint, createdAt)];
        OneFinalFrame(last.bundle, last.now, checkpoint, createdAt);
      } else if last.SetAside? {
        DropKeepsOneFinal(StackRun(stack, campaign, front), last.id);
      } else if last.SessionWritten? {
        DropKeepsOneFinal(StackRun(stack, campaign, front), last.rec.turnId);
      }
    }
  }

  lemma RuntimeReaches(t: Tables, clock: Time, events: seq<Event>, campaign: string)
    requires Inv(t, clock) && LegalRun(t, clock, events) && RuntimeRun(events) && OneFinalEach(Stack(t, campaign))
    ensures Readable(Run(t, events)) && OneFinalEach(Stack(Run(t, events), campaign))
  {
    RunRefinesStack(t, clock, events, campaign);
    RuntimeKeepsOneFinal(Stack(t, campaign), campaign, events);
  }

  /**
   So in every state such a run reaches, a retcon is possible for every canonical turn but the
   first, and it rewinds to the final checkpoint of the turn that becomes the latest.
   */
  lemma RuntimeRewind(
      t: Tables, clock: Time, events: seq<Event>, s: Tables, campaign: string, i: nat, audit: RetconAudit)
    requires Inv(t, clock) && LegalRun(t, clock, events) && RuntimeRun(events) && OneFinalEach(Stack(t, campaign))
    requires s == Run(t, events) && i < |Stack(s, campaign)|
    ensures OneFinalEach(Stack(s, campaign))
    ensures var p := Retcon.PreviewOf(s, campaign, Stack(s, campaign)[i].turnId);
            && (p.Ok? <==> i > 0)
            && (p.Ok? ==>
                  && p.value.priorCheckpoint == Stack(s, campaign)[i - 1].finals[0].payload.id
                  && LatestTurnId(Retcon.WithRetcon(s, p.value.affected, audit), campaign, false)
                     == Some(Stack(s, campaign)[i - 1].turnId))
  {
    RuntimeReaches(t, clock, events, campaign);
    RewindIsLatestAfter(s, campaign, i, audit);
  }
}
