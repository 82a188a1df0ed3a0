/** Previewing and confirming a retcon: the selected turn and everything after it leave canon. */
module Retcon {
  import opened Basics
  import opened TurnTables
  import TurnHistory
  import Sorting

  datatype Blocked = NotInCampaign | NotComplete | NoPriorCheckpoint | NoSuffix

  datatype Preview = Preview(
    selected: string, affected: seq<string>, priorCheckpoint: string,
    transcriptCount: nat, rollCount: nat, vaultPaths: seq<string>, token: string)

  function CompletedFrom(turns: seq<TurnRecord>, start: Time): (r: seq<TurnRecord>)
    ensures forall t :: t in r <==> t in turns && t.completedAt >= start
  {
    if turns == [] then []
    else if turns[0].completedAt >= start then [turns[0]] + CompletedFrom(turns[1..], start)
    else CompletedFrom(turns[1..], start)
  }

  /** The selected turn and the later canonical turns of its campaign, oldest first. */
  function AffectedSuffix(turns: seq<TurnRecord>, campaign: string, selected: string): seq<TurnRecord> {
    match GetTurn(turns, selected)
    case None => []
    case Some(turn) =>
      if !IsCanonical(turn, campaign) then []
      else Sorting.Sort(CompletedBefore, CompletedFrom(SelectTurns(turns, campaign, false), turn.completedAt))
  }

  function IdsOf(turns: seq<TurnRecord>): (r: seq<string>)
    ensures |r| == |turns| && forall i :: 0 <= i < |r| ==> r[i] == turns[i].turnId
  {
    seq(|turns|, i requires 0 <= i < |turns| => turns[i].turnId)
  }

  function CountLines(rows: seq<TranscriptEntry>, ids: seq<string>): nat {
    if rows == [] then 0 else (if rows[0].turnId in ids then 1 else 0) + CountLines(rows[1..], ids)
  }

  function CountRolls(rows: seq<RollRow>, ids: seq<string>): nat {
    if rows == [] then 0
    else (if rows[0].turnId.Some? && rows[0].turnId.value in ids then 1 else 0) + CountRolls(rows[1..], ids)
  }

  function WritesOf(rows: seq<VaultWrite>, ids: seq<string>): (r: seq<VaultWrite>)
    ensures forall x :: x in r <==> x in rows && x.turnId in ids
  {
    if rows == [] then []
    else if rows[0].turnId in ids then [rows[0]] + WritesOf(rows[1..], ids)
    else WritesOf(rows[1..], ids)
  }

  /** Paths in the order they are first met. */
  function FirstMet(rows: seq<VaultWrite>): seq<string> {
    if rows == [] then []
    else
      var front, last := FirstMet(rows[..|rows| - 1]), rows[|rows| - 1].path;
      if last in front then front else front + [last]
  }

  /** Every path once, and no other path. */
  lemma {:induction false} FirstMetDistinct(rows: seq<VaultWrite>)
    ensures forall i, j :: 0 <= i < j < |FirstMet(rows)| ==> FirstMet(rows)[i] != FirstMet(rows)[j]
    ensures forall p :: p in FirstMet(rows) <==> exists r :: r in rows && r.path == p
  {
    if rows != [] {
      var front, last := rows[..|rows| - 1], rows[|rows| - 1];
      assert rows == front + [last];
      FirstMetDistinct(front);
      forall p ensures p in FirstMet(rows) <==> exists r :: r in rows && r.path == p {
        if p == last.path { assert last in rows; }
        if p in FirstMet(front) {
          var r :| r in front && r.path == p;
          assert r in rows;
        }
      }
    }
  }

  method VaultPaths(rows: seq<VaultWrite>) returns (paths: seq<string>)
    ensures paths == FirstMet(rows)
  {
    var seen: set<string> := {};
    paths := [];
    for i := 0 to |rows|
      invariant paths == FirstMet(rows[..i])
      invariant forall p :: p in seen <==> p in paths
    {
      assert rows[..i + 1][..i] == rows[..i];
      if rows[i].path !in seen {
        seen := seen + {rows[i].path};
        paths := paths + [rows[i].path];
      }
    }
    assert rows[..|rows|] == rows;
  }

  function Token(selected: string): string {
    "RETCON " + selected
  }

  function PreviewOf(t: Tables, campaign: string, selected: string): Result<Preview, Blocked> {
    match GetTurn(t.turns, selected)
    case None => Err(NotInCampaign)
    case Some(turn) =>
      if turn.campaign != campaign then Err(NotInCampaign)
      else if !turn.status.Complete? then Err(NotComplete)
      else
        match TurnHistory.PriorFinalCheckpoint(t, campaign, turn.completedAt, false)
        case None => Err(NoPriorCheckpoint)
        case Some(prior) =>
          var ids := IdsOf(AffectedSuffix(t.turns, campaign, selected));
          if ids == [] then Err(NoSuffix)
          else Ok(Preview(selected, ids, prior, CountLines(t.transcripts, ids), CountRolls(t.rolls, ids),
                          FirstMet(WritesOf(t.vaultWrites, ids)), Token(selected)))
  }

  /** The affected turns marked retconned, with one audit row. */
  function WithRetcon(t: Tables, ids: seq<string>, audit: RetconAudit): Tables {
    t.(turns := MarkedRetconned(t.turns, ids), retcons := t.retcons + [audit])
  }

  function AuditOf(campaign: string, p: Preview, auditId: string, reason: string, now: Time): RetconAudit {
    RetconAudit(auditId, campaign, p.selected, p.affected, p.priorCheckpoint, p.token, reason, now)
  }

  /** The turns of the preview are marked, one row says who took back what and why, and no other row changed. */
  ghost predicate RetconStored(
      t: Tables, campaign: string, selected: string, p: Preview, token: string, reason: string, auditId: string,
      now: Time, s: Tables)
  {
    && |s.turns| == |t.turns|
    && (forall i :: 0 <= i < |t.turns| ==>
          s.turns[i] == if t.turns[i].turnId in p.affected then t.turns[i].(status := Retconned) else t.turns[i])
    && |s.retcons| == |t.retcons| + 1 && t.retcons <= s.retcons
    && (var row := s.retcons[|t.retcons|];
        && row.retconId == auditId && row.campaign == campaign && row.selected == selected
        && row.affected == p.affected && row.priorCheckpoint == p.priorCheckpoint
        && row.token == token && row.reason == reason && row.createdAt == now)
    && s == t.(turns := s.turns, retcons := s.retcons)
  }

  lemma StoredRetcon(
      t: Tables, campaign: string, selected: string, p: Preview, reason: string, auditId: string, now: Time)
    requires PreviewOf(t, campaign, selected) == Ok(p)
    ensures RetconStored(t, campaign, selected, p, "RETCON " + selected, reason, auditId, now,
                         WithRetcon(t, p.affected, AuditOf(campaign, p, auditId, reason, now)))
  {
  }

  datatype Refusal = Vetoed(why: Blocked) | WrongToken | EngineFault | CommitFault

  /**
   How the transaction of a confirm fails, decided by what is known before it: whether BEGIN and the
   audit key are free, and which statements fail. The fourth statement is the commit.
   */
  ghost function TransactionFault(free: bool, failing: iset<nat>, from: nat): Option<Refusal> {
    if !free || !Quiet(failing, from, from + 3) then Some(EngineFault)
    else if from + 3 in failing then Some(CommitFault)
    else None
  }

  /** Which of its results a confirm has, for a preview, a token that is right or not, and a transaction. */
  function ConfirmResult(preview: Result<Preview, Blocked>, tokenRight: bool, fault: Option<Refusal>):
    Result<Preview, Refusal>
  {
    if preview.Err? then Err(Vetoed(preview.error))
    else if !tokenRight then Err(WrongToken)
    else if fault.Some? then Err(fault.value)
    else Ok(preview.value)
  }

  /** No transaction is open, and the audit id is new. */
  predicate Free(t: Tables, inTransaction: bool, auditId: string) {
    !inTransaction && auditId !in RetconIds(t.retcons)
  }

  class RetconService {
    const db: CampaignDb
    const campaign: string

    constructor (db: CampaignDb, campaign: string)
      ensures this.db == db && this.campaign == campaign
    {
      this.db, this.campaign := db, campaign;
    }

    method MakePreview(selected: string) returns (r: Result<Preview, Blocked>)
      ensures r == PreviewOf(db.tables, campaign, selected)
      ensures r.Ok? ==> r.value.token == Token(selected) && r.value.affected != []
    {
      var turn := GetTurn(db.tables.turns, selected);
      if turn.None? || turn.value.campaign != campaign { return Err(NotInCampaign); }
      if !turn.value.status.Complete? { return Err(NotComplete); }
      var prior := TurnHistory.PriorFinalCheckpoint(db.tables, campaign, turn.value.completedAt, false);
      if prior.None? { return Err(NoPriorCheckpoint); }
      var ids := IdsOf(AffectedSuffix(db.tables.turns, campaign, selected));
      if ids == [] { return Err(NoSuffix); }
      var paths := VaultPaths(WritesOf(db.tables.vaultWrites, ids));
      r := Ok(Preview(selected, ids, prior.value, CountLines(db.tables.transcripts, ids),
                      CountRolls(db.tables.rolls, ids), paths, Token(selected)));
    }

    /** BEGIN is refused inside an open transaction. */
    method Begin() returns (ok: bool)
      modifies db
      ensures ok <==> !old(db.inTransaction) && old(db.statements) !in db.failing
      ensures db.tables == old(db.tables) && db.committed == old(db.committed)
      ensures db.inTransaction == (ok || old(db.inTransaction))
      ensures db.statements == old(db.statements) + if old(db.inTransaction) then 0 else 1
    {
      ok := !db.inTransaction;
      if ok { ok := db.Tick(); }
      if ok { db.inTransaction := true; }
    }

    /** The statements between BEGIN and the commit, in this order. */
    method MarkAndAudit(p: Preview, audit: RetconAudit) returns (ok: bool)
      requires p.affected != [] && audit.affected == p.affected
      modifies db
      ensures ok <==>
        && Free(old(db.tables), old(db.inTransaction), audit.retconId)
        && Quiet(db.failing, old(db.statements), old(db.statements) + 3)
      ensures ok ==>
        && db.tables == WithRetcon(old(db.tables), p.affected, audit)
        && db.inTransaction && db.statements == old(db.statements) + 3
      ensures db.committed == old(db.committed)
    {
      ok := Begin();
      if ok { ok := db.MarkRetconned(p.affected); }
      if ok { ok := db.AppendRetconAudit(audit); }
    }

    /** The transaction of a granted confirm; `fault` is how it failed, if it did. */
    method Execute(p: Preview, audit: RetconAudit) returns (fault: Option<Refusal>)
      requires p.affected != [] && audit.affected == p.affected
      modifies db
      ensures fault == TransactionFault(Free(old(db.tables), old(db.inTransaction), audit.retconId),
                                        db.failing, old(db.statements))
      ensures fault == Some(EngineFault) ==> db.tables == old(db.committed) && !db.inTransaction
      ensures fault != Some(EngineFault) ==> db.tables == WithRetcon(old(db.tables), p.affected, audit)
      ensures fault == Some(CommitFault) ==> db.inTransaction
      ensures db.committed == if fault.None? then db.tables else old(db.committed)
    {
      var ok := MarkAndAudit(p, audit);
      if !ok {
        db.Rollback();
        return Some(EngineFault);
      }
      ok := db.Commit();
      fault := if ok then None else Some(CommitFault);
    }

    /**
     Marks and audits in one transaction. Any failure before the commit rolls back to the
     committed store; a failure of the commit itself leaves the transaction open with the retcon
     in it, where later reads of the connection see it.
     */
    method Confirm(selected: string, token: string, reason: string, auditId: string, now: Time)
      returns (r: Result<Preview, Refusal>)
      modifies db
      ensures r == ConfirmResult(
                     PreviewOf(old(db.tables), campaign, selected), token == Token(selected),
                     TransactionFault(Free(old(db.tables), old(db.inTransaction), auditId),
                                      db.failing, old(db.statements)))
      ensures r.Ok? ==>
        && db.tables == WithRetcon(old(db.tables), r.value.affected, AuditOf(campaign, r.value, auditId, reason, now))
        && db.committed == db.tables
      ensures r.Err? ==> db.committed == old(db.committed)
      ensures r.Err? && (r.error.Vetoed? || r.error.WrongToken?) ==>
        db.tables == old(db.tables) && db.inTransaction == old(db.inTransaction)
      ensures r == Err(EngineFault) ==> db.tables == old(db.committed) && !db.inTransaction
      ensures r == Err(CommitFault) ==>
        && db.inTransaction
        && var p := PreviewOf(old(db.tables), campaign, selected).value;
           db.tables == WithRetcon(old(db.tables), p.affected, AuditOf(campaign, p, auditId, reason, now))
      ensures r.Ok? || r == Err(CommitFault) ==>
        && token == "RETCON " + selected && PreviewOf(old(db.tables), campaign, selected).Ok?
        && RetconStored(old(db.tables), campaign, selected, PreviewOf(old(db.tables), campaign, selected).value,
                        token, reason, auditId, now, db.tables)
      ensures r.Err? ==>
        (db.tables == old(db.tables)
         <==> r != Err(CommitFault) && (r == Err(EngineFault) ==> old(db.tables) == old(db.committed)))
    {
      var preview := MakePreview(selected);
      if preview.Err? { return Err(Vetoed(preview.error)); }
      var p := preview.value;
      if token != p.token { return Err(WrongToken); }
      StoredRetcon(db.tables, campaign, selected, p, reason, auditId, now);
      var fault := Execute(p, AuditOf(campaign, p, auditId, reason, now));
      r := if fault.Some? then Err(fault.value) else Ok(p);
    }
  }

  // ---------------------------------------------------------------- a retcon pops the stack

  /** The affected suffix is the top of the stack, from the selected turn on. */
  lemma SuffixIsTop(turns: seq<TurnRecord>, campaign: string, i: nat)
    requires UniqueIds(turns) && DistinctTimes(turns) && i < |Canon(turns, campaign)|
    ensures AffectedSuffix(turns, campaign, Canon(turns, campaign)[i].turnId) == Canon(turns, campaign)[i..]
  {
    var canon := Canon(turns, campaign);
    var selected := SelectTurns(turns, campaign, false);
    CanonMember(turns, campaign, canon[i]);
    GetUnique(turns, canon[i]);
    CanonSorted(turns, campaign);
    SelectDistinguished(turns, campaign);
    FromDistinguished(selected, canon[i].completedAt);
    Sorting.SortElements(CompletedBefore, selected);
    forall t ensures t in CompletedFrom(selected, canon[i].completedAt) <==> t in canon[i..] {
      if t in canon {
        var k :| 0 <= k < |canon| && canon[k] == t;
        assert k >= i <==> t.completedAt >= canon[i].completedAt;
      }
    }
    Sorting.SortUnique(CompletedBefore, CompletedFrom(selected, canon[i].completedAt), canon[i..]);
  }

  lemma {:induction false} FromDistinguished(turns: seq<TurnRecord>, start: Time)
    requires Sorting.Distinguished(CompletedBefore, turns)
    ensures Sorting.Distinguished(CompletedBefore, CompletedFrom(turns, start))
  {
    if turns != [] {
      FromDistinguished(turns[1..], start);
      var rest := CompletedFrom(turns[1..], start);
      forall j | 0 <= j < |rest| ensures turns[0].completedAt != rest[j].completedAt {
        assert rest[j] in turns[1..];
      }
    }
  }

  /** Marking turns retconned takes exactly them out of every campaign's canon. */
  lemma MarkedMember(turns: seq<TurnRecord>, ids: seq<string>, campaign: string, t: TurnRecord)
    ensures t in MarkedRetconned(turns, ids) && IsCanonical(t, campaign) <==>
            t in turns && IsCanonical(t, campaign) && t.turnId !in ids
  {
    var marked := MarkedRetconned(turns, ids);
    if t in turns && t.turnId !in ids {
      var i :| 0 <= i < |turns| && turns[i] == t;
      assert marked[i] == t;
    }
  }

  lemma MarkingKeepsKeys(turns: seq<TurnRecord>, ids: seq<string>)
    requires UniqueIds(turns) && DistinctTimes(turns)
    ensures UniqueIds(MarkedRetconned(turns, ids)) && DistinctTimes(MarkedRetconned(turns, ids))
  {
  }

  /** Everything at or above the selected turn is popped. */
  lemma MarkingPops(turns: seq<TurnRecord>, campaign: string, i: nat)
    requires UniqueIds(turns) && DistinctTimes(turns) && i < |Canon(turns, campaign)|
    ensures Canon(MarkedRetconned(turns, IdsOf(Canon(turns, campaign)[i..])), campaign) == Canon(turns, campaign)[..i]
  {
    var canon := Canon(turns, campaign);
    var ids := IdsOf(canon[i..]);
    CanonSorted(turns, campaign);
    MarkingKeepsKeys(turns, ids);
    forall t ensures t in canon[..i] <==> t in MarkedRetconned(turns, ids) && IsCanonical(t, campaign) {
      MarkedMember(turns, ids, campaign, t);
      CanonMember(turns, campaign, t);
      IdInSlice(turns, campaign, i, t);
      SplitMember(canon, i, t);
    }
    CanonIs(MarkedRetconned(turns, ids), campaign, canon[..i]);
  }

  lemma SplitMember(canon: seq<TurnRecord>, i: nat, t: TurnRecord)
    requires i <= |canon| && Sorting.StrictlySorted(CompletedBefore, canon)
    ensures t in canon[..i] <==> t in canon && t !in canon[i..]
  {
    assert canon == canon[..i] + canon[i..];
  }

  /** Other campaigns keep their canon. */
  lemma MarkingSparesOthers(turns: seq<TurnRecord>, campaign: string, i: nat, other: string)
    requires UniqueIds(turns) && DistinctTimes(turns) && i < |Canon(turns, campaign)| && other != campaign
    ensures Canon(MarkedRetconned(turns, IdsOf(Canon(turns, campaign)[i..])), other) == Canon(turns, other)
  {
    var ids := IdsOf(Canon(turns, campaign)[i..]);
    CanonSorted(turns, other);
    MarkingKeepsKeys(turns, ids);
    forall t ensures t in Canon(turns, other) <==> t in MarkedRetconned(turns, ids) && IsCanonical(t, other) {
      MarkedMember(turns, ids, other, t);
      CanonMember(turns, other, t);
      CanonMember(turns, campaign, t);
      IdInSlice(turns, campaign, i, t);
    }
    CanonIs(MarkedRetconned(turns, ids), other, Canon(turns, other));
  }

  lemma IdInSlice(turns: seq<TurnRecord>, campaign: string, i: nat, t: TurnRecord)
    requires UniqueIds(turns) && i < |Canon(turns, campaign)|
    ensures t in turns ==> (t.turnId in IdsOf(Canon(turns, campaign)[i..]) <==> t in Canon(turns, campaign)[i..])
  {
    var top := Canon(turns, campaign)[i..];
    if t in turns && t.turnId in IdsOf(top) {
      var k :| 0 <= k < |top| && IdsOf(top)[k] == t.turnId;
      CanonMember(turns, campaign, top[k]);
      GetUnique(turns, t);
      GetUnique(turns, top[k]);
    }
    if t in top {
      var k :| 0 <= k < |top| && top[k] == t;
      assert IdsOf(top)[k] == t.turnId;
    }
  }

  // ---------------------------------------------------------------- what a preview says

  ghost function LinePlaces(rows: seq<TranscriptEntry>, ids: seq<string>): set<nat> {
    set i: nat | i < |rows| && rows[i].turnId in ids
  }

  ghost function RollPlaces(rows: seq<RollRow>, ids: seq<string>): set<nat> {
    set i: nat | i < |rows| && rows[i].turnId.Some? && rows[i].turnId.value in ids
  }

  lemma {:induction false} CountLinesSnoc(rows: seq<TranscriptEntry>, row: TranscriptEntry, ids: seq<string>)
    ensures CountLines(rows + [row], ids) == CountLines(rows, ids) + if row.turnId in ids then 1 else 0
  {
    if rows != [] {
      assert (rows + [row])[1..] == rows[1..] + [row];
      CountLinesSnoc(rows[1..], row, ids);
    }
  }

  lemma {:induction false} CountRollsSnoc(rows: seq<RollRow>, row: RollRow, ids: seq<string>)
    ensures CountRolls(rows + [row], ids)
         == CountRolls(rows, ids) + if row.turnId.Some? && row.turnId.value in ids then 1 else 0
  {
    if rows != [] {
      assert (rows + [row])[1..] == rows[1..] + [row];
      CountRollsSnoc(rows[1..], row, ids);
    }
  }

  lemma {:induction false} CountLinesIs(rows: seq<TranscriptEntry>, ids: seq<string>)
    ensures CountLines(rows, ids) == |LinePlaces(rows, ids)|
  {
    if rows == [] {
      assert LinePlaces(rows, ids) == {};
    } else {
      var n := |rows| - 1;
      CountLinesIs(rows[..n], ids);
      CountLinesSnoc(rows[..n], rows[n], ids);
      assert rows == rows[..n] + [rows[n]];
      assert LinePlaces(rows, ids) == LinePlaces(rows[..n], ids) + (if rows[n].turnId in ids then {n} else {});
    }
  }

  lemma {:induction false} CountRollsIs(rows: seq<RollRow>, ids: seq<string>)
    ensures CountRolls(rows, ids) == |RollPlaces(rows, ids)|
  {
    if rows == [] {
      assert RollPlaces(rows, ids) == {};
    } else {
      var n := |rows| - 1;
      CountRollsIs(rows[..n], ids);
      CountRollsSnoc(rows[..n], rows[n], ids);
      assert rows == rows[..n] + [rows[n]];
      assert RollPlaces(rows, ids) == RollPlaces(rows[..n], ids)
                                      + if rows[n].turnId.Some? && rows[n].turnId.value in ids then {n} else {};
    }
  }

  /** A turn that leaves canon with the selected one: complete, of the campaign, completed no earlier. */
  ghost predicate LeavesWith(t: Tables, campaign: string, selected: TurnRecord, x: TurnRecord) {
    x in t.turns && x.campaign == campaign && x.status == Complete && x.completedAt >= selected.completedAt
  }

  /** Why a preview is refused, and what a granted one says of the turn `x`. */
  lemma PreviewMeans(t: Tables, campaign: string, selected: TurnRecord, x: TurnRecord)
    requires TurnHistory.Readable(t) && selected in t.turns
    ensures var r := PreviewOf(t, campaign, selected.turnId);
            && (r == Err(NotInCampaign) <==> selected.campaign != campaign)
            && (r == Err(NotComplete) <==> selected.campaign == campaign && selected.status != Complete)
            && (r == Err(NoPriorCheckpoint) <==>
                  && selected.campaign == campaign && selected.status == Complete
                  && forall turn, e :: !TurnHistory.IsFinalBefore(t, campaign, selected.completedAt, turn, e))
            && r != Err(NoSuffix)
            && (r.Ok? ==>
                  var p := r.value;
                  && p.selected == selected.turnId && p.token == "RETCON " + selected.turnId
                  && (LeavesWith(t, campaign, selected, x) ==> x.turnId in p.affected)
                  && (x in t.turns && x.turnId in p.affected ==> LeavesWith(t, campaign, selected, x))
                  && p.transcriptCount == |LinePlaces(t.transcripts, p.affected)|
                  && p.rollCount == |RollPlaces(t.rolls, p.affected)|
                  && (forall path :: path in p.vaultPaths <==>
                        exists w :: w in t.vaultWrites && w.turnId in p.affected && w.path == path)
                  && exists turn, e :: TurnHistory.IsFinalBefore(t, campaign, selected.completedAt, turn, e)
                                       && e.payload.id == p.priorCheckpoint)
  {
    GetUnique(t.turns, selected);
    TurnHistory.PriorFinalReads(t, campaign, selected.completedAt);
    var r := PreviewOf(t, campaign, selected.turnId);
    if selected.campaign == campaign && selected.status.Complete? {
      AffectedMembers(t, campaign, selected, x);
      AffectedMembers(t, campaign, selected, selected);
      if r.Ok? {
        CountLinesIs(t.transcripts, r.value.affected);
        CountRollsIs(t.rolls, r.value.affected);
        FirstMetDistinct(WritesOf(t.vaultWrites, r.value.affected));
      }
    }
  }

  lemma AffectedMembers(t: Tables, campaign: string, selected: TurnRecord, x: TurnRecord)
    requires UniqueIds(t.turns) && selected in t.turns && IsCanonical(selected, campaign)
    ensures x in t.turns ==>
              (x.turnId in IdsOf(AffectedSuffix(t.turns, campaign, selected.turnId))
               <==> LeavesWith(t, campaign, selected, x))
  {
    var from := CompletedFrom(SelectTurns(t.turns, campaign, false), selected.completedAt);
    var suffix := AffectedSuffix(t.turns, campaign, selected.turnId);
    GetUnique(t.turns, selected);
    Sorting.SortElements(CompletedBefore, from);
    if x in t.turns && x.turnId in IdsOf(suffix) {
      var k :| 0 <= k < |suffix| && suffix[k].turnId == x.turnId;
      assert suffix[k] in from;
      GetUnique(t.turns, x);
      GetUnique(t.turns, suffix[k]);
    }
    if x in from {
      assert x in suffix;
      var k :| 0 <= k < |suffix| && suffix[k] == x;
      assert IdsOf(suffix)[k] == x.turnId;
    }
  }
}
