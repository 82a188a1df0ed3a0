/**
 Runs of a campaign: turns begin, close, break, are set aside and are retconned. Over every such
 run the tables behave like one stack of turns per campaign.
 */
module CampaignRun {
  import opened Basics
  import opened TurnTables
  import opened TurnHistory
  import Retcon
  import Sorting
  import Text
  import TurnClose

  // ---------------------------------------------------------------- what can happen to the tables

  datatype Event =
    | Began(rec: TurnRecord)
    | Closed(bundle: TurnClose.Bundle, now: Time, audits: seq<VaultWrite>, vaultOk: bool, warning: Option<string>)
    | SetAside(id: string, status: TurnStatus, now: Time)
    | Checkpointed(ref: CheckpointRef, now: Time)
    | SessionWritten(rec: TurnRecord, now: Time, audits: seq<VaultWrite>, vaultOk: bool, warning: Option<string>)
    | Retconned(campaign: string, selected: string, auditId: string, reason: string, now: Time)

  function Apply(t: Tables, e: Event): Tables {
    match e
    case Began(rec) => if GetTurn(t.turns, rec.turnId).Some? then t else t.(turns := Upsert(t.turns, rec))
    case Closed(b, now, audits, vaultOk, warning) =>
      var c := TurnClose.Closed(t, b, now);
      c.(vaultWrites := c.vaultWrites + audits,
         turns := if !vaultOk then Upsert(c.turns, TurnClose.RepairRecord(TurnClose.CompletedRecord(b, now)))
                  else if warning.Some? then WithSyncWarning(c.turns, b.turn.turnId, warning.value)
                  else c.turns)
    case SetAside(id, status, now) =>
      (match GetTurn(t.turns, id)
       case None => t
       case Some(rec) => t.(turns := Upsert(t.turns, rec.(status := status, completedAt := now, syncWarning := None))))
    case Checkpointed(ref, _) => t.(checkpoints := t.checkpoints + [ref])
    case SessionWritten(rec, _, audits, vaultOk, warning) =>
      t.(vaultWrites := t.vaultWrites + audits,
         turns := if !vaultOk then Upsert(t.turns, TurnClose.RepairRecord(rec))
                  else if warning.Some? then WithSyncWarning(t.turns, rec.turnId, warning.value)
                  else t.turns)
    case Retconned(campaign, selected, auditId, reason, now) =>
      match Retcon.PreviewOf(t, campaign, selected)
      case Err(_) => t
      case Ok(p) => Retcon.WithRetcon(t, p.affected, Retcon.AuditOf(campaign, p, auditId, reason, now))
  }

  function Run(t: Tables, events: seq<Event>): Tables {
    if events == [] then t else Apply(Run(t, events[..|events| - 1]), events[|events| - 1])
  }

  // ---------------------------------------------------------------- the stack machine

  function FrameOfBundle(b: TurnClose.Bundle, now: Time): Frame {
    Frame(b.turn.turnId, now, OrderedRows(b.transcripts, b.turn.turnId),
          OrderedRows(Finals(b.checkpoints), b.turn.turnId))
  }

  function IndexOf(stack: seq<Frame>, id: string): (r: Option<nat>)
    ensures r.Some? ==> r.value < |stack| && stack[r.value].turnId == id
    ensures r.None? ==> forall i :: 0 <= i < |stack| ==> stack[i].turnId != id
  {
    if stack == [] then None
    else if stack[|stack| - 1].turnId == id then Some(|stack| - 1)
    else IndexOf(stack[..|stack| - 1], id)
  }

  /** Where a retcon cuts the stack: at the selected turn, when some turn below it has a final checkpoint. */
  function CutAt(stack: seq<Frame>, selected: string): (r: Option<nat>)
    ensures r.Some? ==> r.value < |stack| && stack[r.value].turnId == selected && TopFinal(stack[..r.value]).Some?
  {
    match IndexOf(stack, selected)
    case None => None
    case Some(i) => if TopFinal(stack[..i]).Some? then Some(i) else None
  }

  /** The stack without the frame of a turn. */
  function FrameDropped(stack: seq<Frame>, id: string): seq<Frame> {
    if stack == [] then []
    else
      var last := stack[|stack| - 1];
      FrameDropped(stack[..|stack| - 1], id) + if last.turnId == id then [] else [last]
  }

  /**
   Closing pushes, a retcon pops; setting a turn aside, or failing to write its session page, takes its
   frame out; beginning a turn and recording where its narration starts do nothing.
   */
  function StackStep(stack: seq<Frame>, campaign: string, e: Event): seq<Frame> {
    match e
    case Closed(b, now, _, vaultOk, _) =>
      if b.turn.campaign == campaign && vaultOk then stack + [FrameOfBundle(b, now)] else stack
    case Retconned(c, selected, _, _, _) =>
      if c != campaign then stack
      else (match CutAt(stack, selected) case Some(i) => stack[..i] case None => stack)
    case SetAside(id, _, _) => FrameDropped(stack, id)
    case SessionWritten(rec, _, _, vaultOk, _) => if vaultOk then stack else FrameDropped(stack, rec.turnId)
    case Began(_) => stack
    case Checkpointed(_, _) => stack
  }

  function StackRun(stack: seq<Frame>, campaign: string, events: seq<Event>): seq<Frame> {
    if events == [] then stack
    else StackStep(StackRun(stack, campaign, events[..|events| - 1]), campaign, events[|events| - 1])
  }

  // ---------------------------------------------------------------- assumptions on a run

  function TimeOf(e: Event): Time {
    match e
    case Began(rec) => rec.completedAt
    case Closed(_, now, _, _, _) => now
    case SetAside(_, _, now) => now
    case Checkpointed(_, now) => now
    case SessionWritten(_, now, _, _, _) => now
    case Retconned(_, _, _, _, now) => now
  }

  /** Every row of `rows` is the turn's own, and the table has none of that turn yet. */
  ghost predicate FreshRows<P>(existing: seq<Entry<P>>, rows: seq<Entry<P>>, id: string) {
    && DistinctOrders(rows)
    && (forall x :: x in rows ==> x.turnId == id)
    && (forall x :: x in existing ==> x.turnId != id)
  }

  /** The turn is not complete in any campaign. */
  predicate NotCanonical(turns: seq<TurnRecord>, id: string) {
    match GetTurn(turns, id) case Some(t) => !t.status.Complete? case None => true
  }

  /** The explicit assumptions: an increasing clock, and fresh ids for closed turns. */
  ghost predicate Legal(t: Tables, clock: Time, e: Event) {
    && clock < TimeOf(e)
    && match e
       case Began(rec) => rec.status.NeedsVaultRepair?
       case Closed(b, now, _, _, _) =>
         && NotCanonical(t.turns, b.turn.turnId)
         && FreshRows(t.transcripts, b.transcripts, b.turn.turnId)
         && FreshRows(Finals(t.checkpoints), Finals(b.checkpoints), b.turn.turnId)
       case SetAside(_, status, _) => !status.Complete?
       case Checkpointed(ref, _) => ref.payload.kind.PreNarration?
       case SessionWritten(rec, _, _, _, _) => rec.completedAt <= clock
       case Retconned(_, _, _, _, _) => true
  }

  ghost predicate LegalRun(t: Tables, clock: Time, events: seq<Event>)
    decreases |events|
  {
    events == [] ||
    (LegalRun(t, clock, events[..|events| - 1])
     && Legal(Run(t, events[..|events| - 1]), ClockAfter(clock, events[..|events| - 1]), events[|events| - 1]))
  }

  function ClockAfter(clock: Time, events: seq<Event>): Time {
    if events == [] then clock else TimeOf(events[|events| - 1])
  }

  ghost predicate Inv(t: Tables, clock: Time) {
    Readable(t) && WrittenBy(t.turns, clock)
  }

  // ---------------------------------------------------------------- one step

  /** A row of a turn that is not canonical leaves every campaign's canon as it was. */
  lemma UpsertKeepsCanon(turns: seq<TurnRecord>, rec: TurnRecord, campaign: string)
    requires UniqueIds(turns) && DistinctTimes(turns) && !rec.status.Complete? && NotCanonical(turns, rec.turnId)
    ensures DistinctTimes(Upsert(turns, rec)) && Canon(Upsert(turns, rec), campaign) == Canon(turns, campaign)
  {
    var canon := Canon(turns, campaign);
    CanonSorted(turns, campaign);
    WithoutTimes(turns, rec.turnId);
    forall t ensures t in canon <==> t in Upsert(turns, rec) && IsCanonical(t, campaign) {
      CanonMember(turns, campaign, t);
      if t in turns { GetUnique(turns, t); }
    }
    CanonIs(Upsert(turns, rec), campaign, canon);
  }

  lemma {:induction false} WithoutTimes(turns: seq<TurnRecord>, id: string)
    requires DistinctTimes(turns)
    ensures DistinctTimes(Without(turns, id))
  {
    if turns != [] {
      assert DistinctTimes(turns[1..]) by {
        forall i, j | 0 <= i < j < |turns| - 1 ensures turns[1..][i] == turns[i + 1] && turns[1..][j] == turns[j + 1] {}
      }
      WithoutTimes(turns[1..], id);
      var rest := Without(turns[1..], id);
      if turns[0].turnId != id {
        forall j | 0 <= j < |rest| && turns[0].status.Complete? && rest[j].status.Complete?
                   && turns[0].campaign == rest[j].campaign
          ensures turns[0].completedAt != rest[j].completedAt
        {
          assert rest[j] in turns[1..];
          var k :| 0 <= k < |turns| - 1 && turns[1..][k] == rest[j];
          assert turns[k + 1] == rest[j];
        }
      }
    }
  }

  /** A turn completed after everything written so far goes on top. */
  lemma UpsertPushes(turns: seq<TurnRecord>, rec: TurnRecord, clock: Time, campaign: string)
    requires UniqueIds(turns) && DistinctTimes(turns) && WrittenBy(turns, clock)
    requires rec.status.Complete? && clock < rec.completedAt && NotCanonical(turns, rec.turnId)
    ensures DistinctTimes(Upsert(turns, rec))
    ensures Canon(Upsert(turns, rec), campaign) ==
            if rec.campaign == campaign then Canon(turns, campaign) + [rec] else Canon(turns, campaign)
  {
    var canon := Canon(turns, campaign);
    var pushed := if rec.campaign == campaign then canon + [rec] else canon;
    CanonSorted(turns, campaign);
    WithoutTimes(turns, rec.turnId);
    forall t ensures t in pushed <==> t in Upsert(turns, rec) && IsCanonical(t, campaign) {
      CanonMember(turns, campaign, t);
      if t in turns { GetUnique(turns, t); }
    }
    forall i | 0 <= i < |canon| ensures canon[i].completedAt < rec.completedAt {
      CanonMember(turns, campaign, canon[i]);
    }
    CanonIs(Upsert(turns, rec), campaign, pushed);
  }

  lemma {:induction false} RowsOfAppend<P(!new)>(existing: seq<Entry<P>>, rows: seq<Entry<P>>, id: string)
    ensures RowsOf(existing + rows, id) == RowsOf(existing, id) + RowsOf(rows, id)
  {
    if existing == [] {
      assert existing + rows == rows;
    } else {
      TailOfAppend(existing, rows);
      RowsOfAppend(existing[1..], rows, id);
      if existing[0].turnId == id { AppendAssociative([existing[0]], RowsOf(existing[1..], id), RowsOf(rows, id)); }
    }
  }

  lemma {:induction false} NoRowsOf<P(!new)>(rows: seq<Entry<P>>, id: string)
    requires forall x :: x in rows ==> x.turnId != id
    ensures RowsOf(rows, id) == []
  {
    if rows != [] { NoRowsOf(rows[1..], id); }
  }

  /** Appending a fresh turn's rows gives that turn exactly those rows and no other turn any. */
  lemma FreshRowsOrdered<P(!new)>(existing: seq<Entry<P>>, rows: seq<Entry<P>>, id: string, other: string)
    requires FreshRows(existing, rows, id)
    ensures OrderedRows(existing + rows, other) ==
            if other == id then OrderedRows(rows, id) else OrderedRows(existing, other)
  {
    RowsOfAppend(existing, rows, other);
    if other == id {
      NoRowsOf(existing, id);
      assert RowsOf(rows, id) == [] + RowsOf(rows, id);
    } else {
      NoRowsOf(rows, other);
      assert RowsOf(existing, other) == RowsOf(existing, other) + [];
    }
  }

  lemma {:induction false} FinalsAppend(existing: seq<CheckpointRef>, refs: seq<CheckpointRef>)
    ensures Finals(existing + refs) == Finals(existing) + Finals(refs)
  {
    if existing == [] {
      assert existing + refs == refs;
    } else {
      assert (existing + refs)[1..] == existing[1..] + refs;
      FinalsAppend(existing[1..], refs);
      var head := if existing[0].payload.kind.Final? then [existing[0]] else [];
      assert Finals(existing) == head + Finals(existing[1..]);
      assert Finals(existing + refs) == head + Finals(existing[1..] + refs);
    }
  }

  lemma FreshDistinct<P>(existing: seq<Entry<P>>, rows: seq<Entry<P>>, id: string)
    requires DistinctOrders(existing) && FreshRows(existing, rows, id)
    ensures DistinctOrders(existing + rows)
  {
  }

  /** How the record of a closed turn ends up: complete, complete with a warning, or in need of repair. */
  function SettledRecord(b: TurnClose.Bundle, now: Time, vaultOk: bool, warning: Option<string>): TurnRecord {
    var rec := TurnClose.CompletedRecord(b, now);
    if vaultOk then rec.(syncWarning := warning) else TurnClose.RepairRecord(rec)
  }

  lemma {:induction false} WithoutAbsent(turns: seq<TurnRecord>, rec: TurnRecord)
    requires forall t :: t in turns ==> t.turnId != rec.turnId
    ensures Without(turns + [rec], rec.turnId) == turns
  {
    if turns == [] {
      assert [rec][1..] == [];
    } else {
      assert (turns + [rec])[1..] == turns[1..] + [rec];
      WithoutAbsent(turns[1..], rec);
    }
  }

  lemma {:induction false} WarningOnLast(turns: seq<TurnRecord>, rec: TurnRecord, warning: string)
    requires forall t :: t in turns ==> t.turnId != rec.turnId
    ensures WithSyncWarning(turns + [rec], rec.turnId, warning) == turns + [rec.(syncWarning := Some(warning))]
  {
  }

  /** A close, whatever becomes of its vault writes, amounts to one upsert. */
  lemma ClosedTurns(t: Tables, e: Event)
    requires e.Closed?
    ensures Apply(t, e).turns == Upsert(t.turns, SettledRecord(e.bundle, e.now, e.vaultOk, e.warning))
  {
    var rec := TurnClose.CompletedRecord(e.bundle, e.now);
    if !e.vaultOk {
      WithoutAbsent(Without(t.turns, rec.turnId), rec);
    } else if e.warning.Some? {
      WarningOnLast(Without(t.turns, rec.turnId), rec, e.warning.value);
    }
  }

  /** Frames after a close: the new turn's own rows, and every other turn as before. */
  lemma ClosedFrame(t: Tables, e: Event, turn: TurnRecord)
    requires e.Closed? && FreshRows(t.transcripts, e.bundle.transcripts, e.bundle.turn.turnId)
    requires FreshRows(Finals(t.checkpoints), Finals(e.bundle.checkpoints), e.bundle.turn.turnId)
    ensures FrameOf(Apply(t, e), turn) ==
            if turn.turnId == e.bundle.turn.turnId then FrameOfBundle(e.bundle, turn.completedAt) else FrameOf(t, turn)
  {
    var b := e.bundle;
    FinalsAppend(t.checkpoints, b.checkpoints);
    FreshRowsOrdered(t.transcripts, b.transcripts, b.turn.turnId, turn.turnId);
    FreshRowsOrdered(Finals(t.checkpoints), Finals(b.checkpoints), b.turn.turnId, turn.turnId);
  }

  lemma ClosedReadable(t: Tables, clock: Time, e: Event)
    requires e.Closed? && Inv(t, clock) && Legal(t, clock, e)
    ensures Inv(Apply(t, e), e.now)
  {
    var b, rec := e.bundle, SettledRecord(e.bundle, e.now, e.vaultOk, e.warning);
    ClosedTurns(t, e);
    if e.vaultOk {
      UpsertPushes(t.turns, rec, clock, b.turn.campaign);
    } else {
      UpsertKeepsCanon(t.turns, rec, b.turn.campaign);
    }
    FreshDistinct(t.transcripts, b.transcripts, b.turn.turnId);
    FinalsAppend(t.checkpoints, b.checkpoints);
    FreshDistinct(Finals(t.checkpoints), Finals(b.checkpoints), b.turn.turnId);
  }

  lemma ClosedKeepsFrames(t: Tables, clock: Time, e: Event, campaign: string)
    requires e.Closed? && Inv(t, clock) && Legal(t, clock, e)
    ensures Frames(Apply(t, e), Canon(t.turns, campaign)) == Stack(t, campaign)
  {
    var canon := Canon(t.turns, campaign);
    forall i | 0 <= i < |canon| ensures FrameOf(Apply(t, e), canon[i]) == FrameOf(t, canon[i]) {
      CanonMember(t.turns, campaign, canon[i]);
      GetUnique(t.turns, canon[i]);
      ClosedFrame(t, e, canon[i]);
    }
  }

  lemma StackIsFrames(t: Tables, campaign: string)
    ensures Stack(t, campaign) == Frames(t, Canon(t.turns, campaign))
  {
  }

  lemma ClosedCanon(t: Tables, clock: Time, e: Event, campaign: string)
    requires e.Closed? && Inv(t, clock) && Legal(t, clock, e)
    ensures var canon := Canon(t.turns, campaign);
            Canon(Apply(t, e).turns, campaign) ==
            if e.bundle.turn.campaign == campaign && e.vaultOk
            then canon + [SettledRecord(e.bundle, e.now, e.vaultOk, e.warning)] else canon
  {
    var rec := SettledRecord(e.bundle, e.now, e.vaultOk, e.warning);
    ClosedTurns(t, e);
    if e.vaultOk { UpsertPushes(t.turns, rec, clock, campaign); } else { UpsertKeepsCanon(t.turns, rec, campaign); }
  }

  lemma ClosedStep(t: Tables, clock: Time, e: Event, campaign: string)
    requires e.Closed? && Inv(t, clock) && Legal(t, clock, e)
    ensures Stack(Apply(t, e), campaign) == StackStep(Stack(t, campaign), campaign, e)
  {
    var rec := SettledRecord(e.bundle, e.now, e.vaultOk, e.warning);
    ClosedCanon(t, clock, e, campaign);
    ClosedKeepsFrames(t, clock, e, campaign);
    StackIsFrames(Apply(t, e), campaign);
    FramesSplit(Apply(t, e), Canon(t.turns, campaign), rec);
    ClosedFrame(t, e, rec);
  }

  /** A turn that begins is on no stack. */
  lemma BeganStep(t: Tables, clock: Time, e: Event, campaign: string)
    requires e.Began? && Inv(t, clock) && Legal(t, clock, e)
    ensures Inv(Apply(t, e), TimeOf(e)) && Stack(Apply(t, e), campaign) == Stack(t, campaign)
  {
    if GetTurn(t.turns, e.rec.turnId).None? { UpsertKeepsCanon(t.turns, e.rec, campaign); }
    var canon := Canon(t.turns, campaign);
    assert Frames(Apply(t, e), canon) == Frames(t, canon);
  }

  // ---------------------------------------------------------------- setting a turn aside

  function TurnDropped(canon: seq<TurnRecord>, id: string): (r: seq<TurnRecord>)
    ensures forall t :: t in r <==> t in canon && t.turnId != id
  {
    if canon == [] then []
    else
      var front, last := canon[..|canon| - 1], canon[|canon| - 1];
      assert canon == front + [last];
      TurnDropped(front, id) + if last.turnId == id then [] else [last]
  }

  lemma {:induction false} DroppedSorted(canon: seq<TurnRecord>, id: string)
    requires Sorting.StrictlySorted(CompletedBefore, canon)
    ensures Sorting.StrictlySorted(CompletedBefore, TurnDropped(canon, id))
  {
    if canon != [] {
      var n := |canon| - 1;
      var front := TurnDropped(canon[..n], id);
      DroppedSorted(canon[..n], id);
      forall k | 0 <= k < |front| ensures front[k].completedAt < canon[n].completedAt {
        assert front[k] in canon[..n];
        var i :| 0 <= i < n && canon[..n][i] == front[k];
      }
    }
  }

  /** A record that is not complete takes its turn out of canon, if it was there. */
  lemma UpsertDrops(turns: seq<TurnRecord>, rec: TurnRecord, campaign: string)
    requires UniqueIds(turns) && DistinctTimes(turns) && !rec.status.Complete?
    ensures DistinctTimes(Upsert(turns, rec))
    ensures Canon(Upsert(turns, rec), campaign) == TurnDropped(Canon(turns, campaign), rec.turnId)
  {
    var canon := Canon(turns, campaign);
    CanonSorted(turns, campaign);
    DroppedSorted(canon, rec.turnId);
    WithoutTimes(turns, rec.turnId);
    forall t ensures t in TurnDropped(canon, rec.turnId) <==> t in Upsert(turns, rec) && IsCanonical(t, campaign) {
      CanonMember(turns, campaign, t);
    }
    CanonIs(Upsert(turns, rec), campaign, TurnDropped(canon, rec.turnId));
  }

  lemma {:induction false} FramesDropped(t: Tables, canon: seq<TurnRecord>, id: string)
    ensures Frames(t, TurnDropped(canon, id)) == FrameDropped(Frames(t, canon), id)
  {
    if canon != [] {
      var n := |canon| - 1;
      FramesDropped(t, canon[..n], id);
      assert Frames(t, canon)[..n] == Frames(t, canon[..n]);
      FramesSplit(t, TurnDropped(canon[..n], id), canon[n]);
    }
  }

  lemma {:induction false} DropAbsent(stack: seq<Frame>, id: string)
    requires forall i :: 0 <= i < |stack| ==> stack[i].turnId != id
    ensures FrameDropped(stack, id) == stack
  {
    if stack != [] {
      DropAbsent(stack[..|stack| - 1], id);
      assert stack == stack[..|stack| - 1] + [stack[|stack| - 1]];
    }
  }

  /** Setting a turn aside takes exactly its frame out of the stack, wherever it is. */
  lemma SetAsideStep(t: Tables, clock: Time, e: Event, campaign: string)
    requires e.SetAside? && Inv(t, clock) && Legal(t, clock, e)
    ensures Inv(Apply(t, e), TimeOf(e)) && Stack(Apply(t, e), campaign) == FrameDropped(Stack(t, campaign), e.id)
  {
    var canon := Canon(t.turns, campaign);
    match GetTurn(t.turns, e.id)
    case Some(rec) =>
      var aside := rec.(status := e.status, completedAt := e.now, syncWarning := None);
      UpsertDrops(t.turns, aside, campaign);
      FramesDropped(t, canon, e.id);
      assert Frames(Apply(t, e), TurnDropped(canon, e.id)) == Frames(t, TurnDropped(canon, e.id));
      StackIsFrames(Apply(t, e), campaign);
    case None =>
      forall i | 0 <= i < |canon| ensures canon[i].turnId != e.id { CanonMember(t.turns, campaign, canon[i]); }
      DropAbsent(Stack(t, campaign), e.id);
  }

  // ---------------------------------------------------------------- behind and before a close

  /** Where a narration starts is on no stack. */
  lemma CheckpointedStep(t: Tables, clock: Time, e: Event, campaign: string)
    requires e.Checkpointed? && Inv(t, clock) && Legal(t, clock, e)
    ensures Inv(Apply(t, e), TimeOf(e)) && Stack(Apply(t, e), campaign) == Stack(t, campaign)
  {
    FinalsAppend(t.checkpoints, [e.ref]);
    assert Finals(t.checkpoints) + [] == Finals(t.checkpoints);
    var canon := Canon(t.turns, campaign);
    assert Frames(Apply(t, e), canon) == Frames(t, canon);
  }

  lemma WarnedMember(turns: seq<TurnRecord>, id: string, warning: string, t: TurnRecord)
    ensures t in WithSyncWarning(turns, id, warning) <==>
            exists u :: u in turns && t == if u.turnId == id then u.(syncWarning := Some(warning)) else u
  {
    var warned := WithSyncWarning(turns, id, warning);
    if t in warned {
      var i :| 0 <= i < |warned| && warned[i] == t;
      assert turns[i] in turns;
    }
    if u :| u in turns && t == if u.turnId == id then u.(syncWarning := Some(warning)) else u {
      var i :| 0 <= i < |turns| && turns[i] == u;
      assert warned[i] == t;
    }
  }

  /** A sync warning moves no turn. */
  lemma WarnedCanon(turns: seq<TurnRecord>, campaign: string, id: string, warning: string)
    requires UniqueIds(turns) && DistinctTimes(turns)
    ensures DistinctTimes(WithSyncWarning(turns, id, warning)) && UniqueIds(WithSyncWarning(turns, id, warning))
    ensures Canon(WithSyncWarning(turns, id, warning), campaign)
            == WithSyncWarning(Canon(turns, campaign), id, warning)
  {
    var canon := Canon(turns, campaign);
    CanonSorted(turns, campaign);
    forall t ensures t in WithSyncWarning(canon, id, warning)
                     <==> t in WithSyncWarning(turns, id, warning) && IsCanonical(t, campaign) {
      WarnedMember(turns, id, warning, t);
      WarnedMember(canon, id, warning, t);
      forall u ensures u in canon <==> u in turns && IsCanonical(u, campaign) { CanonMember(turns, campaign, u); }
    }
    CanonIs(WithSyncWarning(turns, id, warning), campaign, WithSyncWarning(canon, id, warning));
  }

  lemma SessionWarned(t: Tables, clock: Time, e: Event, campaign: string)
    requires e.SessionWritten? && e.vaultOk && e.warning.Some? && Inv(t, clock) && Legal(t, clock, e)
    ensures Inv(Apply(t, e), TimeOf(e)) && Stack(Apply(t, e), campaign) == Stack(t, campaign)
  {
    var canon := Canon(t.turns, campaign);
    WarnedCanon(t.turns, campaign, e.rec.turnId, e.warning.value);
    assert Frames(Apply(t, e), WithSyncWarning(canon, e.rec.turnId, e.warning.value)) == Frames(t, canon);
    StackIsFrames(Apply(t, e), campaign);
  }

  lemma SessionFailed(t: Tables, clock: Time, e: Event, campaign: string)
    requires e.SessionWritten? && !e.vaultOk && Inv(t, clock) && Legal(t, clock, e)
    ensures Inv(Apply(t, e), TimeOf(e))
    ensures Stack(Apply(t, e), campaign) == FrameDropped(Stack(t, campaign), e.rec.turnId)
  {
    var canon, aside := Canon(t.turns, campaign), TurnClose.RepairRecord(e.rec);
    UpsertDrops(t.turns, aside, campaign);
    FramesDropped(t, canon, e.rec.turnId);
    assert Frames(Apply(t, e), TurnDropped(canon, e.rec.turnId)) == Frames(t, TurnDropped(canon, e.rec.turnId));
    StackIsFrames(Apply(t, e), campaign);
  }

  /** A session page behind a close leaves the stack alone, unless it fails and takes the turn's frame out. */
  lemma SessionStep(t: Tables, clock: Time, e: Event, campaign: string)
    requires e.SessionWritten? && Inv(t, clock) && Legal(t, clock, e)
    ensures Inv(Apply(t, e), TimeOf(e))
    ensures Stack(Apply(t, e), campaign) == StackStep(Stack(t, campaign), campaign, e)
  {
    if !e.vaultOk {
      SessionFailed(t, clock, e, campaign);
    } else if e.warning.Some? {
      SessionWarned(t, clock, e, campaign);
    } else {
      var canon := Canon(t.turns, campaign);
      assert Frames(Apply(t, e), canon) == Frames(t, canon);
    }
  }

  /** So a session page changes a campaign's canon exactly when it fails for a turn that is canonical in it. */
  lemma SessionKeepsCanonExactly(t: Tables, clock: Time, e: Event, campaign: string)
    requires e.SessionWritten? && Inv(t, clock) && Legal(t, clock, e)
    ensures Stack(Apply(t, e), campaign) == Stack(t, campaign)
            <==> e.vaultOk || match GetTurn(t.turns, e.rec.turnId)
                              case Some(turn) => !IsCanonical(turn, campaign)
                              case None => true
  {
    SessionStep(t, clock, e, campaign);
    DropKeepsExactly(Stack(t, campaign), e.rec.turnId);
    IndexOfCanon(t, campaign, e.rec.turnId);
  }

  lemma {:induction false} DropNeverGrows(stack: seq<Frame>, id: string)
    ensures |FrameDropped(stack, id)| <= |stack|
  {
    if stack != [] { DropNeverGrows(stack[..|stack| - 1], id); }
  }

  lemma {:induction false} DropKeepsExactly(stack: seq<Frame>, id: string)
    ensures FrameDropped(stack, id) == stack <==> IndexOf(stack, id).None?
  {
    if stack != [] {
      var front, last := stack[..|stack| - 1], stack[|stack| - 1];
      assert stack == front + [last];
      DropNeverGrows(front, id);
      DropKeepsExactly(front, id);
      if last.turnId != id && FrameDropped(front, id) + [last] == front + [last] {
        assert FrameDropped(front, id) == (FrameDropped(front, id) + [last])[..|front|] == front;
      }
    }
  }

  /** Setting a turn aside leaves a campaign's canon alone exactly when the turn was not complete in it. */
  lemma SetAsideKeepsCanonExactly(t: Tables, clock: Time, e: Event, campaign: string)
    requires e.SetAside? && Inv(t, clock) && Legal(t, clock, e)
    ensures Stack(Apply(t, e), campaign) == Stack(t, campaign)
            <==> match GetTurn(t.turns, e.id) case Some(turn) => !IsCanonical(turn, campaign) case None => true
  {
    SetAsideStep(t, clock, e, campaign);
    DropKeepsExactly(Stack(t, campaign), e.id);
    IndexOfCanon(t, campaign, e.id);
  }

  lemma DropFirst(a: Frame, b: Frame)
    requires a.turnId != b.turnId
    ensures FrameDropped([a, b], a.turnId) == [b]
  {
    assert [a, b][..1] == [a] && [a][..0] == [];
    assert FrameDropped([a], a.turnId) == [];
  }

  /** A complete turn below another one can be discarded: the one above stays canonical. */
  lemma DiscardFromTheMiddle(t: Tables, clock: Time, campaign: string, now: Time, a: Frame, b: Frame)
    requires Inv(t, clock) && clock < now && Stack(t, campaign) == [a, b]
    ensures Stack(Apply(t, SetAside(a.turnId, TurnStatus.Discarded, now)), campaign) == [b]
  {
    SetAsideStep(t, clock, SetAside(a.turnId, TurnStatus.Discarded, now), campaign);
    CanonDistinct(t, campaign);
    assert Stack(t, campaign)[0] == a && Stack(t, campaign)[1] == b;
    DropFirst(a, b);
  }

  // ---------------------------------------------------------------- reads that include retconned turns

  predicate CompleteOrRetconned(t: TurnRecord) {
    t.status.Complete? || t.status.Retconned?
  }

  /**
   The reads that include retconned turns see only complete and retconned ones exactly when the campaign has no
   other.
   */
  lemma IncludedTurnsExactly(turns: seq<TurnRecord>, campaign: string)
    ensures (forall t :: t in SelectTurns(turns, campaign, true) ==> CompleteOrRetconned(t))
            <==> forall t :: t in turns && t.campaign == campaign ==> CompleteOrRetconned(t)
  {
  }

  /** A turn that just began, and is not complete, is the latest turn of those reads. */
  lemma BegunTurnIsIncluded(t: Tables, clock: Time, rec: TurnRecord)
    requires Inv(t, clock) && Legal(t, clock, Began(rec)) && GetTurn(t.turns, rec.turnId).None?
    ensures LatestTurnId(Apply(t, Began(rec)), rec.campaign, true) == Some(rec.turnId) && !CompleteOrRetconned(rec)
  {
    var turns := Apply(t, Began(rec)).turns;
    var selected := SelectTurns(turns, rec.campaign, true);
    InsertedFirst(selected, rec);
  }

  lemma {:induction false} InsertedFirst(turns: seq<TurnRecord>, rec: TurnRecord)
    requires rec in turns && forall t :: t in turns ==> t == rec || t.completedAt < rec.completedAt
    ensures Sorting.Sort(NewestFirst, turns) != [] && Sorting.Sort(NewestFirst, turns)[0] == rec
  {
    var rest := turns[1..];
    var sorted := Sorting.Sort(NewestFirst, rest);
    assert turns == [turns[0]] + rest;
    Sorting.SortElements(NewestFirst, rest);
    NewestFirstIsStrict();
    if rec in rest {
      InsertedFirst(rest, rec);
    } else if sorted != [] {
      assert sorted[0] in rest;
    }
  }

  // ---------------------------------------------------------------- a retcon step

  lemma IndexOfCanon(t: Tables, campaign: string, selected: string)
    requires UniqueIds(t.turns)
    ensures var i := IndexOf(Stack(t, campaign), selected);
            match GetTurn(t.turns, selected)
            case None => i.None?
            case Some(turn) =>
              if IsCanonical(turn, campaign) then i.Some? && Canon(t.turns, campaign)[i.value] == turn else i.None?
  {
    var canon := Canon(t.turns, campaign);
    var i := IndexOf(Stack(t, campaign), selected);
    if i.Some? {
      CanonMember(t.turns, campaign, canon[i.value]);
      GetUnique(t.turns, canon[i.value]);
    }
    var turn := GetTurn(t.turns, selected);
    if turn.Some? {
      CanonMember(t.turns, campaign, turn.value);
      if turn.value in canon {
        var k :| 0 <= k < |canon| && canon[k] == turn.value;
        assert Stack(t, campaign)[k].turnId == selected;
      }
    }
  }

  /** The service vetoes exactly what the stack cannot cut, and otherwise reports the cut. */
  lemma PreviewReadsStack(t: Tables, campaign: string, selected: string)
    requires Readable(t)
    ensures var stack, p := Stack(t, campaign), Retcon.PreviewOf(t, campaign, selected);
            match CutAt(stack, selected)
            case None => p.Err?
            case Some(i) =>
              && p.Ok?
              && p.value.affected == Retcon.IdsOf(Canon(t.turns, campaign)[i..])
              && Some(p.value.priorCheckpoint) == TopFinal(stack[..i])
  {
    IndexOfCanon(t, campaign, selected);
    var i := IndexOf(Stack(t, campaign), selected);
    if i.Some? {
      PriorFinalIsTopFinal(t, campaign, i.value);
      Retcon.SuffixIsTop(t.turns, campaign, i.value);
      assert Retcon.IdsOf(Canon(t.turns, campaign)[i.value..]) != [];
    }
  }

  /** A retcon that the stack can cut, on its own campaign and on any other. */
  lemma CutStep(t: Tables, campaign: string, i: nat, audit: RetconAudit, other: string)
    requires Readable(t) && i < |Canon(t.turns, campaign)|
    ensures var r := Retcon.WithRetcon(t, Retcon.IdsOf(Canon(t.turns, campaign)[i..]), audit);
            && Readable(r)
            && Stack(r, other) == if other == campaign then Stack(t, campaign)[..i] else Stack(t, other)
  {
    var ids := Retcon.IdsOf(Canon(t.turns, campaign)[i..]);
    var r := Retcon.WithRetcon(t, ids, audit);
    Retcon.MarkingKeepsKeys(t.turns, ids);
    if other == campaign {
      Retcon.MarkingPops(t.turns, campaign, i);
      assert Stack(r, other) == Frames(t, Canon(t.turns, campaign)[..i]);
    } else {
      Retcon.MarkingSparesOthers(t.turns, campaign, i, other);
      assert Stack(r, other) == Frames(t, Canon(t.turns, other));
    }
  }

  lemma MarkingKeepsTimes(turns: seq<TurnRecord>, ids: seq<string>, clock: Time)
    requires WrittenBy(turns, clock)
    ensures WrittenBy(MarkedRetconned(turns, ids), clock)
  {
  }

  lemma AppliedRetcon(t: Tables, e: Event)
    requires e.Retconned?
    ensures match Retcon.PreviewOf(t, e.campaign, e.selected)
            case Err(_) => Apply(t, e) == t
            case Ok(p) =>
              Apply(t, e)
              == Retcon.WithRetcon(t, p.affected, Retcon.AuditOf(e.campaign, p, e.auditId, e.reason, e.now))
  {
  }

  lemma RetconStep(t: Tables, clock: Time, e: Event, campaign: string)
    requires e.Retconned? && Inv(t, clock) && Legal(t, clock, e)
    ensures Inv(Apply(t, e), e.now) && Stack(Apply(t, e), campaign) == StackStep(Stack(t, campaign), campaign, e)
  {
    var cut, preview := CutAt(Stack(t, e.campaign), e.selected), Retcon.PreviewOf(t, e.campaign, e.selected);
    PreviewReadsStack(t, e.campaign, e.selected);
    AppliedRetcon(t, e);
    if cut.Some? {
      var ids := Retcon.IdsOf(Canon(t.turns, e.campaign)[cut.value..]);
      MarkingKeepsTimes(t.turns, ids, e.now);
      var audit := Retcon.AuditOf(e.campaign, preview.value, e.auditId, e.reason, e.now);
      CutStep(t, e.campaign, cut.value, audit, campaign);
    }
  }

  // ---------------------------------------------------------------- what a preview counts

  lemma {:induction false} CountOneMore(rows: seq<TranscriptEntry>, ids: seq<string>, id: string)
    requires id !in ids
    ensures Retcon.CountLines(rows, ids + [id]) == Retcon.CountLines(rows, ids) + |RowsOf(rows, id)|
  {
    if rows != [] {
      CountOneMore(rows[1..], ids, id);
      assert rows[0].turnId in ids + [id] <==> rows[0].turnId in ids || rows[0].turnId == id;
    }
  }

  lemma {:induction false} CountNone(rows: seq<TranscriptEntry>)
    ensures Retcon.CountLines(rows, []) == 0
  {
    if rows != [] { CountNone(rows[1..]); }
  }

  ghost predicate DistinctTurns(turns: seq<TurnRecord>) {
    forall i, j :: 0 <= i < j < |turns| ==> turns[i].turnId != turns[j].turnId
  }

  lemma {:induction false} CountedLines(t: Tables, turns: seq<TurnRecord>)
    requires DistinctTurns(turns)
    ensures Retcon.CountLines(t.transcripts, Retcon.IdsOf(turns)) == |History(Frames(t, turns))|
  {
    var ids := Retcon.IdsOf(turns);
    if turns == [] {
      CountNone(t.transcripts);
      assert ids == [];
    } else {
      var n := |turns| - 1;
      CountedLines(t, turns[..n]);
      var front, id := Retcon.IdsOf(turns[..n]), turns[n].turnId;
      assert ids == front + [id];
      CountOneMore(t.transcripts, front, id);
      Sorting.SortMultiset(OrderBefore<Line>, RowsOf(t.transcripts, id));
      assert Frames(t, turns)[..n] == Frames(t, turns[..n]);
    }
  }

  lemma CanonDistinct(t: Tables, campaign: string)
    requires UniqueIds(t.turns) && DistinctTimes(t.turns)
    ensures DistinctTurns(Canon(t.turns, campaign))
  {
    var canon := Canon(t.turns, campaign);
    CanonSorted(t.turns, campaign);
    forall i, j | 0 <= i < j < |canon| ensures canon[i].turnId != canon[j].turnId {
      CanonMember(t.turns, campaign, canon[i]);
      CanonMember(t.turns, campaign, canon[j]);
      GetUnique(t.turns, canon[i]);
      GetUnique(t.turns, canon[j]);
    }
  }

  lemma CountedSuffix(t: Tables, campaign: string, i: nat)
    requires Readable(t) && i <= |Stack(t, campaign)|
    ensures Retcon.CountLines(t.transcripts, Retcon.IdsOf(Canon(t.turns, campaign)[i..]))
            == |History(Stack(t, campaign)[i..])|
  {
    var suffix := Canon(t.turns, campaign)[i..];
    CanonDistinct(t, campaign);
    CountedLines(t, suffix);
    assert Stack(t, campaign)[i..] == Frames(t, suffix);
  }

  lemma PreviewCount(t: Tables, campaign: string, selected: string)
    requires Retcon.PreviewOf(t, campaign, selected).Ok?
    ensures var p := Retcon.PreviewOf(t, campaign, selected).value;
            p.transcriptCount == Retcon.CountLines(t.transcripts, p.affected)
  {
  }

  /** The line count of a preview is the number of lines that canon loses. */
  lemma PreviewCountsPopped(t: Tables, campaign: string, selected: string)
    requires Readable(t) && Retcon.PreviewOf(t, campaign, selected).Ok?
    ensures var stack := Stack(t, campaign);
            && CutAt(stack, selected).Some?
            && Retcon.PreviewOf(t, campaign, selected).value.transcriptCount
               == |History(stack[CutAt(stack, selected).value..])|
  {
    PreviewReadsStack(t, campaign, selected);
    PreviewCount(t, campaign, selected);
    CountedSuffix(t, campaign, CutAt(Stack(t, campaign), selected).value);
  }

  // ---------------------------------------------------------------- every run

  lemma StepRefines(t: Tables, clock: Time, e: Event, campaign: string)
    requires Inv(t, clock) && Legal(t, clock, e)
    ensures Inv(Apply(t, e), TimeOf(e)) && Stack(Apply(t, e), campaign) == StackStep(Stack(t, campaign), campaign, e)
  {
    match e
    case Closed(_, _, _, _, _) => ClosedReadable(t, clock, e); ClosedStep(t, clock, e, campaign);
    case Retconned(_, _, _, _, _) => RetconStep(t, clock, e, campaign);
    case SetAside(_, _, _) => SetAsideStep(t, clock, e, campaign);
    case Began(_) => BeganStep(t, clock, e, campaign);
    case Checkpointed(_, _) => CheckpointedStep(t, clock, e, campaign);
    case SessionWritten(_, _, _, _, _) => SessionStep(t, clock, e, campaign);
  }

  /**
   Over every legal run, a campaign's canonical turns are the stack that closes push, retcons pop
   and set-aside turns leave.
   */
  lemma {:induction false} RunRefinesStack(t: Tables, clock: Time, events: seq<Event>, campaign: string)
    requires Inv(t, clock) && LegalRun(t, clock, events)
    ensures Inv(Run(t, events), ClockAfter(clock, events))
    ensures Stack(Run(t, events), campaign) == StackRun(Stack(t, campaign), campaign, events)
    decreases |events|
  {
    if events != [] {
      var front, last := events[..|events| - 1], events[|events| - 1];
      RunRefinesStack(t, clock, front, campaign);
      StepRefines(Run(t, front), ClockAfter(clock, front), last, campaign);
    }
  }

  /** In every state a legal run reaches, scrollback is the tail of what the stack says was told. */
  lemma ScrollbackOverRuns(t: Tables, clock: Time, events: seq<Event>, campaign: string, limit: nat)
    requires Inv(t, clock) && LegalRun(t, clock, events)
    ensures Scrollback(Run(t, events), campaign, limit, false)
            == LastN(History(StackRun(Stack(t, campaign), campaign, events)), limit)
  {
    RunRefinesStack(t, clock, events, campaign);
    ScrollbackIsSuffix(Run(t, events), campaign, limit);
  }

  // ---------------------------------------------------------------- the rewind checkpoint

  /** The newest final checkpoint of a stack belongs to one of its turns. */
  lemma {:induction false} TopFinalOwner(stack: seq<Frame>)
    requires TopFinal(stack).Some?
    ensures exists k, j ::
              0 <= k < |stack| && 0 <= j < |stack[k].finals| && stack[k].finals[j].payload.id == TopFinal(stack).value
  {
    var last := stack[|stack| - 1];
    if last.finals == [] {
      TopFinalOwner(stack[..|stack| - 1]);
      var k, j :| 0 <= k < |stack| - 1 && 0 <= j < |stack[..|stack| - 1][k].finals|
                  && stack[..|stack| - 1][k].finals[j].payload.id == TopFinal(stack).value;
      assert stack[k].finals[j].payload.id == TopFinal(stack).value;
    } else {
      assert stack[|stack| - 1].finals[|last.finals| - 1].payload.id == TopFinal(stack).value;
    }
  }

  /** Checkpoint ids are the primary key of their table. */
  ghost predicate UniqueCheckpoints(refs: seq<CheckpointRef>) {
    forall i, j :: 0 <= i < j < |refs| ==> refs[i].payload.id != refs[j].payload.id
  }

  /** A final checkpoint below a cut belongs to a canonical turn that stays. */
  lemma OwnerStays(t: Tables, campaign: string, i: nat, k: nat, ref: CheckpointRef)
    requires Readable(t) && k < i < |Canon(t.turns, campaign)| && ref in Stack(t, campaign)[k].finals
    ensures ref in t.checkpoints && ref.payload.kind.Final? && ref.turnId == Canon(t.turns, campaign)[k].turnId
    ensures ref.turnId !in Retcon.IdsOf(Canon(t.turns, campaign)[i..])
  {
    var canon := Canon(t.turns, campaign);
    OrderedRowsSorted(Finals(t.checkpoints), canon[k].turnId);
    CanonMember(t.turns, campaign, canon[k]);
    CanonSorted(t.turns, campaign);
    Retcon.IdInSlice(t.turns, campaign, i, canon[k]);
  }

  /** The rewind checkpoint of a retcon is final and never belongs to a removed turn. */
  lemma RewindSparesRemoved(t: Tables, campaign: string, selected: string, ref: CheckpointRef)
    requires Readable(t) && UniqueCheckpoints(t.checkpoints)
    requires Retcon.PreviewOf(t, campaign, selected).Ok?
    requires ref in t.checkpoints && ref.payload.id == Retcon.PreviewOf(t, campaign, selected).value.priorCheckpoint
    ensures ref.payload.kind.Final?
    ensures ref.turnId !in Retcon.PreviewOf(t, campaign, selected).value.affected
  {
    var stack := Stack(t, campaign);
    PreviewReadsStack(t, campaign, selected);
    var i := CutAt(stack, selected).value;
    TopFinalOwner(stack[..i]);
    var k, j :| 0 <= k < i && 0 <= j < |stack[..i][k].finals| && stack[..i][k].finals[j].payload.id == ref.payload.id;
    var owner := stack[k].finals[j];
    OwnerStays(t, campaign, i, k, owner);
    assert owner == ref;
  }

  ghost predicate OneFinalEach(stack: seq<Frame>) {
    forall i :: 0 <= i < |stack| ==> |stack[i].finals| == 1
  }

  lemma IndexOfOwn(t: Tables, campaign: string, i: nat)
    requires Readable(t) && i < |Stack(t, campaign)|
    ensures IndexOf(Stack(t, campaign), Stack(t, campaign)[i].turnId) == Some(i)
  {
    var canon := Canon(t.turns, campaign);
    CanonMember(t.turns, campaign, canon[i]);
    GetUnique(t.turns, canon[i]);
    IndexOfCanon(t, campaign, canon[i].turnId);
    CanonSorted(t.turns, campaign);
  }

  lemma CutOneFinal(stack: seq<Frame>, i: nat)
    requires OneFinalEach(stack) && i < |stack| && IndexOf(stack, stack[i].turnId) == Some(i)
    ensures CutAt(stack, stack[i].turnId) == if i > 0 then Some(i) else None
    ensures i > 0 ==> TopFinal(stack[..i]) == Some(stack[i - 1].finals[0].payload.id)
  {
    if i > 0 { assert stack[..i][i - 1] == stack[i - 1]; }
  }

  lemma RewindTarget(t: Tables, campaign: string, i: nat)
    requires Readable(t) && OneFinalEach(Stack(t, campaign)) && i < |Stack(t, campaign)|
    ensures var p := Retcon.PreviewOf(t, campaign, Stack(t, campaign)[i].turnId);
            && (p.Ok? <==> i > 0)
            && (i > 0 ==> p.value.priorCheckpoint == Stack(t, campaign)[i - 1].finals[0].payload.id)
            && (i > 0 ==> p.value.affected == Retcon.IdsOf(Canon(t.turns, campaign)[i..]))
  {
    IndexOfOwn(t, campaign, i);
    CutOneFinal(Stack(t, campaign), i);
    PreviewReadsStack(t, campaign, Stack(t, campaign)[i].turnId);
  }

  /**
   When every canonical turn has one final checkpoint, exactly the turns above the bottom can be
   retconned, and the rewind goes to the final checkpoint of the turn that is latest afterwards.
   */
  lemma RewindIsLatestAfter(t: Tables, campaign: string, i: nat, audit: RetconAudit)
    requires Readable(t) && OneFinalEach(Stack(t, campaign)) && i < |Stack(t, campaign)|
    ensures var stack := Stack(t, campaign);
            var p := Retcon.PreviewOf(t, campaign, stack[i].turnId);
            && (p.Ok? <==> i > 0)
            && (p.Ok? ==>
                  && p.value.priorCheckpoint == stack[i - 1].finals[0].payload.id
                  && LatestTurnId(Retcon.WithRetcon(t, p.value.affected, audit), campaign, false)
                     == Some(stack[i - 1].turnId))
  {
    RewindTarget(t, campaign, i);
    if i > 0 { LatestAfterCut(t, campaign, i, audit); }
  }

  lemma LatestOf(t: Tables, campaign: string, canon: seq<TurnRecord>)
    requires UniqueIds(t.turns) && DistinctTimes(t.turns) && Canon(t.turns, campaign) == canon && canon != []
    ensures LatestTurnId(t, campaign, false) == Some(canon[|canon| - 1].turnId)
  {
    LatestIsTop(t, campaign);
  }

  lemma LatestAfterMarking(t: Tables, campaign: string, canon: seq<TurnRecord>, i: nat, r: Tables)
    requires UniqueIds(t.turns) && DistinctTimes(t.turns) && Canon(t.turns, campaign) == canon && 0 < i < |canon|
    requires r.turns == MarkedRetconned(t.turns, Retcon.IdsOf(canon[i..]))
    ensures LatestTurnId(r, campaign, false) == Some(canon[i - 1].turnId)
  {
    Retcon.MarkingPops(t.turns, campaign, i);
    Retcon.MarkingKeepsKeys(t.turns, Retcon.IdsOf(canon[i..]));
    LatestOf(r, campaign, canon[..i]);
  }

  lemma LatestAfterCut(t: Tables, campaign: string, i: nat, audit: RetconAudit)
    requires Readable(t) && 0 < i < |Canon(t.turns, campaign)|
    ensures LatestTurnId(Retcon.WithRetcon(t, Retcon.IdsOf(Canon(t.turns, campaign)[i..]), audit), campaign, false)
            == Some(Canon(t.turns, campaign)[i - 1].turnId)
  {
    var canon := Canon(t.turns, campaign);
    LatestAfterMarking(t, campaign, canon, i, Retcon.WithRetcon(t, Retcon.IdsOf(canon[i..]), audit));
  }

  // ---------------------------------------------------------------- why fresh ids are an assumption

  /** The id after `id`: its trailing number plus one at the same width, or a suffix. */
  function NextTurnId(id: string): string {
    var digits := Text.AfterLast(id, '_');
    if '_' in id && digits != "" && Text.IsDigits(digits) then
      Text.BeforeLast(id, '_') + "_" + Text.Padded(Text.Value(digits) + 1, |digits|)
    else id + "_next"
  }

  /** When ids were issued one after the other, the id issued after a retcon is the removed turn's. */
  lemma RetconReissuesId(t: Tables, campaign: string, i: nat, audit: RetconAudit)
    requires Readable(t) && OneFinalEach(Stack(t, campaign)) && 0 < i < |Stack(t, campaign)|
    requires Stack(t, campaign)[i].turnId == NextTurnId(Stack(t, campaign)[i - 1].turnId)
    ensures var p := Retcon.PreviewOf(t, campaign, Stack(t, campaign)[i].turnId);
            && p.Ok?
            && var latest := LatestTurnId(Retcon.WithRetcon(t, p.value.affected, audit), campaign, false);
               latest.Some? && NextTurnId(latest.value) == Stack(t, campaign)[i].turnId
  {
    RewindIsLatestAfter(t, campaign, i, audit);
  }

  /**
   Closing under an id that was used before puts the old lines back into canon: the new turn
   shows exactly the lines it was closed with if and only if the id had no lines.
   */
  lemma StaleLinesReturn(t: Tables, b: TurnClose.Bundle, now: Time)
    requires forall x :: x in b.transcripts ==> x.turnId == b.turn.turnId
    ensures var c := TurnClose.Closed(t, b, now);
            && (FrameOf(c, TurnClose.CompletedRecord(b, now)).lines == OrderedRows(b.transcripts, b.turn.turnId)
                <==> RowsOf(t.transcripts, b.turn.turnId) == [])
            && (forall x :: x in t.transcripts && x.turnId == b.turn.turnId ==>
                  x in FrameOf(c, TurnClose.CompletedRecord(b, now)).lines)
  {
    var id := b.turn.turnId;
    var stale := RowsOf(t.transcripts, id);
    RowsOfAppend(t.transcripts, b.transcripts, id);
    var all := RowsOf(t.transcripts + b.transcripts, id);
    Sorting.SortMultiset(OrderBefore<Line>, all);
    Sorting.SortMultiset(OrderBefore<Line>, RowsOf(b.transcripts, id));
    Sorting.SortElements(OrderBefore<Line>, all);
    if stale == [] { assert all == RowsOf(b.transcripts, id); }
  }
}
