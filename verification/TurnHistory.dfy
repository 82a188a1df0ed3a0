/**
 The canonical reads: filter, sort, limit queries over the turn tables, and what they mean in
 terms of the campaign's stack of canonical turns.
 */
module TurnHistory {
  import opened Basics
  import opened TurnTables
  import Sorting
  import Text

  // ---------------------------------------------------------------- queries

  predicate NewestFirst(a: TurnRecord, b: TurnRecord) {
    a.completedAt > b.completedAt || (a.completedAt == b.completedAt && Text.Less(b.turnId, a.turnId))
  }

  function LatestTurnId(t: Tables, campaign: string, includeRetconned: bool): Option<string> {
    var rows := Sorting.Sort(NewestFirst, SelectTurns(t.turns, campaign, includeRetconned));
    if rows == [] then None else Some(rows[0].turnId)
  }

  predicate OldestFirst(a: TurnRecord, b: TurnRecord) {
    || a.completedAt < b.completedAt
    || (a.completedAt == b.completedAt && a.startedAt < b.startedAt)
    || (a.completedAt == b.completedAt && a.startedAt == b.startedAt && Text.Less(a.turnId, b.turnId))
  }

  function InSession(turns: seq<TurnRecord>, session: string): (r: seq<TurnRecord>)
    ensures forall t :: t in r <==> t in turns && t.session == session
  {
    if turns == [] then []
    else if turns[0].session == session then [turns[0]] + InSession(turns[1..], session)
    else InSession(turns[1..], session)
  }

  function SessionTurns(t: Tables, campaign: string, session: string, includeRetconned: bool): seq<TurnRecord> {
    Sorting.Sort(OldestFirst, InSession(SelectTurns(t.turns, campaign, includeRetconned), session))
  }

  /** A row of a child table joined with its turn. */
  type Joined<P> = (TurnRecord, Entry<P>)

  function Join<P>(
      turns: seq<TurnRecord>, rows: seq<Entry<P>>, campaign: string, includeRetconned: bool): seq<Joined<P>>
  {
    if rows == [] then []
    else
      var rest := Join(turns, rows[1..], campaign, includeRetconned);
      match GetTurn(turns, rows[0].turnId)
      case Some(t) =>
        if t.campaign == campaign && (includeRetconned || t.status.Complete?) then [(t, rows[0])] + rest else rest
      case None => rest
  }

  predicate ChronoBefore<P>(a: Joined<P>, b: Joined<P>) {
    a.0.completedAt < b.0.completedAt || (a.0.completedAt == b.0.completedAt && a.1.order < b.1.order)
  }

  predicate ChronoAfter<P>(a: Joined<P>, b: Joined<P>) {
    ChronoBefore(b, a)
  }

  function Rows<P>(joined: seq<Joined<P>>): (r: seq<Entry<P>>)
    ensures |r| == |joined| && forall i :: 0 <= i < |r| ==> r[i] == joined[i].1
  {
    seq(|joined|, i requires 0 <= i < |joined| => joined[i].1)
  }

  /** Newest first, limited, then turned around. */
  function Scrollback(t: Tables, campaign: string, limit: int, includeRetconned: bool): seq<TranscriptEntry> {
    if limit <= 0 then []
    else
      var newest := Sorting.Sort(ChronoAfter, Join(t.turns, t.transcripts, campaign, includeRetconned));
      Rows(Reverse(Limit(newest, limit)))
  }

  function Finals(refs: seq<CheckpointRef>): (r: seq<CheckpointRef>)
    ensures forall x :: x in r <==> x in refs && x.payload.kind.Final?
  {
    if refs == [] then []
    else if refs[0].payload.kind.Final? then [refs[0]] + Finals(refs[1..])
    else Finals(refs[1..])
  }

  function CompletedBy<P(!new)>(joined: seq<Joined<P>>, before: Time): (r: seq<Joined<P>>)
    ensures forall x :: x in r <==> x in joined && x.0.completedAt < before
  {
    if joined == [] then []
    else if joined[0].0.completedAt < before then [joined[0]] + CompletedBy(joined[1..], before)
    else CompletedBy(joined[1..], before)
  }

  /** The latest final checkpoint of a turn completed strictly before `before`. */
  function PriorFinalCheckpoint(t: Tables, campaign: string, before: Time, includeRetconned: bool): Option<string> {
    var finals := Join(t.turns, Finals(t.checkpoints), campaign, includeRetconned);
    var rows := Sorting.Sort(ChronoAfter, CompletedBy(finals, before));
    if rows == [] then None else Some(rows[0].1.payload.id)
  }

  // ---------------------------------------------------------------- the stack

  /** A canonical turn with its transcript lines and its final checkpoints, each in order. */
  datatype Frame = Frame(turnId: string, completedAt: Time, lines: seq<TranscriptEntry>, finals: seq<CheckpointRef>)

  function RowsOf<P(!new)>(rows: seq<Entry<P>>, id: string): (r: seq<Entry<P>>)
    ensures forall x :: x in r <==> x in rows && x.turnId == id
  {
    if rows == [] then []
    else if rows[0].turnId == id then [rows[0]] + RowsOf(rows[1..], id)
    else RowsOf(rows[1..], id)
  }

  predicate OrderBefore<P>(a: Entry<P>, b: Entry<P>) {
    a.order < b.order
  }

  function OrderedRows<P(!new)>(rows: seq<Entry<P>>, id: string): seq<Entry<P>> {
    Sorting.Sort(OrderBefore, RowsOf(rows, id))
  }

  function FrameOf(t: Tables, turn: TurnRecord): Frame {
    Frame(turn.turnId, turn.completedAt,
          OrderedRows(t.transcripts, turn.turnId), OrderedRows(Finals(t.checkpoints), turn.turnId))
  }

  /** The campaign's canonical turns as a stack, oldest at the bottom. */
  function Stack(t: Tables, campaign: string): (s: seq<Frame>)
    ensures |s| == |Canon(t.turns, campaign)|
    ensures forall i :: 0 <= i < |s| ==> s[i] == FrameOf(t, Canon(t.turns, campaign)[i])
  {
    var canon := Canon(t.turns, campaign);
    seq(|canon|, i requires 0 <= i < |canon| => FrameOf(t, canon[i]))
  }

  /** Everything said in canon, in order. */
  function History(stack: seq<Frame>): seq<TranscriptEntry> {
    if stack == [] then [] else History(stack[..|stack| - 1]) + stack[|stack| - 1].lines
  }

  /** The newest final checkpoint of a stack of turns. */
  function TopFinal(stack: seq<Frame>): Option<string> {
    if stack == [] then None
    else
      var finals := stack[|stack| - 1].finals;
      if finals == [] then TopFinal(stack[..|stack| - 1]) else Some(finals[|finals| - 1].payload.id)
  }

  /** Inside one turn, no two rows share their ordering column. */
  ghost predicate DistinctOrders<P>(rows: seq<Entry<P>>) {
    forall i, j :: 0 <= i < j < |rows| && rows[i].turnId == rows[j].turnId ==> rows[i].order != rows[j].order
  }

  ghost predicate Readable(t: Tables) {
    && UniqueIds(t.turns) && DistinctTimes(t.turns)
    && DistinctOrders(t.transcripts) && DistinctOrders(Finals(t.checkpoints))
  }

  // ---------------------------------------------------------------- sorting a join

  lemma {:induction false} JoinMember<P(!new)>(
      turns: seq<TurnRecord>, rows: seq<Entry<P>>, campaign: string, x: Joined<P>)
    requires UniqueIds(turns)
    ensures x in Join(turns, rows, campaign, false) <==>
            x.1 in rows && x.0 in turns && x.0.turnId == x.1.turnId && IsCanonical(x.0, campaign)
  {
    if rows != [] {
      JoinMember(turns, rows[1..], campaign, x);
      assert rows == [rows[0]] + rows[1..];
      if x.0 in turns { GetUnique(turns, x.0); }
    }
  }

  lemma {:induction false} JoinDistinguished<P(!new)>(turns: seq<TurnRecord>, rows: seq<Entry<P>>, campaign: string)
    requires UniqueIds(turns) && DistinctTimes(turns) && DistinctOrders(rows)
    ensures Sorting.Distinguished(ChronoBefore<P>, Join(turns, rows, campaign, false))
  {
    if rows != [] {
      JoinDistinguished(turns, rows[1..], campaign);
      var rest := Join(turns, rows[1..], campaign, false);
      var found := GetTurn(turns, rows[0].turnId);
      if found.Some? && IsCanonical(found.value, campaign) {
        var head := (found.value, rows[0]);
        forall j | 0 <= j < |rest| ensures ChronoBefore(head, rest[j]) || ChronoBefore(rest[j], head) {
          JoinMember(turns, rows[1..], campaign, rest[j]);
          var k :| 0 <= k < |rows| - 1 && rows[1..][k] == rest[j].1;
          assert rows[k + 1] == rest[j].1;
          TimesDiffer(turns, head.0, rest[j].0);
        }
      }
    }
  }

  lemma TimesDiffer(turns: seq<TurnRecord>, a: TurnRecord, b: TurnRecord)
    requires DistinctTimes(turns) && a in turns && b in turns
    requires a.status.Complete? && b.status.Complete? && a.campaign == b.campaign
    ensures a == b || a.completedAt != b.completedAt
  {
    var i :| 0 <= i < |turns| && turns[i] == a;
    var j :| 0 <= j < |turns| && turns[j] == b;
  }

  lemma {:induction false} RowsDistinguished<P(!new)>(rows: seq<Entry<P>>, id: string)
    requires DistinctOrders(rows)
    ensures Sorting.Distinguished(OrderBefore<P>, RowsOf(rows, id))
  {
    if rows != [] {
      RowsDistinguished(rows[1..], id);
      var rest := RowsOf(rows[1..], id);
      if rows[0].turnId == id {
        forall j | 0 <= j < |rest| ensures rows[0].order != rest[j].order {
          assert rest[j] in rows[1..];
          var k :| 0 <= k < |rows| - 1 && rows[1..][k] == rest[j];
          assert rows[k + 1] == rest[j];
        }
      }
    }
  }

  lemma OrderedRowsSorted<P(!new)>(rows: seq<Entry<P>>, id: string)
    requires DistinctOrders(rows)
    ensures Sorting.StrictlySorted(OrderBefore<P>, OrderedRows(rows, id))
    ensures forall x :: x in OrderedRows(rows, id) <==> x in rows && x.turnId == id
  {
    RowsDistinguished(rows, id);
    Sorting.SortStrict(OrderBefore<P>, RowsOf(rows, id));
    Sorting.SortElements(OrderBefore<P>, RowsOf(rows, id));
  }

  function Paired<P>(turn: TurnRecord, rows: seq<Entry<P>>): (r: seq<Joined<P>>)
    ensures |r| == |rows| && forall i :: 0 <= i < |r| ==> r[i] == (turn, rows[i])
  {
    seq(|rows|, i requires 0 <= i < |rows| => (turn, rows[i]))
  }

  /** Turn by turn, each turn's rows in order. */
  function TurnByTurn<P(!new)>(turns: seq<TurnRecord>, rows: seq<Entry<P>>): seq<Joined<P>> {
    if turns == [] then []
    else TurnByTurn(turns[..|turns| - 1], rows)
         + Paired(turns[|turns| - 1], OrderedRows(rows, turns[|turns| - 1].turnId))
  }

  lemma {:induction false} TurnByTurnMember<P(!new)>(turns: seq<TurnRecord>, rows: seq<Entry<P>>, x: Joined<P>)
    requires DistinctOrders(rows)
    ensures x in TurnByTurn(turns, rows) <==> x.0 in turns && x.1 in rows && x.1.turnId == x.0.turnId
  {
    if turns != [] {
      var last := turns[|turns| - 1];
      TurnByTurnMember(turns[..|turns| - 1], rows, x);
      OrderedRowsSorted(rows, last.turnId);
      var ordered := OrderedRows(rows, last.turnId);
      assert turns == turns[..|turns| - 1] + [last];
      if x.0 == last && x.1 in ordered {
        var i :| 0 <= i < |ordered| && ordered[i] == x.1;
        assert Paired(last, ordered)[i] == x;
      }
    }
  }

  lemma {:induction false} TurnByTurnSorted<P(!new)>(turns: seq<TurnRecord>, rows: seq<Entry<P>>)
    requires DistinctOrders(rows) && Sorting.StrictlySorted(CompletedBefore, turns)
    ensures Sorting.StrictlySorted(ChronoBefore<P>, TurnByTurn(turns, rows))
  {
    if turns != [] {
      var last := turns[|turns| - 1];
      var front := TurnByTurn(turns[..|turns| - 1], rows);
      TurnByTurnSorted(turns[..|turns| - 1], rows);
      OrderedRowsSorted(rows, last.turnId);
      forall i | 0 <= i < |front| ensures front[i].0.completedAt < last.completedAt {
        TurnByTurnMember(turns[..|turns| - 1], rows, front[i]);
      }
    }
  }

  /** Sorting a join by time and row order lists it turn by turn. */
  lemma SortedJoin<P(!new)>(joined: seq<Joined<P>>, turns: seq<TurnRecord>, rows: seq<Entry<P>>)
    requires Sorting.Distinguished(ChronoBefore<P>, joined)
    requires DistinctOrders(rows) && Sorting.StrictlySorted(CompletedBefore, turns)
    requires forall x :: x in joined <==> x.0 in turns && x.1 in rows && x.1.turnId == x.0.turnId
    ensures Sorting.Sort(ChronoAfter<P>, joined) == Reverse(TurnByTurn(turns, rows))
  {
    var sorted := TurnByTurn(turns, rows);
    TurnByTurnSorted(turns, rows);
    forall x ensures x in joined <==> x in Reverse(sorted) {
      TurnByTurnMember(turns, rows, x);
      ReverseMember(sorted, x);
    }
    Sorting.SortUnique(ChronoAfter<P>, joined, Reverse(sorted));
  }

  lemma ReverseMember<T>(s: seq<T>, x: T)
    ensures x in Reverse(s) <==> x in s
  {
    if x in s {
      var i :| 0 <= i < |s| && s[i] == x;
      assert Reverse(s)[|s| - 1 - i] == x;
    }
  }

  lemma CanonJoin<P(!new)>(turns: seq<TurnRecord>, rows: seq<Entry<P>>, campaign: string)
    requires UniqueIds(turns) && DistinctTimes(turns) && DistinctOrders(rows)
    ensures Sorting.Distinguished(ChronoBefore<P>, Join(turns, rows, campaign, false))
    ensures forall x :: x in Join(turns, rows, campaign, false) <==>
                        x.0 in Canon(turns, campaign) && x.1 in rows && x.1.turnId == x.0.turnId
    ensures Sorting.StrictlySorted(CompletedBefore, Canon(turns, campaign))
  {
    JoinDistinguished(turns, rows, campaign);
    CanonSorted(turns, campaign);
    forall x ensures x in Join(turns, rows, campaign, false) <==>
                     x.0 in Canon(turns, campaign) && x.1 in rows && x.1.turnId == x.0.turnId {
      JoinMember(turns, rows, campaign, x);
      CanonMember(turns, campaign, x.0);
    }
  }

  // ---------------------------------------------------------------- what the reads mean

  /** The latest turn is the top of the stack. */
  lemma LatestIsTop(t: Tables, campaign: string)
    requires UniqueIds(t.turns) && DistinctTimes(t.turns)
    ensures var canon := Canon(t.turns, campaign);
            LatestTurnId(t, campaign, false) == if canon == [] then None else Some(canon[|canon| - 1].turnId)
  {
    var selected := SelectTurns(t.turns, campaign, false);
    var canon := Canon(t.turns, campaign);
    CanonSorted(t.turns, campaign);
    SelectDistinguished(t.turns, campaign);
    NewestFirstIsStrict();
    Sorting.SortElements(CompletedBefore, selected);
    forall x ensures x in selected <==> x in Reverse(canon) { ReverseMember(canon, x); }
    Sorting.SortUnique(NewestFirst, selected, Reverse(canon));
  }

  lemma NewestFirstIsStrict()
    ensures Sorting.StrictOrder(NewestFirst)
  {
    forall x ensures !NewestFirst(x, x) { Text.LessIrreflexive(x.turnId); }
    forall x, y, z | NewestFirst(x, y) && NewestFirst(y, z) ensures NewestFirst(x, z) {
      if x.completedAt == y.completedAt == z.completedAt { Text.LessTransitive(z.turnId, y.turnId, x.turnId); }
    }
  }

  lemma OldestFirstIsStrict()
    ensures Sorting.StrictOrder(OldestFirst)
  {
    forall x ensures !OldestFirst(x, x) { Text.LessIrreflexive(x.turnId); }
    forall x, y, z | OldestFirst(x, y) && OldestFirst(y, z) ensures OldestFirst(x, z) {
      if Text.Less(x.turnId, y.turnId) && Text.Less(y.turnId, z.turnId) {
        Text.LessTransitive(x.turnId, y.turnId, z.turnId);
      }
    }
  }

  lemma {:induction false} InSessionSorted(turns: seq<TurnRecord>, session: string)
    ensures Sorting.StrictlySorted(CompletedBefore, turns) ==>
      Sorting.StrictlySorted(CompletedBefore, InSession(turns, session))
    ensures Sorting.Distinguished(CompletedBefore, turns) ==>
      Sorting.Distinguished(CompletedBefore, InSession(turns, session))
  {
    if turns != [] {
      InSessionSorted(turns[1..], session);
      var rest := InSession(turns[1..], session);
      forall j | 0 <= j < |rest| ensures rest[j] in turns[1..] {}
    }
  }

  /** The turns of a session are the turns of the stack that belong to it, in stack order. */
  lemma SessionIsPartOfCanon(t: Tables, campaign: string, session: string)
    requires UniqueIds(t.turns) && DistinctTimes(t.turns)
    ensures SessionTurns(t, campaign, session, false) == InSession(Canon(t.turns, campaign), session)
  {
    var selected, canon := SelectTurns(t.turns, campaign, false), Canon(t.turns, campaign);
    CanonSorted(t.turns, campaign);
    SelectDistinguished(t.turns, campaign);
    InSessionSorted(selected, session);
    InSessionSorted(canon, session);
    Sorting.SortElements(CompletedBefore, selected);
    OldestFirstIsStrict();
    Sorting.SortUnique(OldestFirst, InSession(selected, session), InSession(canon, session));
  }

  /** Scrollback is a suffix of the canonical history, for every limit. */
  lemma ScrollbackIsSuffix(t: Tables, campaign: string, limit: int)
    requires UniqueIds(t.turns) && DistinctTimes(t.turns) && DistinctOrders(t.transcripts)
    ensures Scrollback(t, campaign, limit, false) ==
            LastN(History(Stack(t, campaign)), if limit < 0 then 0 else limit)
  {
    var canon := Canon(t.turns, campaign);
    CanonJoin(t.turns, t.transcripts, campaign);
    SortedJoin(Join(t.turns, t.transcripts, campaign, false), canon, t.transcripts);
    if limit > 0 { RowsOfNewest(TurnByTurn(canon, t.transcripts), limit); }
    assert History(Stack(t, campaign)) == Rows(TurnByTurn(canon, t.transcripts)) by {
      HistoryIsTurnByTurn(t, canon);
      assert Stack(t, campaign) == Frames(t, canon);
    }
  }

  lemma RowsOfNewest<P>(sorted: seq<Joined<P>>, limit: nat)
    ensures Rows(Reverse(Limit(Reverse(sorted), limit))) == LastN(Rows(sorted), limit)
  {
    LimitOfReverse(sorted, limit);
    assert Rows(LastN(sorted, limit)) == LastN(Rows(sorted), limit);
  }

  function Frames(t: Tables, turns: seq<TurnRecord>): (s: seq<Frame>)
    ensures |s| == |turns| && forall i :: 0 <= i < |s| ==> s[i] == FrameOf(t, turns[i])
  {
    seq(|turns|, i requires 0 <= i < |turns| => FrameOf(t, turns[i]))
  }

  lemma {:induction false} HistoryIsTurnByTurn(t: Tables, turns: seq<TurnRecord>)
    ensures History(Frames(t, turns)) == Rows(TurnByTurn(turns, t.transcripts))
  {
    if turns != [] {
      var front := turns[..|turns| - 1];
      HistoryIsTurnByTurn(t, front);
      assert Frames(t, turns)[..|turns| - 1] == Frames(t, front);
    }
  }

  lemma BelowPlace(canon: seq<TurnRecord>, i: nat, x: TurnRecord)
    requires Sorting.StrictlySorted(CompletedBefore, canon) && i < |canon|
    ensures x in canon[..i] <==> x in canon && x.completedAt < canon[i].completedAt
  {
    if x in canon {
      var k :| 0 <= k < |canon| && canon[k] == x;
      assert k < i <==> x.completedAt < canon[i].completedAt;
    }
  }

  lemma PriorFinalRows(t: Tables, campaign: string, i: nat)
    requires Readable(t) && i < |Canon(t.turns, campaign)|
    ensures var canon, finals := Canon(t.turns, campaign), Finals(t.checkpoints);
            var joined := CompletedBy(Join(t.turns, finals, campaign, false), canon[i].completedAt);
            Sorting.Sort(ChronoAfter<Checkpoint>, joined) == Reverse(TurnByTurn(canon[..i], finals))
  {
    var canon, finals := Canon(t.turns, campaign), Finals(t.checkpoints);
    var joined := Join(t.turns, finals, campaign, false);
    CanonJoin(t.turns, finals, campaign);
    CompletedByDistinguished(joined, canon[i].completedAt);
    forall x ensures x in canon[..i] <==> x in canon && x.completedAt < canon[i].completedAt {
      BelowPlace(canon, i, x);
    }
    SortedJoin(CompletedBy(joined, canon[i].completedAt), canon[..i], finals);
  }

  /** The checkpoint of the last row. */
  function LastId(rows: seq<Joined<Checkpoint>>): Option<string> {
    if rows == [] then None else Some(rows[|rows| - 1].1.payload.id)
  }

  lemma FirstOfReversed(rows: seq<Joined<Checkpoint>>)
    ensures LastId(rows) == if Reverse(rows) == [] then None else Some(Reverse(rows)[0].1.payload.id)
  {
  }

  lemma PriorFinalRead(t: Tables, campaign: string, before: Time, rows: seq<Joined<Checkpoint>>)
    requires Sorting.Sort(ChronoAfter<Checkpoint>,
                          CompletedBy(Join(t.turns, Finals(t.checkpoints), campaign, false), before))
             == Reverse(rows)
    ensures PriorFinalCheckpoint(t, campaign, before, false) == LastId(rows)
  {
    FirstOfReversed(rows);
  }

  lemma StackBelow(t: Tables, campaign: string, i: nat)
    requires i <= |Canon(t.turns, campaign)|
    ensures Stack(t, campaign)[..i] == Frames(t, Canon(t.turns, campaign)[..i])
  {
  }

  /** The prior final checkpoint of a canonical turn is the newest final one below it. */
  lemma PriorFinalIsTopFinal(t: Tables, campaign: string, i: nat)
    requires Readable(t) && i < |Canon(t.turns, campaign)|
    ensures PriorFinalCheckpoint(t, campaign, Canon(t.turns, campaign)[i].completedAt, false)
            == TopFinal(Stack(t, campaign)[..i])
  {
    var below, before := Canon(t.turns, campaign)[..i], Canon(t.turns, campaign)[i].completedAt;
    PriorFinalRows(t, campaign, i);
    PriorFinalRead(t, campaign, before, TurnByTurn(below, Finals(t.checkpoints)));
    StackBelow(t, campaign, i);
    TopFinalIsLast(t, below);
  }

  lemma {:induction false} CompletedByDistinguished<P(!new)>(joined: seq<Joined<P>>, before: Time)
    requires Sorting.Distinguished(ChronoBefore<P>, joined)
    ensures Sorting.Distinguished(ChronoBefore<P>, CompletedBy(joined, before))
  {
    if joined != [] {
      CompletedByDistinguished(joined[1..], before);
      var rest := CompletedBy(joined[1..], before);
      forall j | 0 <= j < |rest| ensures ChronoBefore(joined[0], rest[j]) || ChronoBefore(rest[j], joined[0]) {
        assert rest[j] in joined[1..];
      }
    }
  }

  lemma TopFinalSnoc(front: seq<Frame>, f: Frame)
    ensures TopFinal(front + [f]) ==
            if f.finals == [] then TopFinal(front) else Some(f.finals[|f.finals| - 1].payload.id)
  {
    assert (front + [f])[..|front|] == front;
  }

  lemma LastIdAppend(before: seq<Joined<Checkpoint>>, turn: TurnRecord, added: seq<CheckpointRef>)
    ensures LastId(before + Paired(turn, added)) ==
            if added == [] then LastId(before) else Some(added[|added| - 1].payload.id)
  {
    if before + Paired(turn, added) != [] { LastOfAppend(before, Paired(turn, added)); }
  }

  lemma FramesSplit(t: Tables, front: seq<TurnRecord>, last: TurnRecord)
    ensures Frames(t, front + [last]) == Frames(t, front) + [FrameOf(t, last)]
  {
  }

  lemma TurnByTurnSnoc<P(!new)>(front: seq<TurnRecord>, last: TurnRecord, rows: seq<Entry<P>>)
    ensures TurnByTurn(front + [last], rows) == TurnByTurn(front, rows) + Paired(last, OrderedRows(rows, last.turnId))
  {
    assert (front + [last])[..|front|] == front;
  }

  lemma {:induction false} TopFinalIsLast(t: Tables, turns: seq<TurnRecord>)
    ensures TopFinal(Frames(t, turns)) == LastId(TurnByTurn(turns, Finals(t.checkpoints)))
  {
    if turns != [] {
      var front, last := turns[..|turns| - 1], turns[|turns| - 1];
      assert turns == front + [last];
      TopFinalIsLast(t, front);
      FramesSplit(t, front, last);
      TopFinalSnoc(Frames(t, front), FrameOf(t, last));
      TurnByTurnSnoc(front, last, Finals(t.checkpoints));
      LastIdAppend(TurnByTurn(front, Finals(t.checkpoints)), last, OrderedRows(Finals(t.checkpoints), last.turnId));
    }
  }

  // ---------------------------------------------------------------- the reads, row by row

  /** Canon holds the complete turns of the campaign, each completed before the next. */
  lemma CanonIsChronological(turns: seq<TurnRecord>, campaign: string, t: TurnRecord)
    requires DistinctTimes(turns)
    ensures t in Canon(turns, campaign) <==> t in turns && t.campaign == campaign && t.status == Complete
    ensures forall i, j :: 0 <= i < j < |Canon(turns, campaign)| ==>
              Canon(turns, campaign)[i].completedAt < Canon(turns, campaign)[j].completedAt
  {
    CanonMember(turns, campaign, t);
    CanonSorted(turns, campaign);
  }

  /** The row belongs to this turn, a complete one of the campaign. */
  ghost predicate OwnedBy<P>(t: Tables, campaign: string, turn: TurnRecord, e: Entry<P>) {
    turn in t.turns && turn.turnId == e.turnId && turn.campaign == campaign && turn.status == Complete
  }

  ghost predicate IsCanonRow<P(!new)>(t: Tables, campaign: string, rows: seq<Entry<P>>, e: Entry<P>) {
    e in rows && exists turn :: OwnedBy(t, campaign, turn, e)
  }

  /** The turn of the first row was completed earlier, or it is the same turn and the first row comes earlier in it. */
  ghost predicate RowBefore<P>(t: Tables, campaign: string, a: Entry<P>, b: Entry<P>) {
    exists x, y :: OwnedBy(t, campaign, x, a) && OwnedBy(t, campaign, y, b)
      && (x.completedAt < y.completedAt || (x == y && a.order < b.order))
  }

  /**
   Scrollback shows lines of complete turns of the campaign, oldest first. It shows as many as the
   limit lets it, and leaves out none that is later than one it shows.
   */
  lemma ScrollbackReads(t: Tables, campaign: string, limit: int, e: TranscriptEntry)
    requires UniqueIds(t.turns) && DistinctTimes(t.turns) && DistinctOrders(t.transcripts)
    ensures var r := Scrollback(t, campaign, limit, false);
            && |r| <= (if limit < 0 then 0 else limit)
            && (e in r ==> IsCanonRow(t, campaign, t.transcripts, e))
            && (forall i, j :: 0 <= i < j < |r| ==> RowBefore(t, campaign, r[i], r[j]))
            && (IsCanonRow(t, campaign, t.transcripts, e) && e !in r && limit > 0 ==>
                  |r| == limit && forall i :: 0 <= i < |r| ==> RowBefore(t, campaign, e, r[i]))
  {
    if limit > 0 {
      var canon := Canon(t.turns, campaign);
      var sorted := TurnByTurn(canon, t.transcripts);
      CanonJoin(t.turns, t.transcripts, campaign);
      SortedJoin(Join(t.turns, t.transcripts, campaign, false), canon, t.transcripts);
      RowsOfNewest(sorted, limit);
      RowsInOrder(t, campaign, t.transcripts);
      var cut := TailOf(Rows(sorted), limit, e);
    }
  }

  /** The rows of canon turn by turn are the canonical rows, each before the next. */
  lemma RowsInOrder<P(!new)>(t: Tables, campaign: string, rows: seq<Entry<P>>)
    requires UniqueIds(t.turns) && DistinctTimes(t.turns) && DistinctOrders(rows)
    ensures var r := Rows(TurnByTurn(Canon(t.turns, campaign), rows));
            && (forall e :: e in r <==> IsCanonRow(t, campaign, rows, e))
            && (forall i, j :: 0 <= i < j < |r| ==> RowBefore(t, campaign, r[i], r[j]))
  {
    var canon := Canon(t.turns, campaign);
    var sorted := TurnByTurn(canon, rows);
    CanonSorted(t.turns, campaign);
    TurnByTurnSorted(canon, rows);
    forall i | 0 <= i < |sorted| ensures OwnedBy(t, campaign, sorted[i].0, sorted[i].1) && sorted[i].1 in rows {
      TurnByTurnMember(canon, rows, sorted[i]);
      CanonMember(t.turns, campaign, sorted[i].0);
    }
    forall i, j | 0 <= i < j < |sorted| ensures RowBefore(t, campaign, sorted[i].1, sorted[j].1) {
      var x, y := sorted[i], sorted[j];
      assert ChronoBefore(x, y);
      if x.0.completedAt == y.0.completedAt { TimesDiffer(t.turns, x.0, y.0); }
    }
    forall e | IsCanonRow(t, campaign, rows, e) ensures e in Rows(sorted) {
      var turn :| OwnedBy(t, campaign, turn, e);
      CanonMember(t.turns, campaign, turn);
      TurnByTurnMember(canon, rows, (turn, e));
      var k :| 0 <= k < |sorted| && sorted[k] == (turn, e);
      assert Rows(sorted)[k] == e;
    }
  }

  /** What a tail leaves out stands before everything it keeps. */
  lemma TailOf<T>(all: seq<T>, limit: nat, e: T) returns (cut: nat)
    ensures var r := LastN(all, limit);
            && |r| <= limit && cut + |r| == |all| && (forall i :: 0 <= i < |r| ==> r[i] == all[cut + i])
            && (e in all && e !in r ==> |r| == limit && exists k :: 0 <= k < cut && all[k] == e)
            && (e in r ==> e in all)
  {
    var r := LastN(all, limit);
    cut := |all| - |r|;
    if e in all && e !in r {
      var k :| 0 <= k < |all| && all[k] == e;
      assert all == all[..cut] + r;
    }
  }

  /** The latest turn is the complete turn of the campaign that was completed last. */
  lemma LatestTurnReads(t: Tables, campaign: string)
    requires UniqueIds(t.turns) && DistinctTimes(t.turns)
    ensures match LatestTurnId(t, campaign, false)
            case None => forall x :: x in t.turns && x.campaign == campaign ==> x.status != Complete
            case Some(id) =>
              exists x :: x in t.turns && x.turnId == id && x.campaign == campaign && x.status == Complete
                && forall y :: y in t.turns && y.campaign == campaign && y.status == Complete ==>
                     y.completedAt <= x.completedAt
  {
    var canon := Canon(t.turns, campaign);
    LatestIsTop(t, campaign);
    CanonSorted(t.turns, campaign);
    forall x ensures x in canon <==> x in t.turns && x.campaign == campaign && x.status == Complete {
      CanonMember(t.turns, campaign, x);
    }
    if canon != [] {
      var x := canon[|canon| - 1];
      assert x in canon;
      forall y | y in t.turns && y.campaign == campaign && y.status == Complete ensures y.completedAt <= x.completedAt {
        var k :| 0 <= k < |canon| && canon[k] == y;
      }
    }
  }

  /** The id of a final checkpoint of a complete turn of the campaign that was completed before `before`. */
  ghost predicate IsFinalBefore(t: Tables, campaign: string, before: Time, turn: TurnRecord, e: CheckpointRef) {
    && e in t.checkpoints && e.payload.kind == Final && OwnedBy(t, campaign, turn, e) && turn.completedAt < before
  }

  /** The prior final checkpoint is the latest such one, of the latest such turn. */
  lemma PriorFinalReads(t: Tables, campaign: string, before: Time)
    requires Readable(t)
    ensures match PriorFinalCheckpoint(t, campaign, before, false)
            case None => forall turn, e :: !IsFinalBefore(t, campaign, before, turn, e)
            case Some(id) =>
              exists x, e :: IsFinalBefore(t, campaign, before, x, e) && e.payload.id == id
                && forall y, f :: IsFinalBefore(t, campaign, before, y, f) ==>
                     y.completedAt < x.completedAt || (y == x && f.order <= e.order)
  {
    var finals := Finals(t.checkpoints);
    var joined := Join(t.turns, finals, campaign, false);
    var earlier := CompletedBy(joined, before);
    CanonJoin(t.turns, finals, campaign);
    CompletedByDistinguished(joined, before);
    forall x, e ensures (x, e) in earlier <==> IsFinalBefore(t, campaign, before, x, e) {
      CanonMember(t.turns, campaign, x);
    }
    var rows := Sorting.Sort(ChronoAfter<Checkpoint>, earlier);
    ChronoAfterSorts(earlier);
    Sorting.SortElements(ChronoAfter<Checkpoint>, earlier);
    if rows != [] {
      var top := rows[0];
      assert top in rows;
      forall y, f | IsFinalBefore(t, campaign, before, y, f)
        ensures y.completedAt < top.0.completedAt || (y == top.0 && f.order <= top.1.order)
      {
        assert (y, f) in rows;
        var k :| 0 <= k < |rows| && rows[k] == (y, f);
        if k > 0 { assert ChronoAfter(rows[0], rows[k]); }
        TimesDiffer(t.turns, y, top.0);
      }
    }
  }

  lemma ChronoAfterSorts(joined: seq<Joined<Checkpoint>>)
    requires Sorting.Distinguished(ChronoBefore<Checkpoint>, joined)
    ensures Sorting.StrictlySorted(ChronoAfter<Checkpoint>, Sorting.Sort(ChronoAfter<Checkpoint>, joined))
  {
    Sorting.SortStrict(ChronoAfter<Checkpoint>, joined);
  }
}
