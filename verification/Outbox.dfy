/**
 The outbox: due rows are sent, and each is then removed, rescheduled with backoff
 or left alone. A run is a sequence of turns, one for each send, in the order the
 flushes make them.
 */
module Outbox {
  import opened Wrappers

  // ----- Backoff -----

  const SCHEDULE_MS: seq<nat> := [
    30_000, 120_000, 480_000, 1_800_000, 7_200_000, 21_600_000, 21_600_000, 21_600_000, 21_600_000,
    21_600_000, 21_600_000, 21_600_000
  ]

  const MAX_RETRY_ATTEMPTS: nat := 12

  /** The schedule's entry for a retry count; 0 counts as 1. */
  function BaseMs(retry: nat): nat {
    var n := if retry == 0 then 0 else retry - 1;
    SCHEDULE_MS[n % 12]
  }

  /**
   The base scaled by 0.8 and 0.04 more for each unit of the last decimal digit of
   the count. In double precision 7,200,000 times 1.16 lies just below 8,352,000, so
   truncation gives one less there; no other product is off.
   */
  function BackoffFor(retry: nat): nat {
    BaseMs(retry) * (20 + retry % 10) / 25 - if retry % 60 == 29 then 1 else 0
  }

  /** But for that one place nothing is lost to truncation: every base is a multiple of 25. */
  lemma BackoffExactly(retry: nat)
    ensures 25 * BackoffFor(retry) == BaseMs(retry) * (20 + retry % 10) - if retry % 60 == 29 then 25 else 0
  {
    ExactFraction(BaseMs(retry), 20 + retry % 10);
  }

  lemma ExactFraction(base: nat, k: nat)
    requires base % 25 == 0
    ensures 25 * (base * k / 25) == base * k
  {
    var unit := base / 25;
    assert base * k == 25 * (unit * k);
  }

  /** Every wait lies between 0.8 and 1.16 times its base, and the waits repeat after 60. */
  lemma BackoffBounds(retry: nat)
    ensures 4 * BaseMs(retry) <= 5 * BackoffFor(retry) && 25 * BackoffFor(retry) <= 29 * BaseMs(retry)
    ensures retry >= 1 ==> BackoffFor(retry + 60) == BackoffFor(retry)
  {
    BackoffWithin(retry);
    if retry >= 1 {
      SameDigits(retry);
    }
  }

  lemma BackoffWithin(retry: nat)
    ensures 4 * BaseMs(retry) <= 5 * BackoffFor(retry) && 25 * BackoffFor(retry) <= 29 * BaseMs(retry)
  {
    if retry % 60 == 29 {
      OneShort(retry);
    } else {
      Scaled(BaseMs(retry), retry % 10);
    }
  }

  lemma OneShort(retry: nat)
    requires retry % 60 == 29
    ensures BaseMs(retry) == 7_200_000 && BackoffFor(retry) == 8_351_999
  {
    var q := retry / 60;
    Mod12(5 * q + 2, 4);
    Mod10(6 * q + 2, 9);
  }

  lemma SameDigits(retry: nat)
    requires retry >= 1
    ensures BaseMs(retry + 60) == BaseMs(retry) && (retry + 60) % 10 == retry % 10 && (retry + 60) % 60 == retry % 60
  {
    Mod12((retry - 1) / 12 + 5, (retry - 1) % 12);
    Mod10(retry / 10 + 6, retry % 10);
    Mod60(retry / 60 + 1, retry % 60);
  }

  lemma Mod10(q: nat, r: nat)
    requires r < 10
    ensures (10 * q + r) % 10 == r
  {
  }

  lemma Mod12(q: nat, r: nat)
    requires r < 12
    ensures (12 * q + r) % 12 == r
  {
  }

  lemma Mod60(q: nat, r: nat)
    requires r < 60
    ensures (60 * q + r) % 60 == r
  {
  }

  lemma Scaled(base: nat, k: nat)
    requires base % 25 == 0 && k < 10
    ensures 4 * base <= 5 * (base * (20 + k) / 25) && 25 * (base * (20 + k) / 25) <= 29 * base
  {
    var unit := base / 25;
    assert base * (20 + k) == 25 * (unit * (20 + k));
    assert unit * 20 <= unit * (20 + k) <= unit * 29;
  }

  function Sum(wait: nat -> nat, n: nat): nat {
    if n == 0 then 0 else Sum(wait, n - 1) + wait(n)
  }

  function SumBackoff(n: nat): nat {
    Sum(BackoffFor, n)
  }

  lemma FirstWaits()
    ensures BackoffFor(1) == 25_200 && BackoffFor(2) == 105_600 && BackoffFor(3) == 441_600
    ensures BackoffFor(4) == 1_728_000 && BackoffFor(5) == 7_200_000 && BackoffFor(6) == 22_464_000
  {
  }

  lemma LaterWaits()
    ensures BackoffFor(7) == 23_328_000 && BackoffFor(8) == 24_192_000 && BackoffFor(9) == 25_056_000
    ensures BackoffFor(10) == 17_280_000 && BackoffFor(11) == 18_144_000
  {
  }

  lemma SumOfSix(wait: nat -> nat)
    ensures Sum(wait, 6) == wait(1) + wait(2) + wait(3) + wait(4) + wait(5) + wait(6)
  {
    assert Sum(wait, 3) == wait(1) + wait(2) + wait(3);
  }

  lemma SumOfEleven(wait: nat -> nat)
    ensures Sum(wait, 11) == Sum(wait, 6) + wait(7) + wait(8) + wait(9) + wait(10) + wait(11)
  {
    assert Sum(wait, 9) == Sum(wait, 6) + wait(7) + wait(8) + wait(9);
  }

  /** The eleven waits before the budget is used up, in milliseconds. */
  lemma SumToExhaustion()
    ensures SumBackoff(11) == 139_964_400
  {
    FirstWaits();
    LaterWaits();
    SumOfSix(BackoffFor);
    SumOfEleven(BackoffFor);
  }

  // ----- Rows -----

  datatype Envelope = Envelope(from: string, to: seq<string>, cc: seq<string>, bcc: seq<string>)

  datatype OutboxRow = OutboxRow(id: nat, envelope: Envelope, rawBlob: string, retryCount: nat,
                                 lastError: Option<string>)

  /** A stored row and the time it becomes due. */
  datatype Entry = Entry(row: OutboxRow, dueAt: int)

  predicate Unique(entries: seq<Entry>) {
    forall i, j :: 0 <= i < j < |entries| ==> entries[i].row.id != entries[j].row.id
  }

  function FindEntry(entries: seq<Entry>, id: nat): (i: nat)
    ensures i <= |entries|
    ensures i < |entries| ==> entries[i].row.id == id
    ensures forall j :: 0 <= j < i ==> entries[j].row.id != id
  {
    if entries == [] || entries[0].row.id == id then 0 else 1 + FindEntry(entries[1..], id)
  }

  function EntryOf(entries: seq<Entry>, id: nat): Option<Entry> {
    var i := FindEntry(entries, id);
    if i < |entries| then Some(entries[i]) else None
  }

  function DueRows(entries: seq<Entry>, now: int): seq<OutboxRow> {
    if entries == [] then []
    else
      var rest, last := DueRows(entries[..|entries| - 1], now), entries[|entries| - 1];
      if last.dueAt <= now then rest + [last.row] else rest
  }

  function Remove(entries: seq<Entry>, id: nat): seq<Entry> {
    if entries == [] then []
    else
      var rest, last := Remove(entries[..|entries| - 1], id), entries[|entries| - 1];
      if last.row.id == id then rest else rest + [last]
  }

  function Reschedule(entries: seq<Entry>, id: nat, retry: nat, dueAt: int, error: string): seq<Entry> {
    var i := FindEntry(entries, id);
    if i == |entries| then entries
    else entries[i := Entry(entries[i].row.(retryCount := retry, lastError := Some(error)), dueAt)]
  }

  lemma {:induction false} DueMembers(entries: seq<Entry>, now: int, row: OutboxRow)
    ensures row in DueRows(entries, now) <==> exists e :: e in entries && e.row == row && e.dueAt <= now
  {
    if entries != [] {
      DueMembers(entries[..|entries| - 1], now, row);
      assert forall e :: e in entries <==> e in entries[..|entries| - 1] || e == entries[|entries| - 1];
    }
  }

  function DueIn(now: int): Entry -> Option<OutboxRow> {
    (e: Entry) => if e.dueAt <= now then Some(e.row) else None
  }

  function OtherIn(id: nat): Entry -> Option<Entry> {
    (e: Entry) => if e.row.id != id then Some(e) else None
  }

  /** The due rows are given in stored order, and what stays when a row is removed keeps its order. */
  lemma {:induction false} RowsKeepOrder(entries: seq<Entry>, now: int, id: nat) returns (due: seq<nat>, kept: seq<nat>)
    ensures Picks(entries, DueIn(now), DueRows(entries, now), due)
    ensures Picks(entries, OtherIn(id), Remove(entries, id), kept)
  {
    due, kept := [], [];
    if entries != [] {
      var init := entries[..|entries| - 1];
      due, kept := RowsKeepOrder(init, now, id);
      due := PicksLast(entries, DueIn(now), DueRows(init, now), due);
      kept := PicksLast(entries, OtherIn(id), Remove(init, id), kept);
    }
  }

  predicate DistinctIds(rows: seq<OutboxRow>) {
    forall i, j :: 0 <= i < j < |rows| ==> rows[i].id != rows[j].id
  }

  lemma {:induction false} DueDistinct(entries: seq<Entry>, now: int)
    requires Unique(entries)
    ensures DistinctIds(DueRows(entries, now))
  {
    if entries != [] {
      var init, last := entries[..|entries| - 1], entries[|entries| - 1];
      DueDistinct(init, now);
      forall row | row in DueRows(init, now)
        ensures row.id != last.row.id
      {
        DueMembers(init, now, row);
        var k :| 0 <= k < |init| && init[k].row == row;
        assert entries[k].row.id != last.row.id;
      }
      DistinctAppend(DueRows(init, now), last.row);
    }
  }

  lemma DistinctAppend(rows: seq<OutboxRow>, row: OutboxRow)
    requires DistinctIds(rows) && forall r :: r in rows ==> r.id != row.id
    ensures DistinctIds(rows + [row])
  {
  }

  lemma {:induction false} RemoveEntries(entries: seq<Entry>, id: nat)
    requires Unique(entries)
    ensures Unique(Remove(entries, id))
    ensures forall e :: e in Remove(entries, id) <==> e in entries && e.row.id != id
  {
    if entries != [] {
      var init, last := entries[..|entries| - 1], entries[|entries| - 1];
      RemoveEntries(init, id);
      assert forall e :: e in entries <==> e in init || e == last;
    }
  }

  lemma EntryIsMember(entries: seq<Entry>, id: nat)
    requires Unique(entries)
    ensures EntryOf(entries, id).Some? ==> EntryOf(entries, id).value in entries
    ensures forall e :: e in entries && e.row.id == id ==> EntryOf(entries, id) == Some(e)
  {
  }

  // ----- Turns -----

  datatype SendOutcome = Sent | Transient(detail: string) | Permanent(detail: string)

  /** One send: when it starts, when its outcome is handled, and what it is. */
  datatype Send = Send(start: int, finish: int, outcome: SendOutcome)

  datatype Turn = Turn(row: OutboxRow, send: Send)

  datatype OutboxEvent =
    | OutboxRetry(id: nat, attempt: nat, nextIn: nat, lastError: string)
    | MailSent(id: nat)
    | MailExhausted(id: nat, attempts: nat)
    | MailRejected(id: nat, detail: string)

  function Events(turn: Turn): seq<OutboxEvent> {
    var id, retry := turn.row.id, turn.row.retryCount + 1;
    match turn.send.outcome
    case Sent => [MailSent(id)]
    case Transient(detail) =>
      [OutboxRetry(id, retry, BackoffFor(retry), detail)]
      + if retry >= MAX_RETRY_ATTEMPTS then [MailExhausted(id, retry)] else []
    case Permanent(detail) => [MailRejected(id, detail)]
  }

  function Handle(entries: seq<Entry>, turn: Turn): seq<Entry> {
    var id, retry := turn.row.id, turn.row.retryCount + 1;
    match turn.send.outcome
    case Sent => Remove(entries, id)
    case Transient(detail) => Reschedule(entries, id, retry, turn.send.finish + BackoffFor(retry), detail)
    case Permanent(_) => entries
  }

  /** What is left of the turn's own row. */
  function Settle(e: Entry, turn: Turn): Option<Entry> {
    match turn.send.outcome
    case Sent => None
    case Transient(detail) =>
      var retry := turn.row.retryCount + 1;
      Some(Entry(e.row.(retryCount := retry, lastError := Some(detail)), turn.send.finish + BackoffFor(retry)))
    case Permanent(_) => Some(e)
  }

  // ----- Runs -----

  /** What happens to the outbox: the host queues a row, or a row is sent. */
  datatype Step = Queued(entry: Entry) | Took(turn: Turn)

  function IdOf(step: Step): nat {
    match step
    case Queued(e) => e.row.id
    case Took(turn) => turn.row.id
  }

  function Do(entries: seq<Entry>, step: Step): seq<Entry> {
    match step
    case Queued(e) => entries + [e]
    case Took(turn) => Handle(entries, turn)
  }

  function EventsOf(step: Step): seq<OutboxEvent> {
    match step
    case Queued(_) => []
    case Took(turn) => Events(turn)
  }

  /** The state after every step of `steps`, in order. */
  function Fold<S, T>(next: (S, T) -> S, start: S, steps: seq<T>): S {
    if steps == [] then start else next(Fold(next, start, steps[..|steps| - 1]), steps[|steps| - 1])
  }

  function Apply(entries: seq<Entry>, steps: seq<Step>): seq<Entry> {
    Fold(Do, entries, steps)
  }

  function Trace(steps: seq<Step>): seq<OutboxEvent> {
    if steps == [] then [] else Trace(steps[..|steps| - 1]) + EventsOf(steps[|steps| - 1])
  }

  /** The row is sent as it is stored, and is due. */
  ghost predicate TurnOk(entries: seq<Entry>, turn: Turn) {
    && EntryOf(entries, turn.row.id).Some? && EntryOf(entries, turn.row.id).value.row == turn.row
    && EntryOf(entries, turn.row.id).value.dueAt <= turn.send.start <= turn.send.finish
  }

  ghost predicate StepOk(entries: seq<Entry>, step: Step) {
    match step
    case Queued(e) => EntryOf(entries, e.row.id).None?
    case Took(turn) => TurnOk(entries, turn)
  }

  /** Sends follow one another. */
  ghost predicate InTime(steps: seq<Step>) {
    forall i, j :: 0 <= i < j < |steps| && steps[i].Took? && steps[j].Took? ==>
      steps[i].turn.send.finish <= steps[j].turn.send.start
  }

  /** A queued row has an id never seen before. */
  ghost predicate FreshAt(steps: seq<Step>, j: nat)
    requires j < |steps|
  {
    forall i :: 0 <= i < j ==> IdOf(steps[i]) != IdOf(steps[j])
  }

  ghost predicate Legal(entries: seq<Entry>, steps: seq<Step>) {
    && (forall i :: 0 <= i < |steps| ==> StepOk(Apply(entries, steps[..i]), steps[i]))
    && (forall i :: 0 <= i < |steps| && steps[i].Queued? ==>
          EntryOf(entries, IdOf(steps[i])).None? && FreshAt(steps, i))
    && InTime(steps)
  }

  lemma HandleEffect(entries: seq<Entry>, turn: Turn, id: nat)
    requires Unique(entries)
    ensures Unique(Handle(entries, turn))
    ensures id != turn.row.id ==> EntryOf(Handle(entries, turn), id) == EntryOf(entries, id)
    ensures EntryOf(entries, turn.row.id).Some? ==>
              EntryOf(Handle(entries, turn), turn.row.id) == Settle(EntryOf(entries, turn.row.id).value, turn)
  {
    EntryIsMember(entries, id);
    EntryIsMember(entries, turn.row.id);
    match turn.send.outcome {
      case Sent =>
        RemoveEntries(entries, turn.row.id);
        EntryIsMember(Remove(entries, turn.row.id), id);
        EntryIsMember(Remove(entries, turn.row.id), turn.row.id);
      case Transient(detail) =>
        var after := Handle(entries, turn);
        assert |after| == |entries| && forall j :: 0 <= j < |entries| ==> after[j].row.id == entries[j].row.id;
      case Permanent(_) =>
    }
  }

  lemma QueueEffect(entries: seq<Entry>, e: Entry, id: nat)
    requires Unique(entries) && EntryOf(entries, e.row.id).None?
    ensures Unique(entries + [e])
    ensures EntryOf(entries + [e], id) == if id == e.row.id then Some(e) else EntryOf(entries, id)
  {
    var all := entries + [e];
    EntryIsMember(entries, id);
    EntryIsMember(all, id);
    assert all[|entries|] == e && forall i :: 0 <= i < |entries| ==> all[i] == entries[i];
    if EntryOf(entries, id).Some? {
      assert EntryOf(entries, id).value in all;
    }
  }

  lemma LegalPrefix(entries: seq<Entry>, steps: seq<Step>, n: nat)
    requires Legal(entries, steps) && n <= |steps|
    ensures Legal(entries, steps[..n])
  {
    forall i | 0 <= i < n
      ensures StepOk(Apply(entries, steps[..n][..i]), steps[..n][i])
    {
      assert steps[..n][..i] == steps[..i];
    }
    forall i | 0 <= i < n && steps[i].Queued?
      ensures FreshAt(steps[..n], i)
    {
      assert FreshAt(steps, i);
    }
  }

  // ----- The story of one row -----

  predicate About(e: OutboxEvent, id: nat) {
    e.id == id
  }

  /** The events about one row, in order. */
  function Story(events: seq<OutboxEvent>, id: nat): seq<OutboxEvent> {
    if events == [] then []
    else
      var rest, last := Story(events[..|events| - 1], id), events[|events| - 1];
      if About(last, id) then rest + [last] else rest
  }

  /** The attempt numbers announced for a retry, in order. */
  function Retries(story: seq<OutboxEvent>): seq<nat> {
    if story == [] then []
    else
      var rest, last := Retries(story[..|story| - 1]), story[|story| - 1];
      if last.OutboxRetry? then rest + [last.attempt] else rest
  }

  lemma {:induction false} StoryAppend(a: seq<OutboxEvent>, b: seq<OutboxEvent>, id: nat)
    ensures Story(a + b, id) == Story(a, id) + Story(b, id)
  {
    if b == [] {
      assert a + b == a;
    } else {
      StoryAppend(a, b[..|b| - 1], id);
      assert (a + b)[..|a + b| - 1] == a + b[..|b| - 1];
    }
  }

  lemma {:induction false} RetriesAppend(a: seq<OutboxEvent>, b: seq<OutboxEvent>)
    ensures Retries(a + b) == Retries(a) + Retries(b)
  {
    if b == [] {
      assert a + b == a;
    } else {
      RetriesAppend(a, b[..|b| - 1]);
      assert (a + b)[..|a + b| - 1] == a + b[..|b| - 1];
    }
  }

  lemma EventsStory(turn: Turn, id: nat)
    ensures Story(Events(turn), id) == if turn.row.id == id then Events(turn) else []
    ensures Retries(Events(turn)) == if turn.send.outcome.Transient? then [turn.row.retryCount + 1] else []
  {
    var es := Events(turn);
    var first := [es[0]];
    assert first[..|first| - 1] == [];
    assert Story(first, id) == if About(es[0], id) then first else [];
    assert Retries(first) == if es[0].OutboxRetry? then [es[0].attempt] else [];
    if |es| == 1 {
      assert es == first;
    } else {
      assert es[..|es| - 1] == first;
    }
  }

  /** The events of the steps of one row. */
  function Told(steps: seq<Step>, id: nat): seq<OutboxEvent> {
    if steps == [] then []
    else
      var rest, last := Told(steps[..|steps| - 1], id), steps[|steps| - 1];
      if IdOf(last) == id then rest + EventsOf(last) else rest
  }

  lemma {:induction false} TraceTells(steps: seq<Step>, id: nat)
    ensures Story(Trace(steps), id) == Told(steps, id)
  {
    if steps != [] {
      var init, last := steps[..|steps| - 1], steps[|steps| - 1];
      TraceTells(init, id);
      StoryAppend(Trace(init), EventsOf(last), id);
      if last.Took? {
        EventsStory(last.turn, id);
      }
    }
  }

  /** What one step does to one row, of its own or another. */
  ghost predicate RowStep(before: Option<Entry>, step: Step, after: Option<Entry>, id: nat) {
    if IdOf(step) != id then after == before
    else
      match step
      case Queued(e) => before.None? && after == Some(e)
      case Took(turn) => TookRow(before, turn, after)
  }

  ghost predicate TookRow(before: Option<Entry>, turn: Turn, after: Option<Entry>) {
    && before.Some? && before.value.row == turn.row
    && before.value.dueAt <= turn.send.start <= turn.send.finish
    && after == Settle(before.value, turn)
  }

  ghost predicate RowRun(states: seq<Option<Entry>>, steps: seq<Step>, id: nat) {
    && |states| == |steps| + 1
    && (forall k :: 0 <= k < |steps| ==> RowStep(states[k], steps[k], states[k + 1], id))
    && (forall k :: 0 <= k < |steps| && steps[k].Queued? && IdOf(steps[k]) == id ==>
          states[0].None? && FreshAt(steps, k))
  }

  lemma RunPrefix(states: seq<Option<Entry>>, steps: seq<Step>, id: nat, n: nat)
    requires RowRun(states, steps, id) && n <= |steps|
    ensures RowRun(states[..n + 1], steps[..n], id)
  {
    forall k | 0 <= k < n && steps[k].Queued? && IdOf(steps[k]) == id
      ensures FreshAt(steps[..n], k)
    {
      assert FreshAt(steps, k);
    }
    forall k | 0 <= k < n
      ensures RowStep(states[..n + 1][k], steps[..n][k], states[..n + 1][k + 1], id)
    {
      assert RowStep(states[k], steps[k], states[k + 1], id);
    }
  }

  lemma RowStepOf(entries: seq<Entry>, step: Step, id: nat)
    requires Unique(entries) && StepOk(entries, step)
    ensures Unique(Do(entries, step))
    ensures RowStep(EntryOf(entries, id), step, EntryOf(Do(entries, step), id), id)
  {
    match step
    case Queued(e) => QueueEffect(entries, e, id);
    case Took(turn) => HandleEffect(entries, turn, id);
  }

  /** Every legal sequence of steps takes each row through a run of its own. */
  /** The states one row goes through. */
  ghost predicate Tracks(states: seq<Option<Entry>>, entries: seq<Entry>, steps: seq<Step>, id: nat) {
    |states| == |steps| + 1 && forall k :: 0 <= k <= |steps| ==> states[k] == EntryOf(Apply(entries, steps[..k]), id)
  }

  lemma TracksExtend(before: seq<Option<Entry>>, entries: seq<Entry>, steps: seq<Step>, id: nat)
    requires steps != [] && Tracks(before, entries, steps[..|steps| - 1], id)
    ensures Tracks(before + [EntryOf(Apply(entries, steps), id)], entries, steps, id)
  {
    var n := |steps| - 1;
    assert steps[..n + 1] == steps;
    assert forall k :: 0 <= k <= n ==> steps[..n][..k] == steps[..k];
  }

  lemma {:induction false} LegalRun(entries: seq<Entry>, steps: seq<Step>, id: nat) returns (states: seq<Option<Entry>>)
    requires Unique(entries) && Legal(entries, steps)
    ensures Unique(Apply(entries, steps)) && RowRun(states, steps, id) && Tracks(states, entries, steps, id)
  {
    if steps == [] {
      states := [EntryOf(entries, id)];
    } else {
      var n := |steps| - 1;
      LegalPrefix(entries, steps, n);
      var before := LegalRun(entries, steps[..n], id);
      LastStep(entries, steps, id);
      states := before + [EntryOf(Apply(entries, steps), id)];
      TracksExtend(before, entries, steps, id);
      LegalRunExtends(before, entries, steps, id);
    }
  }

  lemma LegalRunExtends(before: seq<Option<Entry>>, entries: seq<Entry>, steps: seq<Step>, id: nat)
    requires steps != [] && Legal(entries, steps) && Unique(Apply(entries, steps[..|steps| - 1]))
    requires RowRun(before, steps[..|steps| - 1], id) && Tracks(before, entries, steps[..|steps| - 1], id)
    ensures RowRun(before + [EntryOf(Apply(entries, steps), id)], steps, id)
  {
    var n := |steps| - 1;
    LastStep(entries, steps, id);
    assert steps[..n][..n] == steps[..n] && steps[..n][..0] == [];
    RunExtends(before, steps, id, EntryOf(Apply(entries, steps), id));
  }

  lemma LastStep(entries: seq<Entry>, steps: seq<Step>, id: nat)
    requires steps != [] && Legal(entries, steps) && Unique(Apply(entries, steps[..|steps| - 1]))
    ensures Unique(Apply(entries, steps))
    ensures RowStep(EntryOf(Apply(entries, steps[..|steps| - 1]), id), steps[|steps| - 1],
                    EntryOf(Apply(entries, steps), id), id)
  {
    var n := |steps| - 1;
    assert StepOk(Apply(entries, steps[..n]), steps[n]);
    RowStepOf(Apply(entries, steps[..n]), steps[n], id);
  }

  lemma RunExtends(before: seq<Option<Entry>>, steps: seq<Step>, id: nat, last: Option<Entry>)
    requires steps != [] && RowRun(before, steps[..|steps| - 1], id)
    requires RowStep(before[|steps| - 1], steps[|steps| - 1], last, id)
    requires forall k :: 0 <= k < |steps| && steps[k].Queued? && IdOf(steps[k]) == id ==>
               before[0].None? && FreshAt(steps, k)
    ensures RowRun(before + [last], steps, id)
  {
    var states, n := before + [last], |steps| - 1;
    forall k | 0 <= k < |steps|
      ensures RowStep(states[k], steps[k], states[k + 1], id)
    {
      if k < n {
        assert RowStep(before[k], steps[..n][k], before[k + 1], id);
      }
    }
  }

  /** The row as it came into the outbox: stored from the start, or queued. */
  function Born(initial: Option<Entry>, steps: seq<Step>, id: nat): Option<Entry> {
    if steps == [] then initial
    else
      var last := steps[|steps| - 1];
      if last.Queued? && IdOf(last) == id then Some(last.entry) else Born(initial, steps[..|steps| - 1], id)
  }

  predicate NoneAbout(steps: seq<Step>, id: nat) {
    forall k :: 0 <= k < |steps| ==> IdOf(steps[k]) != id
  }

  /** While no step is about a row, nothing happens to it. */
  lemma {:induction false} Untouched(states: seq<Option<Entry>>, steps: seq<Step>, id: nat)
    requires RowRun(states, steps, id) && NoneAbout(steps, id)
    ensures states[|steps|] == states[0] == Born(states[0], steps, id)
    ensures Told(steps, id) == [] && Failures(steps, id) == 0
  {
    if steps != [] {
      var n := |steps| - 1;
      RunPrefix(states, steps, id, n);
      assert forall k :: 0 <= k < n ==> IdOf(steps[..n][k]) == IdOf(steps[k]);
      Untouched(states[..n + 1], steps[..n], id);
      assert RowStep(states[n], steps[n], states[n + 1], id);
    }
  }

  /** A budget is announced as used up right after the retry that reaches it, and only then. */
  ghost predicate ExhaustionExact(story: seq<OutboxEvent>) {
    && (forall p :: 0 <= p < |story| && story[p].MailExhausted? ==>
          p > 0 && story[p - 1].OutboxRetry? && story[p - 1].attempt == story[p].attempts >= MAX_RETRY_ATTEMPTS)
    && (forall p :: 0 <= p < |story| && story[p].OutboxRetry? && story[p].attempt >= MAX_RETRY_ATTEMPTS ==>
          p + 1 < |story| && story[p + 1].MailExhausted? && story[p + 1].attempts == story[p].attempt)
  }

  /** Being announced as sent is the last thing heard of a row. */
  ghost predicate SentIsLast(story: seq<OutboxEvent>) {
    forall p :: 0 <= p < |story| && story[p].MailSent? ==> p == |story| - 1
  }

  /**
   The attempts announced for a retry are consecutive and counted by the row, the
   budget is announced exactly from the twelfth on, and the row is gone exactly
   when it was announced as sent. A rejected or exhausted row stays.
   */
  ghost predicate StoryOk(before: Option<Entry>, after: Option<Entry>, story: seq<OutboxEvent>) {
    if before.None? then after.None? && story == []
    else
      && CountOk(before.value.row, after, Retries(story))
      && (after.None? <==> AnnouncedAsSent(story))
      && SentIsLast(story)
      && ExhaustionExact(story)
  }

  ghost predicate CountOk(row: OutboxRow, after: Option<Entry>, attempts: seq<nat>) {
    && (forall k :: 0 <= k < |attempts| ==> attempts[k] == row.retryCount + k + 1)
    && (after.Some? ==> SameMail(row, after.value.row) && after.value.row.retryCount == row.retryCount + |attempts|)
  }

  /** The same mail, whatever the retry counter and the last error. */
  predicate SameMail(a: OutboxRow, b: OutboxRow) {
    a.id == b.id && a.envelope == b.envelope && a.rawBlob == b.rawBlob
  }

  ghost predicate AnnouncedAsSent(story: seq<OutboxEvent>) {
    exists p :: 0 <= p < |story| && story[p].MailSent?
  }

  /** Outbox runs, row by row: for any sequence of sends and outcomes, with rows queued anywhere in between. */
  lemma RowStory(entries: seq<Entry>, steps: seq<Step>, id: nat)
    requires Unique(entries) && Legal(entries, steps)
    ensures Unique(Apply(entries, steps))
    ensures StoryOk(Born(EntryOf(entries, id), steps, id), EntryOf(Apply(entries, steps), id), Story(Trace(steps), id))
  {
    var states := LegalRun(entries, steps, id);
    assert steps[..0] == [] && steps[..|steps|] == steps;
    StoryOfRun(states, steps, id);
    TraceTells(steps, id);
  }

  lemma {:induction false} StoryOfRun(states: seq<Option<Entry>>, steps: seq<Step>, id: nat)
    requires RowRun(states, steps, id)
    ensures StoryOk(Born(states[0], steps, id), states[|steps|], Told(steps, id))
  {
    if steps == [] {
      NoStory(states[0]);
    } else {
      var n := |steps| - 1;
      RunPrefix(states, steps, id, n);
      assert RowStep(states[n], steps[n], states[n + 1], id);
      if steps[n].Queued? && IdOf(steps[n]) == id {
        assert FreshAt(steps, n);
        Untouched(states[..n + 1], steps[..n], id);
        NoStory(Some(steps[n].entry));
      } else {
        StoryOfRun(states[..n + 1], steps[..n], id);
        if IdOf(steps[n]) == id {
          StoryStep(Born(states[0], steps[..n], id), states[n], states[n + 1], Told(steps[..n], id), steps[n].turn);
        }
      }
    }
  }

  lemma NoStory(e: Option<Entry>)
    ensures StoryOk(e, e, [])
  {
  }

  lemma StoryStep(before: Option<Entry>, mid: Option<Entry>, after: Option<Entry>, story: seq<OutboxEvent>, turn: Turn)
    requires StoryOk(before, mid, story) && TookRow(mid, turn, after)
    ensures StoryOk(before, after, story + Events(turn))
  {
    ExhaustionStep(story, turn);
    SentStep(story, turn);
    RetriesAppend(story, Events(turn));
    EventsStory(turn, turn.row.id);
    CountStep(before.value.row, mid, after, Retries(story), turn);
  }

  lemma CountStep(row: OutboxRow, mid: Option<Entry>, after: Option<Entry>, attempts: seq<nat>, turn: Turn)
    requires CountOk(row, mid, attempts) && TookRow(mid, turn, after)
    ensures CountOk(row, after, attempts + if turn.send.outcome.Transient? then [turn.row.retryCount + 1] else [])
  {
  }

  lemma ExhaustionStep(story: seq<OutboxEvent>, turn: Turn)
    requires ExhaustionExact(story)
    ensures ExhaustionExact(story + Events(turn))
  {
  }

  lemma SentStep(story: seq<OutboxEvent>, turn: Turn)
    requires !AnnouncedAsSent(story)
    ensures SentIsLast(story + Events(turn))
    ensures AnnouncedAsSent(story + Events(turn)) <==> turn.send.outcome.Sent?
  {
    var all := story + Events(turn);
    if turn.send.outcome.Sent? {
      assert all[|story|].MailSent?;
    }
  }

  // ----- What each send is answered with -----

  /** The sends of a row. */
  function SendOf(id: nat): Step -> Option<Turn> {
    (step: Step) => if step.Took? && step.turn.row.id == id then Some(step.turn) else None
  }

  /** Every event but the announcement that a budget is used up. */
  function AnswerIn(e: OutboxEvent): Option<OutboxEvent> {
    if e.MailExhausted? then None else Some(e)
  }

  /**
   What the host hears of a send, given what is then stored of the row: that it was
   sent, when it is gone; that it was rejected, with the detail, when it stays as it
   was; or that it will be tried again, with the detail, the number now stored, and
   the time from the end of the send until the row is due.
   */
  ghost predicate Answers(e: OutboxEvent, turn: Turn, after: Option<Entry>) {
    match turn.send.outcome
    case Sent => e == MailSent(turn.row.id) && after.None?
    case Permanent(detail) => e == MailRejected(turn.row.id, detail) && after.Some? && after.value.row == turn.row
    case Transient(detail) =>
      && after.Some? && after.value.row.retryCount == turn.row.retryCount + 1
      && after.value.row.lastError == Some(detail)
      && after.value.dueAt == turn.send.finish + BackoffFor(after.value.row.retryCount)
      && e == OutboxRetry(turn.row.id, after.value.row.retryCount, after.value.dueAt - turn.send.finish, detail)
  }

  /**
   In any run each send of a row is answered by exactly one event about it, in the
   order of the sends; apart from these the host only hears that a budget is used
   up, which `RowStory` places.
   */
  lemma EverySendIsAnswered(entries: seq<Entry>, steps: seq<Step>, id: nat)
    returns (answers: seq<OutboxEvent>, places: seq<nat>, sends: seq<Turn>, at: seq<nat>)
    requires Unique(entries) && Legal(entries, steps)
    ensures Picks(Story(Trace(steps), id), AnswerIn, answers, places) && Picks(steps, SendOf(id), sends, at)
    ensures |answers| == |sends|
    ensures forall i :: 0 <= i < |sends| ==>
              Answers(answers[i], sends[i], EntryOf(Apply(entries, steps[..at[i] + 1]), id))
  {
    var states := LegalRun(entries, steps, id);
    answers, places, sends, at := AnswersOfRun(states, steps, id);
    TraceTells(steps, id);
    forall i | 0 <= i < |sends|
      ensures states[at[i] + 1] == EntryOf(Apply(entries, steps[..at[i] + 1]), id)
    {
    }
  }

  lemma {:induction false} AnswersOfRun(states: seq<Option<Entry>>, steps: seq<Step>, id: nat)
    returns (answers: seq<OutboxEvent>, places: seq<nat>, sends: seq<Turn>, at: seq<nat>)
    requires RowRun(states, steps, id)
    ensures Picks(Told(steps, id), AnswerIn, answers, places) && Picks(steps, SendOf(id), sends, at)
    ensures |answers| == |sends|
    ensures Answered(states, answers, sends, at)
  {
    answers, places, sends, at := [], [], [], [];
    if steps != [] {
      var n := |steps| - 1;
      RunPrefix(states, steps, id, n);
      answers, places, sends, at := AnswersOfRun(states[..n + 1], steps[..n], id);
      AnsweredStays(states, answers, sends, at);
      if IdOf(steps[n]) == id && steps[n].Took? {
        assert RowStep(states[n], steps[n], states[n + 1], id);
        FirstAnswers(states[n], steps[n].turn, states[n + 1]);
        AnsweredMore(states, answers, sends, at, Events(steps[n].turn)[0], steps[n].turn);
      }
      at := PicksLast(steps, SendOf(id), sends, at);
      places := AnswerTold(Told(steps[..n], id), steps[n], id, answers, places);
      answers := match AnswerOf(id)(steps[n]) case Some(e) => answers + [e] case None => answers;
      sends := match SendOf(id)(steps[n]) case Some(turn) => sends + [turn] case None => sends;
    }
  }

  /** The first event of a send of the row. */
  function AnswerOf(id: nat): Step -> Option<OutboxEvent> {
    (step: Step) => if step.Took? && step.turn.row.id == id then Some(Events(step.turn)[0]) else None
  }

  lemma AnswerTold(told: seq<OutboxEvent>, step: Step, id: nat, answers: seq<OutboxEvent>, places: seq<nat>)
    returns (places': seq<nat>)
    requires Picks(told, AnswerIn, answers, places)
    ensures Picks(if IdOf(step) == id then told + EventsOf(step) else told, AnswerIn,
                  match AnswerOf(id)(step) case Some(e) => answers + [e] case None => answers, places')
  {
    places' := places;
    if IdOf(step) == id && step.Took? {
      EventsShape(step.turn);
      places' := PickFirst(told, Events(step.turn), AnswerIn, answers, places);
    } else {
      assert told + [] == told;
    }
  }

  ghost predicate Answered(states: seq<Option<Entry>>, answers: seq<OutboxEvent>, sends: seq<Turn>, at: seq<nat>) {
    && |answers| == |sends| == |at|
    && forall i :: 0 <= i < |sends| ==> at[i] + 1 < |states| && Answers(answers[i], sends[i], states[at[i] + 1])
  }

  lemma AnsweredStays(states: seq<Option<Entry>>, answers: seq<OutboxEvent>, sends: seq<Turn>, at: seq<nat>)
    requires states != [] && Answered(states[..|states| - 1], answers, sends, at)
    ensures Answered(states, answers, sends, at)
  {
    forall i | 0 <= i < |sends|
      ensures Answers(answers[i], sends[i], states[at[i] + 1])
    {
      assert states[..|states| - 1][at[i] + 1] == states[at[i] + 1];
    }
  }

  lemma AnsweredMore(states: seq<Option<Entry>>, answers: seq<OutboxEvent>, sends: seq<Turn>, at: seq<nat>,
                     e: OutboxEvent, turn: Turn)
    requires |states| > 1 && Answered(states, answers, sends, at) && Answers(e, turn, states[|states| - 1])
    ensures Answered(states, answers + [e], sends + [turn], at + [|states| - 2])
  {
  }

  lemma FirstAnswers(before: Option<Entry>, turn: Turn, after: Option<Entry>)
    requires TookRow(before, turn, after)
    ensures Answers(Events(turn)[0], turn, after)
  {
  }

  /** Of the events of a turn only the first may count for `f`. */
  lemma PickFirst<B>(told: seq<OutboxEvent>, es: seq<OutboxEvent>, f: OutboxEvent -> Option<B>, out: seq<B>,
                     places: seq<nat>)
    returns (places': seq<nat>)
    requires Picks(told, f, out, places) && 1 <= |es| <= 2 && (|es| == 2 ==> f(es[1]).None?)
    ensures Picks(told + es, f, match f(es[0]) case Some(v) => out + [v] case None => out, places')
  {
    OneOrTwo(told, es);
    places' := PicksAppend(told, es[0], f, out, places);
    if |es| == 2 {
      PicksSkip(told + [es[0]], es[1], f, match f(es[0]) case Some(v) => out + [v] case None => out, places');
    }
  }

  lemma OneOrTwo<T>(told: seq<T>, es: seq<T>)
    requires 1 <= |es| <= 2
    ensures told + es == if |es| == 1 then told + [es[0]] else (told + [es[0]]) + [es[1]]
  {
  }

  lemma EventsShape(turn: Turn)
    ensures var es := Events(turn);
            && 1 <= |es| <= 2 && !es[0].MailExhausted? && (|es| == 2 ==> es[1].MailExhausted?)
            && RejectionIn(es[0])
               == match turn.send.outcome case Permanent(detail) => Some(detail) case _ => None
  {
  }

  /** The detail of a rejection. */
  function RejectionIn(e: OutboxEvent): Option<string> {
    if e.MailRejected? then Some(e.detail) else None
  }

  /** The detail of a send of the row that the server refused for good. */
  function RefusalOf(id: nat): Step -> Option<string> {
    (step: Step) =>
      if step.Took? && step.turn.row.id == id && step.turn.send.outcome.Permanent? then
        Some(step.turn.send.outcome.detail)
      else None
  }

  /** The rejections in a row's story are, in order, the refused sends of that row, each with its detail. */
  lemma {:induction false} RejectionsExactly(steps: seq<Step>, id: nat)
    returns (details: seq<string>, places: seq<nat>, at: seq<nat>)
    ensures Picks(Story(Trace(steps), id), RejectionIn, details, places) && Picks(steps, RefusalOf(id), details, at)
  {
    details, places, at := RejectionsTold(steps, id);
    TraceTells(steps, id);
  }

  lemma {:induction false} RejectionsTold(steps: seq<Step>, id: nat)
    returns (details: seq<string>, places: seq<nat>, at: seq<nat>)
    ensures Picks(Told(steps, id), RejectionIn, details, places) && Picks(steps, RefusalOf(id), details, at)
  {
    details, places, at := [], [], [];
    if steps != [] {
      var init, last := steps[..|steps| - 1], steps[|steps| - 1];
      details, places, at := RejectionsTold(init, id);
      at := PicksLast(steps, RefusalOf(id), details, at);
      places := RejectionTold(Told(init, id), last, id, details, places);
      details := match RefusalOf(id)(last) case Some(detail) => details + [detail] case None => details;
    }
  }

  lemma RejectionTold(told: seq<OutboxEvent>, step: Step, id: nat, details: seq<string>, places: seq<nat>)
    returns (places': seq<nat>)
    requires Picks(told, RejectionIn, details, places)
    ensures Picks(if IdOf(step) == id then told + EventsOf(step) else told, RejectionIn,
                  match RefusalOf(id)(step) case Some(detail) => details + [detail] case None => details, places')
  {
    places' := places;
    if IdOf(step) == id && step.Took? {
      EventsShape(step.turn);
      places' := PickFirst(told, Events(step.turn), RejectionIn, details, places);
    } else {
      assert told + [] == told;
    }
  }

  // ----- Spacing -----

  predicate Fails(step: Step, id: nat) {
    step.Took? && step.turn.row.id == id && step.turn.send.outcome.Transient?
  }

  /** When the wait after a failure is over. */
  function WaitEnds(failed: Turn, wait: nat -> nat): int {
    failed.send.finish + wait(failed.row.retryCount + 1)
  }

  /** A row's due time keeps the distance of every transient failure it had. */
  lemma {:induction false} DueKeepsDistance(states: seq<Option<Entry>>, steps: seq<Step>, id: nat, i: nat)
    requires RowRun(states, steps, id) && InTime(steps) && i < |steps| && Fails(steps[i], id)
    ensures states[|steps|].Some? ==> states[|steps|].value.dueAt >= WaitEnds(steps[i].turn, BackoffFor)
  {
    var n := |steps| - 1;
    assert RowStep(states[n], steps[n], states[n + 1], id);
    if i < n {
      RunPrefix(states, steps, id, n);
      DueKeepsDistance(states[..n + 1], steps[..n], id, i);
      if steps[n].Queued? && IdOf(steps[n]) == id {
        assert false;
      }
      LaterDue(states[n], states[n + 1], steps[n], id, WaitEnds(steps[i].turn, BackoffFor));
    }
  }

  /** Once a row waits at least until `from`, no later send of it brings that forward. */
  lemma LaterDue(before: Option<Entry>, after: Option<Entry>, step: Step, id: nat, from: int)
    requires RowStep(before, step, after, id) && !(step.Queued? && IdOf(step) == id)
    requires before.Some? ==> before.value.dueAt >= from
    ensures after.Some? ==> after.value.dueAt >= from
  {
  }

  /** Retry spacing: after a transient failure the next send of the row starts at least its backoff later. */
  lemma RetrySpacing(entries: seq<Entry>, steps: seq<Step>, i: nat, j: nat)
    requires Unique(entries) && Legal(entries, steps) && i < j < |steps| && steps[j].Took?
    requires Fails(steps[i], IdOf(steps[j]))
    ensures steps[j].turn.send.start >= WaitEnds(steps[i].turn, BackoffFor)
  {
    var states := LegalRun(entries, steps, IdOf(steps[j]));
    SendKeepsDistance(states, steps, IdOf(steps[j]), i, j);
  }

  lemma SendKeepsDistance(states: seq<Option<Entry>>, steps: seq<Step>, id: nat, i: nat, j: nat)
    requires RowRun(states, steps, id) && InTime(steps) && i < j < |steps| && Fails(steps[i], id)
    requires steps[j].Took? && IdOf(steps[j]) == id
    ensures steps[j].turn.send.start >= WaitEnds(steps[i].turn, BackoffFor)
  {
    RunPrefix(states, steps, id, j);
    DueKeepsDistance(states[..j + 1], steps[..j], id, i);
    assert RowStep(states[j], steps[j], states[j + 1], id);
  }

  function Failures(steps: seq<Step>, id: nat): nat {
    if steps == [] then 0
    else Failures(steps[..|steps| - 1], id) + if Fails(steps[|steps| - 1], id) then 1 else 0
  }

  lemma {:induction false} CounterCountsFailures(states: seq<Option<Entry>>, steps: seq<Step>, id: nat)
    requires RowRun(states, steps, id) && states[|steps|].Some?
    ensures var born := Born(states[0], steps, id);
            born.Some? && states[|steps|].value.row.retryCount == born.value.row.retryCount + Failures(steps, id)
  {
    if steps != [] {
      var n := |steps| - 1;
      assert RowStep(states[n], steps[n], states[n + 1], id);
      RunPrefix(states, steps, id, n);
      if steps[n].Queued? && IdOf(steps[n]) == id {
        assert FreshAt(steps, n);
        Untouched(states[..n + 1], steps[..n], id);
      } else {
        CounterCountsFailures(states[..n + 1], steps[..n], id);
      }
    }
  }

  /** A row that is there keeps its origin. */
  lemma {:induction false} BornStays(states: seq<Option<Entry>>, steps: seq<Step>, id: nat, k: nat)
    requires RowRun(states, steps, id) && k <= |steps| && states[k].Some?
    ensures Born(states[0], steps, id) == Born(states[0], steps[..k], id)
  {
    if k == |steps| {
      assert steps[..k] == steps;
    } else {
      var n := |steps| - 1;
      RunPrefix(states, steps, id, n);
      BornStays(states[..n + 1], steps[..n], id, k);
      assert steps[..n][..k] == steps[..k];
      if steps[n].Queued? && IdOf(steps[n]) == id {
        assert FreshAt(steps, n);
        RunPrefix(states, steps, id, k);
        Untouched(states[..k + 1], steps[..k], id);
        assert false;
      }
    }
  }

  lemma {:induction false} NthFailure(steps: seq<Step>, id: nat, n: nat) returns (i: nat)
    requires n < Failures(steps, id)
    ensures i < |steps| && Fails(steps[i], id) && Failures(steps[..i], id) == n
  {
    var init := steps[..|steps| - 1];
    if n < Failures(init, id) {
      i := NthFailure(init, id, n);
      assert init[..i] == steps[..i];
    } else {
      i := |steps| - 1;
    }
  }

  /** Sends of the row keep the distance of every earlier transient failure. */
  ghost predicate Spaced(steps: seq<Step>, id: nat, wait: nat -> nat) {
    forall i, j :: 0 <= i < j < |steps| && Fails(steps[i], id) && steps[j].Took? && IdOf(steps[j]) == id ==>
      steps[j].turn.send.start >= WaitEnds(steps[i].turn, wait)
  }

  /** The row came into the outbox with its counter at 0. */
  ghost predicate StartsFresh(states: seq<Option<Entry>>, steps: seq<Step>, id: nat)
    requires states != []
  {
    Born(states[0], steps, id).Some? && Born(states[0], steps, id).value.row.retryCount == 0
  }

  /** The waits of a fresh row add up: its failure number n + 1 starts that much after the first one. */
  lemma {:induction false} WaitsAddUp(wait: nat -> nat, states: seq<Option<Entry>>, steps: seq<Step>, id: nat,
                                      j: nat, n: nat)
    returns (i: nat)
    requires RowRun(states, steps, id) && Spaced(steps, id, wait) && StartsFresh(states, steps, id)
    requires j < |steps| && Fails(steps[j], id) && steps[j].turn.row.retryCount == n
    ensures i <= j && Fails(steps[i], id) && steps[i].turn.row.retryCount == 0
    ensures if n == 0 then i == j else i < j && steps[j].turn.send.start >= steps[i].turn.send.finish + Sum(wait, n)
    decreases n
  {
    i := j;
    if n > 0 {
      var k := PreviousFailure(states, steps, id, j, n);
      i := WaitsAddUp(wait, states, steps, id, k, n - 1);
      assert Sum(wait, n) == Sum(wait, n - 1) + wait(n);
    }
  }

  lemma PreviousFailure(states: seq<Option<Entry>>, steps: seq<Step>, id: nat, j: nat, n: nat) returns (k: nat)
    requires RowRun(states, steps, id) && StartsFresh(states, steps, id)
    requires j < |steps| && Fails(steps[j], id) && steps[j].turn.row.retryCount == n > 0
    ensures k < j && Fails(steps[k], id) && steps[k].turn.row.retryCount == n - 1
    ensures steps[k].turn.send.start <= steps[k].turn.send.finish
  {
    SentCount(states, steps, id, j);
    k := NthFailure(steps[..j], id, n - 1);
    assert steps[..j][..k] == steps[..k];
    SentCount(states, steps, id, k);
  }

  /** A row that starts fresh is sent with the count of its failures so far. */
  lemma SentCount(states: seq<Option<Entry>>, steps: seq<Step>, id: nat, k: nat)
    requires RowRun(states, steps, id) && StartsFresh(states, steps, id) && k < |steps| && Fails(steps[k], id)
    ensures steps[k].turn.row.retryCount == Failures(steps[..k], id)
    ensures steps[k].turn.send.start <= steps[k].turn.send.finish
  {
    assert RowStep(states[k], steps[k], states[k + 1], id);
    RunPrefix(states, steps, id, k);
    BornStays(states, steps, id, k);
    CounterCountsFailures(states[..k + 1], steps[..k], id);
  }

  /** A fresh row is not given up on sooner than the sum of its eleven waits after its first failure. */
  lemma ExhaustionTakesLong(entries: seq<Entry>, steps: seq<Step>, j: nat) returns (i: nat)
    requires Unique(entries) && Legal(entries, steps) && j < |steps| && steps[j].Took?
             && Fails(steps[j], IdOf(steps[j]))
    requires var born := Born(EntryOf(entries, IdOf(steps[j])), steps, IdOf(steps[j]));
             born.Some? && born.value.row.retryCount == 0
    requires steps[j].turn.row.retryCount + 1 == MAX_RETRY_ATTEMPTS
    ensures i < j && Fails(steps[i], IdOf(steps[j]))
    ensures steps[j].turn.send.start >= steps[i].turn.send.finish + 139_964_400
  {
    var id := IdOf(steps[j]);
    var states := LegalRun(entries, steps, id);
    assert steps[..0] == [];
    forall k, l | 0 <= k < l < |steps| && Fails(steps[k], id) && steps[l].Took? && IdOf(steps[l]) == id
      ensures steps[l].turn.send.start >= WaitEnds(steps[k].turn, BackoffFor)
    {
      SendKeepsDistance(states, steps, id, k, l);
    }
    i := WaitsAddUp(BackoffFor, states, steps, id, j, 11);
    SumToExhaustion();
  }

  /**
   Only a successful send ends the retries: a row that was announced as failed for
   good is due again just like any other, at once after a rejection and after the
   backoff when its budget is used up.
   */
  lemma DueAgainExactlyWhen(entries: seq<Entry>, turn: Turn, now: int)
    requires Unique(entries) && TurnOk(entries, turn) && now >= turn.send.finish
    ensures (exists row :: row in DueRows(Handle(entries, turn), now) && row.id == turn.row.id) <==>
              match turn.send.outcome
              case Sent => false
              case Transient(_) => now >= turn.send.finish + BackoffFor(turn.row.retryCount + 1)
              case Permanent(_) => true
  {
    var after, id := Handle(entries, turn), turn.row.id;
    HandleEffect(entries, turn, id);
    EntryIsMember(after, id);
    if EntryOf(after, id).Some? {
      DueMembers(after, now, EntryOf(after, id).value.row);
    }
    forall row | row in DueRows(after, now) && row.id == id
      ensures EntryOf(after, id).Some? && EntryOf(after, id).value.row == row && EntryOf(after, id).value.dueAt <= now
    {
      DueMembers(after, now, row);
    }
  }

  // ----- Flushing -----

  /** What the host and the flushes do: queue a row, list the due rows, send the next row listed. */
  datatype Action = Queue(entry: Entry) | List(now: int) | SendNext(send: Send)

  /** The steps these actions amount to; a flush that died leaves its list behind. */
  function StepsOf(entries: seq<Entry>, actions: seq<Action>): seq<Step>
    decreases |actions|, 0
  {
    if actions == [] then []
    else
      var init := actions[..|actions| - 1];
      match actions[|actions| - 1]
      case Queue(e) => StepsOf(entries, init) + [Queued(e)]
      case List(_) => StepsOf(entries, init)
      case SendNext(send) =>
        if DueLeft(entries, init) == [] then StepsOf(entries, init)
        else StepsOf(entries, init) + [Took(Turn(DueLeft(entries, init)[0], send))]
  }

  /** The rows listed and not yet sent. */
  function DueLeft(entries: seq<Entry>, actions: seq<Action>): seq<OutboxRow>
    decreases |actions|, 1
  {
    if actions == [] then []
    else
      var init := actions[..|actions| - 1];
      match actions[|actions| - 1]
      case Queue(_) => DueLeft(entries, init)
      case List(now) => DueRows(Apply(entries, StepsOf(entries, init)), now)
      case SendNext(_) => if DueLeft(entries, init) == [] then [] else DueLeft(entries, init)[1..]
  }

  function StartOf(action: Action): int {
    match action
    case Queue(_) => 0
    case List(now) => now
    case SendNext(send) => send.start
  }

  function FinishOf(action: Action): int {
    match action
    case Queue(_) => 0
    case List(now) => now
    case SendNext(send) => send.finish
  }

  /** The clock never runs backwards. */
  ghost predicate ClockIsMonotone(actions: seq<Action>) {
    && (forall i :: 0 <= i < |actions| ==> StartOf(actions[i]) <= FinishOf(actions[i]))
    && (forall i, j :: 0 <= i < j < |actions| && !actions[i].Queue? && !actions[j].Queue? ==>
          FinishOf(actions[i]) <= StartOf(actions[j]))
  }

  /** Each queued row brings an id of its own. */
  ghost predicate QueuesFreshIds(entries: seq<Entry>, actions: seq<Action>) {
    && (forall i :: 0 <= i < |actions| && actions[i].Queue? ==> EntryOf(entries, actions[i].entry.row.id).None?)
    && (forall i, j :: 0 <= i < j < |actions| && actions[i].Queue? && actions[j].Queue? ==>
          actions[i].entry.row.id != actions[j].entry.row.id)
  }

  /** A listed row is still stored as it was listed, and due at any time from `now` on. */
  ghost predicate StillDue(entries: seq<Entry>, row: OutboxRow, now: int) {
    EntryOf(entries, row.id).Some? && EntryOf(entries, row.id).value.row == row
      && EntryOf(entries, row.id).value.dueAt <= now
  }

  ghost predicate AllDue(entries: seq<Entry>, due: seq<OutboxRow>, now: int) {
    DistinctIds(due) && forall row :: row in due ==> StillDue(entries, row, now)
  }

  /** The time of the last action that is not a push. */
  function Clock(actions: seq<Action>): Option<int> {
    if actions == [] then None
    else if actions[|actions| - 1].Queue? then Clock(actions[..|actions| - 1])
    else Some(FinishOf(actions[|actions| - 1]))
  }

  /**
   Any sequence of flushes on a monotone clock, each whole or cut off anywhere, with
   rows queued between any two sends, is a legal sequence of steps, so all of the
   above holds of it.
   */
  lemma {:induction false} FlushesAreLegal(entries: seq<Entry>, actions: seq<Action>)
    requires Unique(entries) && ClockIsMonotone(actions) && QueuesFreshIds(entries, actions)
    ensures Legal(entries, StepsOf(entries, actions)) && Unique(Apply(entries, StepsOf(entries, actions)))
    ensures DueLeft(entries, actions) != [] ==>
              Clock(actions).Some?
                && AllDue(Apply(entries, StepsOf(entries, actions)), DueLeft(entries, actions), Clock(actions).value)
  {
    if actions != [] {
      var init, last := actions[..|actions| - 1], actions[|actions| - 1];
      FlushesAreLegal(entries, init);
      var steps := StepsOf(entries, init);
      match last
      case Queue(e) => QueueIsLegal(entries, actions);
      case List(now) => ListingIsDue(Apply(entries, steps), now);
      case SendNext(send) =>
        if DueLeft(entries, init) != [] {
          SendIsLegal(entries, actions);
        }
    }
  }

  lemma ListingIsDue(entries: seq<Entry>, now: int)
    requires Unique(entries)
    ensures AllDue(entries, DueRows(entries, now), now)
  {
    DueDistinct(entries, now);
    forall row | row in DueRows(entries, now)
      ensures StillDue(entries, row, now)
    {
      DueMembers(entries, now, row);
      EntryIsMember(entries, row.id);
    }
  }

  lemma QueueIsLegal(entries: seq<Entry>, actions: seq<Action>)
    requires actions != [] && actions[|actions| - 1].Queue?
    requires Unique(entries) && QueuesFreshIds(entries, actions)
    requires var init := actions[..|actions| - 1];
             && Legal(entries, StepsOf(entries, init)) && Unique(Apply(entries, StepsOf(entries, init)))
             && (DueLeft(entries, init) != [] ==>
                   && Clock(init).Some?
                   && AllDue(Apply(entries, StepsOf(entries, init)), DueLeft(entries, init), Clock(init).value))
    ensures Legal(entries, StepsOf(entries, actions)) && Unique(Apply(entries, StepsOf(entries, actions)))
    ensures DueLeft(entries, actions) != [] ==>
              Clock(actions).Some?
                && AllDue(Apply(entries, StepsOf(entries, actions)), DueLeft(entries, actions), Clock(actions).value)
  {
    var init, e := actions[..|actions| - 1], actions[|actions| - 1].entry;
    var steps, id := StepsOf(entries, init), e.row.id;
    NeverSeen(entries, actions);
    var states := LegalRun(entries, steps, id);
    assert steps[..0] == [] && steps[..|steps|] == steps;
    Untouched(states, steps, id);
    assert EntryOf(Apply(entries, steps), id).None?;
    LegalExtends(entries, steps, Queued(e));
    forall row | row in DueLeft(entries, init)
      ensures StillDue(Apply(entries, steps + [Queued(e)]), row, Clock(init).value)
    {
      assert StillDue(Apply(entries, steps), row, Clock(init).value);
      QueueEffect(Apply(entries, steps), e, row.id);
      ApplyExtends(entries, steps, Queued(e));
    }
  }

  /** No step before a push is about the id it brings. */
  lemma NeverSeen(entries: seq<Entry>, actions: seq<Action>)
    requires actions != [] && actions[|actions| - 1].Queue? && QueuesFreshIds(entries, actions)
    requires Unique(entries) && Legal(entries, StepsOf(entries, actions[..|actions| - 1]))
    ensures NoneAbout(StepsOf(entries, actions[..|actions| - 1]), actions[|actions| - 1].entry.row.id)
  {
    var n := |actions| - 1;
    var steps, id := StepsOf(entries, actions[..n]), actions[n].entry.row.id;
    forall k | 0 <= k < |steps|
      ensures IdOf(steps[k]) != id
    {
      if EntryOf(entries, IdOf(steps[k])).None? {
        var q := Origin(entries, steps, k);
        var a := PushedBefore(entries, actions[..n], q);
        assert actions[a].Queue? && actions[a].entry.row.id == IdOf(steps[k]);
      }
    }
  }

  /** A step about a row not stored from the start follows its queueing, or is it. */
  lemma Origin(entries: seq<Entry>, steps: seq<Step>, k: nat) returns (q: nat)
    requires Unique(entries) && Legal(entries, steps) && k < |steps| && EntryOf(entries, IdOf(steps[k])).None?
    ensures q <= k && steps[q].Queued? && IdOf(steps[q]) == IdOf(steps[k])
  {
    q := k;
    if steps[k].Took? {
      var id := IdOf(steps[k]);
      var states := LegalRun(entries, steps, id);
      assert steps[..0] == [];
      assert RowStep(states[k], steps[k], states[k + 1], id);
      RunPrefix(states, steps, id, k);
      CounterCountsFailures(states[..k + 1], steps[..k], id);
      q := QueuedWhen(states[0], steps[..k], id);
    }
  }

  lemma {:induction false} QueuedWhen(initial: Option<Entry>, steps: seq<Step>, id: nat) returns (q: nat)
    requires initial.None? && Born(initial, steps, id).Some?
    ensures q < |steps| && steps[q].Queued? && IdOf(steps[q]) == id
  {
    q := |steps| - 1;
    if !(steps[q].Queued? && IdOf(steps[q]) == id) {
      q := QueuedWhen(initial, steps[..q], id);
    }
  }

  /** A queued step is a push. */
  lemma {:induction false} PushedBefore(entries: seq<Entry>, actions: seq<Action>, q: nat) returns (a: nat)
    requires q < |StepsOf(entries, actions)| && StepsOf(entries, actions)[q].Queued?
    ensures a < |actions| && actions[a].Queue? && StepsOf(entries, actions)[q] == Queued(actions[a].entry)
  {
    a := |actions| - 1;
    if q < |StepsOf(entries, actions[..a])| {
      a := PushedBefore(entries, actions[..a], q);
    }
  }

  lemma SendIsLegal(entries: seq<Entry>, actions: seq<Action>)
    requires actions != [] && actions[|actions| - 1].SendNext? && ClockIsMonotone(actions) && Unique(entries)
    requires var init := actions[..|actions| - 1];
             && DueLeft(entries, init) != [] && Clock(init).Some?
             && Legal(entries, StepsOf(entries, init)) && Unique(Apply(entries, StepsOf(entries, init)))
             && AllDue(Apply(entries, StepsOf(entries, init)), DueLeft(entries, init), Clock(init).value)
    ensures Legal(entries, StepsOf(entries, actions)) && Unique(Apply(entries, StepsOf(entries, actions)))
    ensures Clock(actions).Some?
    ensures AllDue(Apply(entries, StepsOf(entries, actions)), DueLeft(entries, actions), Clock(actions).value)
  {
    var n := |actions| - 1;
    var init, send := actions[..n], actions[n].send;
    var steps, due := StepsOf(entries, init), DueLeft(entries, init);
    var turn := Turn(due[0], send);
    assert due[0] in due && StillDue(Apply(entries, steps), due[0], Clock(init).value);
    ClockBounds(entries, actions);
    LegalExtends(entries, steps, Took(turn));
    ApplyExtends(entries, steps, Took(turn));
    OthersStillDue(Apply(entries, steps), due, turn, Clock(init).value);
  }

  /** Handling the first of the rows listed leaves the others due. */
  lemma OthersStillDue(entries: seq<Entry>, due: seq<OutboxRow>, turn: Turn, now: int)
    requires Unique(entries) && due != [] && AllDue(entries, due, now) && turn.row == due[0] && now <= turn.send.finish
    ensures AllDue(Handle(entries, turn), due[1..], turn.send.finish)
  {
    var rest := due[1..];
    assert forall i :: 0 <= i < |rest| ==> rest[i] == due[i + 1];
    forall row | row in rest
      ensures StillDue(Handle(entries, turn), row, turn.send.finish)
    {
      var i :| 0 <= i < |rest| && rest[i] == row;
      assert due[i + 1] == row && row in due && row.id != due[0].id;
      assert StillDue(entries, row, now);
      HandleEffect(entries, turn, row.id);
    }
  }

  /** A send starts after the clock, and after every send before it. */
  lemma ClockBounds(entries: seq<Entry>, actions: seq<Action>)
    requires actions != [] && actions[|actions| - 1].SendNext? && ClockIsMonotone(actions)
    ensures var init, send := actions[..|actions| - 1], actions[|actions| - 1].send;
            && send.start <= send.finish
            && (Clock(init).Some? ==> Clock(init).value <= send.start)
            && forall t :: t in StepsOf(entries, init) && t.Took? ==> t.turn.send.finish <= send.start
  {
    var n := |actions| - 1;
    var init, send := actions[..n], actions[n].send;
    assert StartOf(actions[n]) <= FinishOf(actions[n]);
    if Clock(init).Some? {
      var i := ClockAt(init);
      assert FinishOf(actions[i]) <= StartOf(actions[n]);
    }
    forall t | t in StepsOf(entries, init) && t.Took?
      ensures t.turn.send.finish <= send.start
    {
      var i := SentAt(entries, init, t);
      assert FinishOf(actions[i]) <= StartOf(actions[n]);
    }
  }

  lemma {:induction false} ClockAt(actions: seq<Action>) returns (i: nat)
    requires Clock(actions).Some?
    ensures i < |actions| && !actions[i].Queue? && Clock(actions) == Some(FinishOf(actions[i]))
  {
    i := |actions| - 1;
    if actions[i].Queue? {
      i := ClockAt(actions[..i]);
    }
  }

  lemma {:induction false} SentAt(entries: seq<Entry>, actions: seq<Action>, t: Step) returns (i: nat)
    requires t in StepsOf(entries, actions) && t.Took?
    ensures i < |actions| && actions[i] == SendNext(t.turn.send)
  {
    i := |actions| - 1;
    if t in StepsOf(entries, actions[..i]) {
      i := SentAt(entries, actions[..i], t);
    }
  }

  lemma ApplyExtends(entries: seq<Entry>, steps: seq<Step>, step: Step)
    ensures Apply(entries, steps + [step]) == Do(Apply(entries, steps), step)
    ensures Trace(steps + [step]) == Trace(steps) + EventsOf(step)
  {
    assert (steps + [step])[..|steps + [step]| - 1] == steps;
  }

  lemma LegalExtends(entries: seq<Entry>, steps: seq<Step>, step: Step)
    requires Legal(entries, steps) && Unique(Apply(entries, steps)) && StepOk(Apply(entries, steps), step)
    requires step.Queued? ==> EntryOf(entries, IdOf(step)).None? && NoneAbout(steps, IdOf(step))
    requires step.Took? ==> forall t :: t in steps && t.Took? ==> t.turn.send.finish <= step.turn.send.start
    ensures Legal(entries, steps + [step]) && Unique(Apply(entries, steps + [step]))
  {
    var all, n := steps + [step], |steps|;
    forall i | 0 <= i < |all|
      ensures StepOk(Apply(entries, all[..i]), all[i])
    {
      assert all[..i] == steps[..i];
      assert steps[..n] == steps;
    }
    forall i | 0 <= i < |all| && all[i].Queued?
      ensures EntryOf(entries, IdOf(all[i])).None? && FreshAt(all, i)
    {
      assert i < n ==> FreshAt(steps, i);
    }
    ApplyExtends(entries, steps, step);
    RowStepOf(Apply(entries, steps), step, 0);
  }

  /** The turns of one flush: the rows due at its start, as far as it gets. */
  function Turns(due: seq<OutboxRow>, sends: seq<Send>): (steps: seq<Step>)
    ensures |steps| == if |due| <= |sends| then |due| else |sends|
    ensures forall i :: 0 <= i < |steps| ==> steps[i] == Took(Turn(due[i], sends[i]))
  {
    var n := if |due| <= |sends| then |due| else |sends|;
    seq(n, i requires 0 <= i < n => Took(Turn(due[i], sends[i])))
  }

  function Sends(sends: seq<Send>): seq<Action> {
    seq(|sends|, i requires 0 <= i < |sends| => SendNext(sends[i]))
  }

  lemma TurnsAppend(due: seq<OutboxRow>, sends: seq<Send>, send: Send)
    ensures Turns(due, sends + [send]) ==
            if |sends| < |due| then Turns(due, sends) + [Took(Turn(due[|sends|], send))] else Turns(due, sends)
  {
  }

  /** The rows left after `n` sends. */
  function Left(due: seq<OutboxRow>, n: nat): seq<OutboxRow> {
    if |due| <= n then [] else due[n..]
  }

  lemma SendMore(entries: seq<Entry>, actions: seq<Action>, all: seq<Action>, send: Send, steps: seq<Step>,
                 left: seq<OutboxRow>)
    requires StepsOf(entries, actions) == steps && DueLeft(entries, actions) == left
    requires all == actions + [SendNext(send)]
    ensures StepsOf(entries, all) == steps + if left == [] then [] else [Took(Turn(left[0], send))]
    ensures DueLeft(entries, all) == if left == [] then [] else left[1..]
  {
    assert all[..|all| - 1] == actions;
    assert steps + [] == steps;
  }

  lemma ListStep(entries: seq<Entry>, actions: seq<Action>, now: int)
    ensures StepsOf(entries, actions + [List(now)]) == StepsOf(entries, actions)
    ensures DueLeft(entries, actions + [List(now)]) == DueRows(Apply(entries, StepsOf(entries, actions)), now)
  {
    var all := actions + [List(now)];
    assert all[..|all| - 1] == actions;
  }

  /** Taking the first of the rows left is taking the row at the place reached. */
  lemma TakeNext(due: seq<OutboxRow>, sends: seq<Send>, steps: seq<Step>, send: Send)
    ensures var left := Left(due, |sends|);
            && steps + Turns(due, sends) + (if left == [] then [] else [Took(Turn(left[0], send))])
               == steps + Turns(due, sends + [send])
            && (if left == [] then [] else left[1..]) == Left(due, |sends + [send]|)
  {
    TurnsAppend(due, sends, send);
    if |sends| < |due| {
      Associate(steps, Turns(due, sends), [Took(Turn(due[|sends|], send))]);
    }
  }

  lemma SendTakesRow(entries: seq<Entry>, actions: seq<Action>, all: seq<Action>, sends: seq<Send>, send: Send,
                     steps: seq<Step>, due: seq<OutboxRow>)
    requires StepsOf(entries, actions) == steps + Turns(due, sends) && DueLeft(entries, actions) == Left(due, |sends|)
    requires all == actions + [SendNext(send)]
    ensures StepsOf(entries, all) == steps + Turns(due, sends + [send])
    ensures DueLeft(entries, all) == Left(due, |sends + [send]|)
  {
    TakeNext(due, sends, steps, send);
    SendMore(entries, actions, all, send, steps + Turns(due, sends), Left(due, |sends|));
  }

  lemma {:induction false} SendsTakeRows(entries: seq<Entry>, actions: seq<Action>, sends: seq<Send>, steps: seq<Step>,
                                         due: seq<OutboxRow>)
    requires StepsOf(entries, actions) == steps && DueLeft(entries, actions) == due
    ensures StepsOf(entries, actions + Sends(sends)) == steps + Turns(due, sends)
    ensures DueLeft(entries, actions + Sends(sends)) == Left(due, |sends|)
  {
    if sends == [] {
      assert actions + Sends(sends) == actions;
    } else {
      var init, last := sends[..|sends| - 1], sends[|sends| - 1];
      SendsTakeRows(entries, actions, init, steps, due);
      assert init + [last] == sends;
      SendTakesRow(entries, actions + Sends(init), actions + Sends(sends), init, last, steps, due);
    }
  }

  /** A flush is one listing and its sends. */
  lemma FlushIsActions(entries: seq<Entry>, before: seq<Action>, now: int, sends: seq<Send>)
    ensures StepsOf(entries, before + [List(now)] + Sends(sends))
         == StepsOf(entries, before) + Turns(DueRows(Apply(entries, StepsOf(entries, before)), now), sends)
  {
    var steps := StepsOf(entries, before);
    ListStep(entries, before, now);
    SendsTakeRows(entries, before + [List(now)], sends, steps, DueRows(Apply(entries, steps), now));
  }

  lemma OneMore(entries: seq<Entry>, steps: seq<Step>, k: nat)
    requires k < |steps|
    ensures Apply(entries, steps[..k + 1]) == Do(Apply(entries, steps[..k]), steps[k])
    ensures Trace(steps[..k + 1]) == Trace(steps[..k]) + EventsOf(steps[k])
  {
    assert steps[..k + 1][..k] == steps[..k];
  }

  // ----- The service -----

  class OutboxStore {
    var entries: seq<Entry>

    constructor ()
      ensures entries == []
    {
      entries := [];
    }

    method Push(row: OutboxRow, dueAt: int)
      modifies this
      ensures entries == Do(old(entries), Queued(Entry(row, dueAt)))
    {
      entries := entries + [Entry(row, dueAt)];
    }

    method Due(now: int) returns (rows: seq<OutboxRow>)
      ensures rows == DueRows(entries, now)
    {
      rows := DueRows(entries, now);
    }

    method MarkRetry(id: nat, retry: nat, nextAttemptAt: int, error: string) returns (found: bool)
      modifies this
      ensures entries == Reschedule(old(entries), id, retry, nextAttemptAt, error)
      ensures found <==> EntryOf(old(entries), id).Some?
    {
      var i := FindEntry(entries, id);
      found := i < |entries|;
      if found {
        entries := entries[i := Entry(entries[i].row.(retryCount := retry, lastError := Some(error)), nextAttemptAt)];
      }
    }

    /** Keeps the rows with another id, in order. */
    method MarkSent(id: nat)
      modifies this
      ensures entries == Remove(old(entries), id)
      ensures forall e :: e in entries <==> e in old(entries) && e.row.id != id
    {
      var kept: seq<Entry> := [];
      for k := 0 to |entries|
        invariant kept == Remove(entries[..k], id)
        invariant forall e :: e in kept <==> e in entries[..k] && e.row.id != id
        modifies {}
      {
        assert entries[..k + 1][..k] == entries[..k];
        if entries[k].row.id != id {
          kept := kept + [entries[k]];
        }
      }
      assert entries[..|entries|] == entries;
      entries := kept;
    }
  }

  class OutboxService {
    const store: OutboxStore
    var bus: seq<OutboxEvent>

    constructor (store: OutboxStore)
      ensures this.store == store && bus == []
    {
      this.store, bus := store, [];
    }

    /**
     Sends the rows due at `now`. `sends` are the outcomes in order; when it is
     shorter than the list of due rows, the process dies after the last of them.
     */
    method FlushOnce(now: int, sends: seq<Send>)
      modifies this`bus, store
      ensures var turns := Turns(DueRows(old(store.entries), now), sends);
              store.entries == Apply(old(store.entries), turns) && bus == old(bus) + Trace(turns)
    {
      var due := store.Due(now);
      ghost var turns := Turns(due, sends);
      var k := 0;
      while k < |due| && k < |sends|
        invariant 0 <= k <= |turns|
        invariant store.entries == Apply(old(store.entries), turns[..k])
        invariant bus == old(bus) + Trace(turns[..k])
      {
        OneMore(old(store.entries), turns, k);
        ghost var told := Trace(turns[..k]);
        Associate(old(bus), told, EventsOf(turns[k]));
        Settled(due[k], sends[k]);
        k := k + 1;
      }
      assert turns[..k] == turns;
    }

    /** Handles the outcome of one send. */
    method Settled(row: OutboxRow, send: Send)
      modifies this`bus, store
      ensures store.entries == Handle(old(store.entries), Turn(row, send))
      ensures bus == old(bus) + Events(Turn(row, send))
    {
      match send.outcome {
        case Sent =>
          store.MarkSent(row.id);
          bus := bus + [MailSent(row.id)];
        case Transient(detail) =>
          var retry := row.retryCount + 1;
          var wait := BackoffFor(retry);
          var _ := store.MarkRetry(row.id, retry, send.finish + wait, detail);
          bus := bus + [OutboxRetry(row.id, retry, wait, detail)];
          if retry >= MAX_RETRY_ATTEMPTS {
            bus := bus + [MailExhausted(row.id, retry)];
          }
        case Permanent(detail) =>
          bus := bus + [MailRejected(row.id, detail)];
      }
    }
  }

  // ----- Recipients -----

  /** Drops every address equal to the one before it. */
  function Dedup(addresses: seq<string>): seq<string> {
    if |addresses| <= 1 then addresses
    else
      var rest, last := Dedup(addresses[..|addresses| - 1]), addresses[|addresses| - 1];
      if last == addresses[|addresses| - 2] then rest else rest + [last]
  }

  function Recipients(envelope: Envelope): seq<string> {
    Dedup(envelope.to + envelope.cc + envelope.bcc)
  }

  predicate Distinct(s: seq<string>) {
    forall i, j :: 0 <= i < j < |s| ==> s[i] != s[j]
  }

  /** Equal addresses stand next to each other. */
  predicate Contiguous(s: seq<string>) {
    forall i, j, k :: 0 <= i <= j <= k < |s| && s[i] == s[k] ==> s[j] == s[i]
  }

  /**
   Nobody is dropped from or added to the recipients, and an address is given to
   the server only once exactly when its occurrences stand next to each other.
   */
  lemma {:induction false} DedupDistinctExactlyWhen(s: seq<string>)
    ensures forall a :: a in Dedup(s) <==> a in s
    ensures s != [] ==> Dedup(s) != [] && Dedup(s)[|Dedup(s)| - 1] == s[|s| - 1]
    ensures Distinct(Dedup(s)) <==> Contiguous(s)
  {
    if |s| > 1 {
      var init, last := s[..|s| - 1], s[|s| - 1];
      DedupDistinctExactlyWhen(init);
      assert forall a :: a in s <==> a in init || a == last;
      assert init[|init| - 1] == s[|s| - 2];
      if last == s[|s| - 2] {
        ContiguousRepeat(s);
      } else {
        ContiguousExtend(s);
        DistinctExtend(Dedup(init), last);
      }
    }
  }

  predicate DiffersFromLast<T(==)>(s: seq<T>, k: nat) {
    k < |s| && (k == 0 || s[k] != s[k - 1])
  }

  /** `d` holds the first of each row of equal addresses in `s`, in order, at the places `at`. */
  ghost predicate FirstsOf<T>(s: seq<T>, d: seq<T>, at: seq<nat>) {
    && |at| == |d| && (forall i :: 0 <= i < |at| ==> DiffersFromLast(s, at[i]) && d[i] == s[at[i]])
    && (forall i, j :: 0 <= i < j < |at| ==> at[i] < at[j])
    && (forall k: nat :: DiffersFromLast(s, k) ==> k in at)
  }

  lemma {:induction false} DedupKeepsOrder(s: seq<string>) returns (at: seq<nat>)
    ensures FirstsOf(s, Dedup(s), at)
  {
    at := if s == [] then [] else [0];
    if |s| > 1 {
      at := DedupKeepsOrder(s[..|s| - 1]);
      at := FirstsStep(s, Dedup(s[..|s| - 1]), at);
    }
  }

  lemma FirstsStep<T>(s: seq<T>, d: seq<T>, at: seq<nat>) returns (at': seq<nat>)
    requires |s| > 1 && FirstsOf(s[..|s| - 1], d, at)
    ensures FirstsOf(s, if s[|s| - 1] == s[|s| - 2] then d else d + [s[|s| - 1]], at')
  {
    var n := |s| - 1;
    forall k: nat
      ensures DiffersFromLast(s, k) <==> DiffersFromLast(s[..n], k) || (k == n && s[n] != s[n - 1])
    {
      assert k < n ==> s[..n][k] == s[k] && (k > 0 ==> s[..n][k - 1] == s[k - 1]);
    }
    if s[n] == s[n - 1] {
      at' := at;
    } else {
      at' := at + [n];
      FirstsMore(s, d, at);
    }
  }

  lemma FirstsMore<T>(s: seq<T>, d: seq<T>, at: seq<nat>)
    requires s != [] && FirstsOf(s[..|s| - 1], d, at) && DiffersFromLast(s, |s| - 1)
    requires forall k: nat :: DiffersFromLast(s, k) <==> DiffersFromLast(s[..|s| - 1], k) || k == |s| - 1
    ensures FirstsOf(s, d + [s[|s| - 1]], at + [|s| - 1])
  {
    var at' := at + [|s| - 1];
    assert at'[|at|] == |s| - 1;
    forall k: nat | DiffersFromLast(s, k)
      ensures k in at'
    {
      assert k in at || k == |s| - 1;
    }
  }

  /**
   The server is given everybody the envelope names and nobody else, each once
   exactly when repeats stand together.
   */
  lemma RecipientsExactly(envelope: Envelope)
    ensures forall a :: a in Recipients(envelope) <==> a in envelope.to || a in envelope.cc || a in envelope.bcc
    ensures Distinct(Recipients(envelope)) <==> Contiguous(envelope.to + envelope.cc + envelope.bcc)
  {
    DedupDistinctExactlyWhen(envelope.to + envelope.cc + envelope.bcc);
  }

  lemma ContiguousRepeat(s: seq<string>)
    requires |s| > 1 && s[|s| - 1] == s[|s| - 2]
    ensures Contiguous(s) <==> Contiguous(s[..|s| - 1])
  {
    var init := s[..|s| - 1];
    if Contiguous(init) {
      forall i, j, k | 0 <= i <= j <= k < |s| && s[i] == s[k]
        ensures s[j] == s[i]
      {
        var j', k' := if j == |s| - 1 then |s| - 2 else j, if k == |s| - 1 then |s| - 2 else k;
        if i <= |s| - 2 {
          assert init[i] == init[k'] && init[j'] == init[i];
        }
      }
    } else {
      var i, j, k :| 0 <= i <= j <= k < |init| && init[i] == init[k] && init[j] != init[i];
      assert s[i] == s[k] && s[j] != s[i];
    }
  }

  lemma ContiguousTail(s: seq<string>)
    requires |s| > 1 && Contiguous(s)
    ensures s[|s| - 1] in s[..|s| - 1] ==> s[|s| - 2] == s[|s| - 1]
  {
    forall i | 0 <= i < |s| - 1 && s[i] == s[|s| - 1]
      ensures s[|s| - 2] == s[i]
    {
    }
  }

  lemma ContiguousExtend(s: seq<string>)
    requires |s| > 1 && s[|s| - 1] != s[|s| - 2]
    ensures Contiguous(s) <==> Contiguous(s[..|s| - 1]) && s[|s| - 1] !in s[..|s| - 1]
  {
    var init, last := s[..|s| - 1], s[|s| - 1];
    assert forall i :: 0 <= i < |init| ==> init[i] == s[i];
    if Contiguous(s) {
      ContiguousTail(s);
    }
    if Contiguous(init) && last !in init {
      forall i, j, k | 0 <= i <= j <= k < |s| && s[i] == s[k]
        ensures s[j] == s[i]
      {
        if i < |init| {
          assert init[i] in init;
        }
      }
    }
  }

  lemma DistinctExtend(s: seq<string>, a: string)
    ensures Distinct(s + [a]) <==> Distinct(s) && a !in s
  {
    var t := s + [a];
    if Distinct(t) {
      assert forall i :: 0 <= i < |s| ==> s[i] == t[i] && t[i] != t[|s|];
      assert forall i, j :: 0 <= i < j < |s| ==> t[i] != t[j];
    }
  }
}
