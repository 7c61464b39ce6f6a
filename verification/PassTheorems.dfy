/**
 What passes of the engine amount to: each is a path of the folder-sync protocol,
 and its events replay to the store's counts.
 */
module PassTheorems {
  import opened Wrappers
  import opened Store
  import opened Wire
  import opened FolderProtocol
  import opened FolderInvariant
  import opened FolderSafety
  import opened SyncPass

  // ----- What a pass plans -----

  predicate IsAnswered(outcome: Option<CommandOutcome>) {
    outcome.Some? && outcome.value.IsOk()
  }

  /** The pass finds a new epoch and removes what is stored. */
  predicate Purges(folder: FolderRow, input: PassInput) {
    IsAnswered(input.select) && EpochChanged(folder, InfoOf(input.select.value)) && input.writes.purge
  }

  function Kept(ms: seq<Message>, folder: FolderRow, input: PassInput): seq<Message> {
    if Purges(folder, input) then Without(ms, folder.id) else ms
  }

  /** Where the delta fetch starts, if there is one. */
  function Planned(ms: seq<Message>, folder: FolderRow, input: PassInput): Phase
    requires IsAnswered(input.select)
  {
    DeltaPhase(Kept(ms, folder, input), folder.id, InfoOf(input.select.value), input.maxUidRead)
  }

  // ----- Passes are paths of the protocol -----

  ghost predicate Drifts(ss: seq<Server>, steps: seq<ServerStep>, pinned: Option<string>) {
    && |ss| == |steps| + 1
    && forall i :: 0 <= i < |steps| ==>
         ServerNext(ss[i], ss[i + 1], steps[i]) && !(steps[i].Reset? && pinned == Some(steps[i].name))
  }

  /** The server may go from `s` to `s'` on its own, without resetting the pinned mailbox. */
  ghost predicate ServerMoves(s: Server, s': Server, pinned: Option<string>) {
    exists ss, steps :: Drifts(ss, steps, pinned) && ss[0] == s && ss[|steps|] == s'
  }

  lemma {:induction false} DriftReaches(c: Config, w: World, ss: seq<Server>, steps: seq<ServerStep>,
                                        pinned: Option<string>, i: nat)
    requires Reachable(c, w) && Drifts(ss, steps, pinned) && ss[0] == w.server && i <= |steps|
    requires w.client.InFolder? ==> pinned == Some(w.client.folder.name)
    ensures Reachable(c, w.(server := ss[i]))
  {
    if i == 0 {
      assert w.(server := ss[0]) == w;
    } else {
      DriftReaches(c, w, ss, steps, pinned, i - 1);
      assert ServerNext(ss[i - 1], ss[i - 1 + 1], steps[i - 1]);
      ReachableStep(c, w.(server := ss[i - 1]), w.(server := ss[i]), OnServer(steps[i - 1]));
    }
  }

  lemma MovingReaches(c: Config, w: World, s: Server, pinned: Option<string>)
    requires Reachable(c, w) && ServerMoves(w.server, s, pinned)
    requires w.client.InFolder? ==> pinned == Some(w.client.folder.name)
    ensures Reachable(c, w.(server := s))
  {
    var ss, steps :| Drifts(ss, steps, pinned) && ss[0] == w.server && ss[|steps|] == s;
    DriftReaches(c, w, ss, steps, pinned, |steps|);
  }

  /** Only those dropped writes fail that may. */
  predicate FailsOnlyWhere(c: Config, writes: Writes) {
    && (!writes.purge ==> c.purgeMayFail)
    && (!writes.zeroModseq || !writes.cursors || !writes.flagCursor ==> c.cursorsMayFail)
  }

  /**
   The answers a pass gets from a conforming server that is in state `s1` when it
   answers SELECT and in state `s2` when it answers the envelope fetch.
   */
  ghost predicate Conforms(mail: Mail, c: Config, folder: FolderRow, input: PassInput, s1: Server, s2: Server) {
    input.select.Some? && input.select.value.IsOk() ==>
      var info := InfoOf(input.select.value);
      && FailsOnlyWhere(c, input.writes)
      && folder.name in s1 && SelectAnswer(s1[folder.name], c, input.select.value)
      && folder.name in s2
      && (input.envelopes.Some? && input.envelopes.value.IsOk() ==>
            var phase := DeltaPhase(AfterReconcile(mail, c, folder, info, input.writes).mail.messages, folder.id,
                                    info, input.maxUidRead);
            phase.Fetching? ==> FetchAnswer(s2[folder.name], phase.start, NextBound(info.uidNext),
                                            input.envelopes.value.data))
  }

  lemma RenewalReaches(c: Config, w: World, writes: Writes)
    requires Reachable(c, w) && At(w, Reconcile) && FailsOnlyWhere(c, writes)
             && EpochChanged(w.client.folder, w.client.info)
    ensures var mail := AfterReconcile(w.mail, c, w.client.folder, w.client.info, writes).mail;
            Reachable(c, w.(mail := mail, client := w.client.(phase := Delta)))
  {
    var folder, info := w.client.folder, w.client.info;
    var purged := if writes.purge then Purge(w.mail, folder.id) else w.mail;
    var w1 := w.(mail := purged, client := w.client.(phase := Purged));
    ReachableStep(c, w, w1, OnClient(if writes.purge then ReconcileFolder else PurgeFails));
    CursorWritesReach(c, w1, writes);
  }

  /** The two cursor writes after a purge. */
  lemma CursorWritesReach(c: Config, w: World, writes: Writes)
    requires Reachable(c, w) && At(w, Purged) && FailsOnlyWhere(c, writes)
    ensures var id, info := w.client.folder.id, w.client.info;
            var zeroed := TryCursors(w.mail, c, id, info.uidValidity, 0, writes.zeroModseq);
            var moved := TryCursors(zeroed, c, id, info.uidValidity, info.highestModseq, writes.cursors);
            Reachable(c, w.(mail := moved, client := w.client.(phase := Delta)))
  {
    var id, info := w.client.folder.id, w.client.info;
    var zeroed := TryCursors(w.mail, c, id, info.uidValidity, 0, writes.zeroModseq);
    var w2 := w.(mail := zeroed, client := w.client.(phase := CursorsReset));
    ReachableStep(c, w, w2, OnClient(if writes.zeroModseq then WriteZeroModseq else CursorFails));
    var moved := TryCursors(zeroed, c, id, info.uidValidity, info.highestModseq, writes.cursors);
    var w3 := w2.(mail := moved, client := w.client.(phase := Delta));
    ReachableStep(c, w2, w3, OnClient(if writes.cursors then WriteModseq else CursorFails));
  }

  lemma ReconcileReaches(c: Config, w: World, writes: Writes)
    requires Reachable(c, w) && At(w, Reconcile) && FailsOnlyWhere(c, writes)
    ensures var mail := AfterReconcile(w.mail, c, w.client.folder, w.client.info, writes).mail;
            Reachable(c, w.(mail := mail, client := w.client.(phase := Delta)))
  {
    var folder, info := w.client.folder, w.client.info;
    if EpochChanged(folder, info) {
      RenewalReaches(c, w, writes);
    } else {
      var mail := AfterReconcile(w.mail, c, folder, info, writes).mail;
      ReachableStep(c, w, w.(mail := mail, client := w.client.(phase := Delta)),
                    OnClient(if info.uidValidity != 0 && !writes.cursors then CursorFails else ReconcileFolder));
    }
  }

  lemma FetchReaches(c: Config, w: World, s2: Server, input: PassInput)
    requires Reachable(c, w) && At(w, Delta) && ServerMoves(w.server, s2, Some(w.client.folder.name))
    requires w.client.folder.name in s2
    requires var phase := DeltaPhase(w.mail.messages, w.client.folder.id, w.client.info, input.maxUidRead);
             phase.Fetching? && input.envelopes.Some? && input.envelopes.value.IsOk() ==>
               FetchAnswer(s2[w.client.folder.name], phase.start, NextBound(w.client.info.uidNext),
                           input.envelopes.value.data)
    ensures var r := AfterFetch(w.mail, c, w.client.folder.id, w.client.info, input);
            Reachable(c, if r.ok then World(s2, r.mail, w.client.(phase := Flags), w.seen)
                         else World(s2, r.mail, Down, map[]))
  {
    var id, info := w.client.folder.id, w.client.info;
    var phase := DeltaPhase(w.mail.messages, id, info, input.maxUidRead);
    var w0 := w.(client := w.client.(phase := phase));
    ReachableStep(c, w, w0, OnClient(PlanDelta(input.maxUidRead)));
    var w1 := w0.(server := s2);
    MovingReaches(c, w0, s2, Some(w.client.folder.name));
    ReachableStep(c, w1, w1.(client := Down, seen := map[]), OnClient(Drop));
    if phase.Fetching? && input.envelopes.Some? && input.envelopes.value.IsOk() {
      var data := input.envelopes.value.data;
      var batch := BatchOf(id, data, input.clock);
      var w2 := w1.(client := w.client.(phase := if batch == [] then Flags else Ingesting(batch)));
      ReachableStep(c, w1, w2, OnClient(FetchEnvelopes(data, input.clock)));
      if batch != [] && input.ingestOk {
        ReachableStep(c, w2, w2.(mail := Ingest(w.mail, batch), client := w.client.(phase := Flags)),
                      OnClient(IngestAll));
      }
    }
  }

  lemma FlagsReach(c: Config, w: World, input: PassInput)
    requires Reachable(c, w) && At(w, Flags)
    ensures Reachable(c,
                      w.(mail := AfterFlags(w.mail, c, w.client.folder, w.client.info, input).mail,
                         client := Sweeping(w.client.todo)))
  {
    var w1 := w.(mail := AfterFlags(w.mail, c, w.client.folder, w.client.info, input).mail,
                 client := w.client.(phase := PrefetchList));
    if w1.mail == w.mail {
      ReachableStep(c, w, w1, OnClient(LeaveFlags));
    } else {
      ReachableStep(c, w, w1, OnClient(WriteFlagCursor));
    }
    var w2 := w1.(client := w.client.(phase := Prefetching([])));
    ReachableStep(c, w1, w2, OnClient(ListPrefetch(false)));
    ReachableStep(c, w2, w2.(client := Sweeping(w.client.todo)), OnClient(FinishFolder));
  }

  function SeenAfter(seen: map<nat, SelectInfo>, folder: FolderRow, input: PassInput): map<nat, SelectInfo> {
    if input.select.Some? && input.select.value.IsOk() then seen[folder.id := InfoOf(input.select.value)] else seen
  }

  /** The world after a pass: the next folder is due, or the connection is gone. */
  function AfterPass(c: Config, w: World, input: PassInput, s: Server): World
    requires w.client.Sweeping? && w.client.todo != []
  {
    var folder := w.client.todo[0];
    var r := Pass(w.mail, c, folder, input);
    if r.ok then World(s, r.mail, Sweeping(w.client.todo[1..]), SeenAfter(w.seen, folder, input))
    else World(s, r.mail, Down, map[])
  }

  /**
   A pass against a conforming server that changes meanwhile is a path of the
   protocol: it ends in a reachable state with the store as the pass leaves it.
   */
  lemma PassReaches(c: Config, w: World, input: PassInput, s1: Server, s2: Server)
    requires Reachable(c, w) && w.client.Sweeping? && w.client.todo != []
    requires ServerMoves(w.server, s1, None) && ServerMoves(s1, s2, Some(w.client.todo[0].name))
    requires Conforms(w.mail, c, w.client.todo[0], input, s1, s2)
    ensures Reachable(c, AfterPass(c, w, input, s2))
  {
    var folder, todo := w.client.todo[0], w.client.todo[1..];
    MovingReaches(c, w, s1, None);
    var w0 := w.(server := s1);
    if input.select.None? {
      ReachableStep(c, w0, w0.(client := Down, seen := map[]), OnClient(Drop));
      RestOfMove(c, AfterPass(c, w, input, s1), s2, folder.name);
    } else if !input.select.value.IsOk() {
      ReachableStep(c, w0, w0.(client := Sweeping(todo)), OnClient(SelectRefused));
      RestOfMove(c, AfterPass(c, w, input, s1), s2, folder.name);
    } else {
      var info := InfoOf(input.select.value);
      var w1 := World(s1, w.mail, InFolder(folder, info, Reconcile, todo), w.seen[folder.id := info]);
      ReachableStep(c, w0, w1, OnClient(SelectOk(input.select.value)));
      SelectedReaches(c, w1, input, s2);
    }
  }

  /** What follows an OK SELECT. */
  lemma SelectedReaches(c: Config, w: World, input: PassInput, s2: Server)
    requires Reachable(c, w) && At(w, Reconcile) && FailsOnlyWhere(c, input.writes)
    requires ServerMoves(w.server, s2, Some(w.client.folder.name)) && w.client.folder.name in s2
    requires var folder, info := w.client.folder, w.client.info;
             var reconciled := AfterReconcile(w.mail, c, folder, info, input.writes).mail;
             var phase := DeltaPhase(reconciled.messages, folder.id, info, input.maxUidRead);
             phase.Fetching? && IsAnswered(input.envelopes) ==>
               FetchAnswer(s2[folder.name], phase.start, NextBound(info.uidNext), input.envelopes.value.data)
    ensures var folder, info := w.client.folder, w.client.info;
            var delta := AfterDelta(w.mail, c, folder, info, input);
            if delta.ok then
              Reachable(c, World(s2, AfterFlags(delta.mail, c, folder, info, input).mail, Sweeping(w.client.todo),
                                 w.seen))
            else Reachable(c, World(s2, delta.mail, Down, map[]))
  {
    var folder, info := w.client.folder, w.client.info;
    ReconcileReaches(c, w, input.writes);
    var w2 := w.(mail := AfterReconcile(w.mail, c, folder, info, input.writes).mail,
                 client := w.client.(phase := Delta));
    FetchReaches(c, w2, s2, input);
    var r := AfterFetch(w2.mail, c, folder.id, info, input);
    if r.ok {
      FlagsReach(c, World(s2, r.mail, w2.client.(phase := Flags), w2.seen), input);
    }
  }

  lemma RestOfMove(c: Config, w: World, s2: Server, name: string)
    requires Reachable(c, w) && !w.client.InFolder? && ServerMoves(w.server, s2, Some(name))
    ensures Reachable(c, w.(server := s2))
  {
    UnpinnedMoves(w.server, s2, Some(name));
    MovingReaches(c, w, s2, None);
  }

  /** So whatever a pass of the engine leaves in the store is safe. */
  lemma PassIsSafe(c: Config, w: World, input: PassInput, s1: Server, s2: Server)
    requires KeepsEpoch(c) && Reachable(c, w) && w.client.Sweeping? && w.client.todo != []
    requires ServerMoves(w.server, s1, None) && ServerMoves(s1, s2, Some(w.client.todo[0].name))
    requires Conforms(w.mail, c, w.client.todo[0], input, s1, s2)
    ensures EpochPure(AfterPass(c, w, input, s2)) && NoGaps(AfterPass(c, w, input, s2))
  {
    PassReaches(c, w, input, s1, s2);
    var ws, steps :| IsRun(c, ws, steps) && ws[|steps|] == AfterPass(c, w, input, s2);
    RunsAreSafe(c, ws, steps);
  }

  // ----- A whole sweep -----

  /** One visit of a sweep: the answers of the pass and the server's states while it runs. */
  datatype Visit = Visit(input: PassInput, s1: Server, s2: Server)

  /** Every visit conforms and ends well; `w` is the world before the first one. */
  ghost predicate CleanSweep(c: Config, w: World, visits: seq<Visit>)
    decreases |visits|
  {
    && w.client.Sweeping? && |visits| == |w.client.todo|
    && (visits != [] ==>
          var v := visits[0];
          && ServerMoves(w.server, v.s1, None) && ServerMoves(v.s1, v.s2, Some(w.client.todo[0].name))
          && Conforms(w.mail, c, w.client.todo[0], v.input, v.s1, v.s2)
          && Pass(w.mail, c, w.client.todo[0], v.input).ok
          && CleanSweep(c, AfterPass(c, w, v.input, v.s2), visits[1..]))
  }

  function SweepEnd(c: Config, w: World, visits: seq<Visit>): World
    decreases |visits|
  {
    if visits == [] || !w.client.Sweeping? || w.client.todo == [] then w
    else SweepEnd(c, AfterPass(c, w, visits[0].input, visits[0].s2), visits[1..])
  }

  lemma {:induction false} SweepReaches(c: Config, w: World, visits: seq<Visit>)
    requires Reachable(c, w) && CleanSweep(c, w, visits)
    ensures Reachable(c, SweepEnd(c, w, visits)) && SweepEnd(c, w, visits).client == Sweeping([])
    decreases |visits|
  {
    if visits != [] {
      var v := visits[0];
      PassReaches(c, w, v.input, v.s1, v.s2);
      SweepReaches(c, AfterPass(c, w, v.input, v.s2), visits[1..]);
    }
  }

  lemma UnpinnedMoves(s: Server, s': Server, pinned: Option<string>)
    requires ServerMoves(s, s', pinned)
    ensures ServerMoves(s, s', None)
  {
    var ss, steps :| Drifts(ss, steps, pinned) && ss[0] == s && ss[|steps|] == s';
    assert Drifts(ss, steps, None);
  }

  /**
   Convergence of the engine: when a sweep of passes goes through, every folder
   whose SELECT was OK stores all that is still live below the UIDNEXT it reported,
   and carries the cursors it reported.
   */
  lemma SweepConverges(c: Config, w: World, visits: seq<Visit>)
    requires KeepsEpoch(c) && Reachable(c, w) && CleanSweep(c, w, visits)
    ensures var end := SweepEnd(c, w, visits).(client := AtRest);
            Reachable(c, end) && ConvergedAtRest(end) && CursorsAtRest(end) && EpochPure(end) && NoGaps(end)
  {
    SweepReaches(c, w, visits);
    var end := SweepEnd(c, w, visits).(client := AtRest);
    ReachableStep(c, SweepEnd(c, w, visits), end, OnClient(FinishSweep));
    var ws, steps :| IsRun(c, ws, steps) && ws[|steps|] == end;
    RunsAreSafe(c, ws, steps);
  }

  // ----- Events replay to counts -----

  /** The number of messages of a folder as a reader of the event bus reckons it. */
  function Replay(events: seq<EngineEvent>, folder: nat, count: int): int {
    if events == [] then count
    else
      var before := Replay(events[..|events| - 1], folder, count);
      match events[|events| - 1]
      case MailArrived(_, f, arrived, _, _) => if f == folder then before + arrived else before
      case MessagesChanged(f, _, removed) => if f == folder then before - removed else before
      case FlagsChanged(_) => before
  }

  lemma {:induction false} ReplayAppend(first: seq<EngineEvent>, second: seq<EngineEvent>, folder: nat, count: int)
    ensures Replay(first + second, folder, count) == Replay(second, folder, Replay(first, folder, count))
  {
    if second == [] {
      assert first + second == first;
    } else {
      ReplayAppend(first, second[..|second| - 1], folder, count);
      assert (first + second)[..|first + second| - 1] == first + second[..|second| - 1];
    }
  }

  ghost predicate NoneStored(mail: Mail, batch: seq<IngestMessage>) {
    forall m :: m in batch ==> !Stored(mail.messages, m.folder, m.uid)
  }

  predicate SameKey(a: IngestMessage, b: IngestMessage) {
    a.folder == b.folder && a.uid == b.uid
  }

  ghost predicate DistinctKeys(batch: seq<IngestMessage>) {
    forall i, j :: 0 <= i < j < |batch| ==> !SameKey(batch[i], batch[j])
  }

  lemma {:induction false} FullInsertIsFresh(mail: Mail, batch: seq<IngestMessage>)
    requires Stats(mail, batch).inserted == |batch|
    ensures NoneStored(mail, batch) && DistinctKeys(batch)
  {
    if batch != [] {
      var init, last := batch[..|batch| - 1], batch[|batch| - 1];
      FullInsertIsFresh(mail, init);
      IngestLookup(mail, init, last.folder, last.uid);
      assert LastFor(init, last.folder, last.uid).None?;
      forall i | 0 <= i < |init|
        ensures !SameKey(batch[i], last)
      {
        assert init[i] in init;
      }
      assert forall m :: m in batch <==> m in init || m == last;
    }
  }

  /** The batch is inserted whole exactly when its keys are pairwise different and none is stored. */
  lemma InsertsAllExactlyWhenFresh(mail: Mail, batch: seq<IngestMessage>)
    ensures Stats(mail, batch).inserted == |batch| <==> NoneStored(mail, batch) && DistinctKeys(batch)
  {
    if Stats(mail, batch).inserted == |batch| {
      FullInsertIsFresh(mail, batch);
    } else if NoneStored(mail, batch) && DistinctKeys(batch) {
      assert forall i, j :: 0 <= i < j < |batch| ==> !SameKey(batch[i], batch[j]);
      FreshBatchInsertsAll(mail, batch);
    }
  }

  /** The largest stored UID was read and the server sent one envelope per UID of the range it was asked for. */
  ghost predicate CleanFetch(mail: Mail, c: Config, folder: FolderRow, input: PassInput) {
    && input.maxUidRead
    && (input.select.Some? && input.select.value.IsOk() && input.envelopes.Some? ==>
          var info := InfoOf(input.select.value);
          var start := DeltaPhase(AfterReconcile(mail, c, folder, info, input.writes).mail.messages, folder.id, info,
                                  true);
          var batch := BatchOf(folder.id, input.envelopes.value.data, input.clock);
          start.Fetching? ==>
            && (forall m :: m in batch ==> start.start <= m.uid)
            && (forall i, j :: 0 <= i < j < |batch| ==> batch[i].uid != batch[j].uid))
  }

  /** At most 2^32 - 1 pairwise different UIDs lie in 1..2^32 - 1. */
  lemma {:induction false} DistinctBound(batch: seq<IngestMessage>, bound: nat)
    requires forall i, j :: 0 <= i < j < |batch| ==> batch[i].uid != batch[j].uid
    requires forall m :: m in batch ==> 1 <= m.uid <= bound
    ensures |batch| <= bound
  {
    if batch != [] {
      if k :| 0 <= k < |batch| && batch[k].uid == bound {
        var rest := batch[..k] + batch[k + 1..];
        forall m | m in rest
          ensures 1 <= m.uid <= bound - 1
        {
          var i :| 0 <= i < |rest| && rest[i] == m;
          var j := if i < k then i else i + 1;
          assert batch[j] == m && batch[j] in batch;
        }
        DistinctBound(rest, bound - 1);
      } else {
        assert batch[0] in batch;
        DistinctBound(batch, bound - 1);
      }
    }
  }

  /** UID 0 is never given out. */
  ghost predicate Positive(mail: Mail) {
    forall m :: m in mail.messages ==> m.uid > 0
  }

  lemma {:induction false} IngestKeepsPositive(mail: Mail, batch: seq<IngestMessage>)
    requires Positive(mail) && forall m :: m in batch ==> m.uid > 0
    ensures Positive(Ingest(mail, batch))
  {
    if batch != [] {
      IngestKeepsPositive(mail, batch[..|batch| - 1]);
    }
  }

  lemma ReconcileKeepsPositive(mail: Mail, c: Config, folder: FolderRow, info: SelectInfo, writes: Writes)
    requires Positive(mail)
    ensures Positive(AfterReconcile(mail, c, folder, info, writes).mail)
  {
    var at := WithoutIsSubsequence(mail.messages, folder.id);
  }

  lemma DeltaKeepsPositive(mail: Mail, c: Config, folder: FolderRow, info: SelectInfo, input: PassInput)
    requires Positive(mail)
    ensures Positive(AfterDelta(mail, c, folder, info, input).mail)
  {
    ReconcileKeepsPositive(mail, c, folder, info, input.writes);
    if input.envelopes.Some? {
      var of := BatchIsSubsequence(folder.id, input.envelopes.value.data, input.clock);
      IngestKeepsPositive(AfterReconcile(mail, c, folder, info, input.writes).mail,
                          BatchOf(folder.id, input.envelopes.value.data, input.clock));
    }
  }

  lemma PassKeepsPositive(mail: Mail, c: Config, folder: FolderRow, input: PassInput)
    requires Positive(mail)
    ensures Positive(Pass(mail, c, folder, input).mail)
  {
    if input.select.Some? {
      DeltaKeepsPositive(mail, c, folder, InfoOf(input.select.value), input);
    }
  }

  /** So a folder of a well-formed store holds fewer than 2^32 messages. */
  lemma CountBound(mail: Mail, folder: nat)
    requires WellFormed(mail) && Positive(mail)
    ensures Count(mail.messages, folder) <= U32_MAX
  {
    var at := OfFolderIsSubsequence(mail.messages, folder);
    var ms := OfFolder(mail.messages, folder);
    var batch := seq(|ms|, i requires 0 <= i < |ms| => BodyMessage(folder, ms[i], "", 0));
    forall i, j | 0 <= i < j < |batch|
      ensures batch[i].uid != batch[j].uid
    {
      assert !Keyed(mail.messages[at[j]], mail.messages[at[i]].folder, mail.messages[at[i]].uid);
    }
    forall m | m in batch
      ensures 1 <= m.uid
    {
      var i :| 0 <= i < |batch| && batch[i] == m;
      assert mail.messages[at[i]] in mail.messages;
    }
    DistinctBound(batch, U32_MAX);
  }

  lemma CursorsKeepMessages(mail: Mail, literal: bool, id: nat, v: U32, q: Option<U64>)
    ensures UpdateCursors(mail, literal, id, v, q).messages == mail.messages
  {
  }

  lemma ReconcileReplays(mail: Mail, c: Config, folder: FolderRow, info: SelectInfo, writes: Writes, f: nat)
    requires Count(mail.messages, folder.id) <= U32_MAX
    ensures var r := AfterReconcile(mail, c, folder, info, writes);
            Count(r.mail.messages, f) == Replay(r.events, f, Count(mail.messages, f))
  {
    PurgeCount(mail.messages, folder.id, f);
    var r := AfterReconcile(mail, c, folder, info, writes);
    assert r.events != [] ==> r.events[..0] == [];
  }

  /** A batch of new messages is announced with its size, which is what the count grows by. */
  lemma ArrivalReplays(mail: Mail, batch: seq<IngestMessage>, e: EngineEvent, folder: nat, f: nat)
    requires forall m :: m in batch ==> m.folder == folder && !Stored(mail.messages, m.folder, m.uid) && 1 <= m.uid
    requires forall i, j :: 0 <= i < j < |batch| ==> batch[i].uid != batch[j].uid
    requires e.MailArrived? && e.folder == folder && e.arrived == Saturate(|batch|)
    ensures e.arrived == |batch| == Stats(mail, batch).inserted
    ensures Replay([e], f, Count(mail.messages, f)) == Count(Ingest(mail, batch).messages, f)
  {
    InsertsAllExactlyWhenFresh(mail, batch);
    DistinctBound(batch, U32_MAX);
    IngestCount(mail, batch, folder, f);
    assert [e][..0] == [];
  }

  /** The envelopes taken in are new, one for each UID. */
  ghost predicate NewEnvelopes(mail: Mail, folder: nat, info: SelectInfo, input: PassInput) {
    var phase := DeltaPhase(mail.messages, folder, info, true);
    phase.Fetching? && input.envelopes.Some? ==>
      var batch := BatchOf(folder, input.envelopes.value.data, input.clock);
      && (forall m :: m in batch ==> phase.start <= m.uid)
      && (forall i, j :: 0 <= i < j < |batch| ==> batch[i].uid != batch[j].uid)
  }

  lemma NewBatch(mail: Mail, folder: nat, info: SelectInfo, input: PassInput, m: IngestMessage)
    requires DeltaPhase(mail.messages, folder, info, true).Fetching? && input.envelopes.Some?
    requires NewEnvelopes(mail, folder, info, input) && m in BatchOf(folder, input.envelopes.value.data, input.clock)
    ensures m.folder == folder && !Stored(mail.messages, m.folder, m.uid) && 1 <= m.uid
  {
    var at := BatchIsSubsequence(folder, input.envelopes.value.data, input.clock);
    MaxUidIsMaximum(mail.messages, folder);
  }

  /** Where ingestion takes place, and what it amounts to. */
  lemma FetchIngests(mail: Mail, c: Config, folder: nat, info: SelectInfo, input: PassInput)
    ensures var r := AfterFetch(mail, c, folder, info, input);
            || (r.mail == mail && r.events == [])
            || (DeltaPhase(mail.messages, folder, info, input.maxUidRead).Fetching? && input.envelopes.Some?
                && var batch := BatchOf(folder, input.envelopes.value.data, input.clock);
                   && r.mail == Ingest(mail, batch)
                   && r.events == if Stats(mail, batch).inserted > 0 then
                                    [Arrival(r.mail, c.account, folder, |batch|, input.summariesRead)]
                                  else [])
  {
  }

  lemma FetchReplays(mail: Mail, c: Config, folder: nat, info: SelectInfo, input: PassInput, f: nat)
    requires input.maxUidRead && NewEnvelopes(mail, folder, info, input)
    ensures var r := AfterFetch(mail, c, folder, info, input);
            Count(r.mail.messages, f) == Replay(r.events, f, Count(mail.messages, f))
  {
    FetchIngests(mail, c, folder, info, input);
    var r := AfterFetch(mail, c, folder, info, input);
    if r.mail != mail || r.events != [] {
      var batch := BatchOf(folder, input.envelopes.value.data, input.clock);
      forall m | m in batch
        ensures m.folder == folder && !Stored(mail.messages, m.folder, m.uid) && 1 <= m.uid
      {
        NewBatch(mail, folder, info, input, m);
      }
      ArrivalReplays(mail, batch, Arrival(r.mail, c.account, folder, |batch|, input.summariesRead), folder, f);
      IngestCount(mail, batch, folder, f);
    }
  }

  lemma DeltaReplays(mail: Mail, c: Config, folder: FolderRow, info: SelectInfo, input: PassInput, f: nat)
    requires input.select.Some? && input.select.value.IsOk() && info == InfoOf(input.select.value)
    requires CleanFetch(mail, c, folder, input) && Count(mail.messages, folder.id) <= U32_MAX
    ensures var r := AfterDelta(mail, c, folder, info, input);
            Count(r.mail.messages, f) == Replay(r.events, f, Count(mail.messages, f))
  {
    var reconciled := AfterReconcile(mail, c, folder, info, input.writes);
    ReconcileReplays(mail, c, folder, info, input.writes, f);
    FetchReplays(reconciled.mail, c, folder.id, info, input, f);
    ReplayAppend(reconciled.events, AfterFetch(reconciled.mail, c, folder.id, info, input).events, f,
                 Count(mail.messages, f));
  }

  lemma FlagsReplay(mail: Mail, c: Config, folder: FolderRow, info: SelectInfo, input: PassInput, f: nat, count: int)
    ensures var r := AfterFlags(mail, c, folder, info, input);
            Count(r.mail.messages, f) == Count(mail.messages, f) && Replay(r.events, f, count) == count
  {
    var r := AfterFlags(mail, c, folder, info, input);
    CursorsKeepMessages(mail, c.literalZero, folder.id, 0, Some(info.highestModseq));
    assert r.events != [] ==> r.events[..0] == [];
  }

  /** For every folder, the events of a clean pass turn its old count into its new one. */
  lemma PassReplays(mail: Mail, c: Config, folder: FolderRow, input: PassInput, f: nat)
    requires WellFormed(mail) && Positive(mail) && CleanFetch(mail, c, folder, input)
    ensures var r := Pass(mail, c, folder, input);
            Count(r.mail.messages, f) == Replay(r.events, f, Count(mail.messages, f))
  {
    CountBound(mail, folder.id);
    if input.select.Some? && input.select.value.IsOk() {
      var info, count := InfoOf(input.select.value), Count(mail.messages, f);
      var fetched := AfterDelta(mail, c, folder, info, input);
      DeltaReplays(mail, c, folder, info, input, f);
      FlagsReplay(fetched.mail, c, folder, info, input, f, Count(fetched.mail.messages, f));
      ReplayAppend(fetched.events, AfterFlags(fetched.mail, c, folder, info, input).events, f, count);
    }
  }

  /** Passes one after the other, over any folders, whether they end well or not. */
  function Passes(mail: Mail, c: Config, run: seq<(FolderRow, PassInput)>): PassResult {
    if run == [] then PassResult(mail, [], true)
    else
      var before, last := Passes(mail, c, run[..|run| - 1]), run[|run| - 1];
      Then(before, Pass(before.mail, c, last.0, last.1))
  }

  ghost predicate CleanRun(mail: Mail, c: Config, run: seq<(FolderRow, PassInput)>) {
    forall i :: 0 <= i < |run| ==> CleanFetch(Passes(mail, c, run[..i]).mail, c, run[i].0, run[i].1)
  }

  /**
   Exact arrival accounting: over any run of clean passes, a reader who adds up
   `MailArrived` and takes off `MessagesChanged` knows the count of every folder.
   */
  lemma {:induction false} RunReplays(mail: Mail, c: Config, run: seq<(FolderRow, PassInput)>, f: nat)
    requires WellFormed(mail) && Positive(mail) && CleanRun(mail, c, run)
    ensures WellFormed(Passes(mail, c, run).mail) && Positive(Passes(mail, c, run).mail)
    ensures var r := Passes(mail, c, run);
            Count(r.mail.messages, f) == Replay(r.events, f, Count(mail.messages, f))
  {
    if run != [] {
      var init, last := run[..|run| - 1], run[|run| - 1];
      forall i | 0 <= i < |init|
        ensures init[..i] == run[..i] && init[i] == run[i]
      {
      }
      assert CleanRun(mail, c, init);
      RunReplays(mail, c, init, f);
      var before := Passes(mail, c, init);
      assert CleanFetch(before.mail, c, run[|run| - 1].0, run[|run| - 1].1);
      PassReplays(before.mail, c, last.0, last.1, f);
      PassKeepsWellFormed(before.mail, c, last.0, last.1);
      PassKeepsPositive(before.mail, c, last.0, last.1);
      ReplayAppend(before.events, Pass(before.mail, c, last.0, last.1).events, f, Count(mail.messages, f));
    }
  }
}
