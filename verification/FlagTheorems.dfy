/**
 Flag changes: which of them a pass announces, which it loses, and why a change
 that is lost once is lost for good.
 */
module FlagTheorems {
  import opened Wrappers
  import opened Store
  import opened Wire
  import opened FolderProtocol
  import opened FolderInvariant
  import opened FolderSafety
  import opened FolderRuns
  import opened SyncPass
  import opened PassTheorems

  /** The answer to CHANGEDSINCE: strictly newer mod-sequences, as section 3.1.4.1 of RFC 7162 has it. */
  ghost predicate ChangedSinceAnswer(mb: Mailbox, since: U64, data: seq<Data>) {
    forall u: U32 :: u in FlagUids(data) <==> u in mb.live && mb.live[u] > since
  }

  /** The value the flag pass sends for a folder listed with cursor `modseq`. */
  function SinceFor(modseq: U64): U64 {
    if modseq == U64_MAX then U64_MAX else modseq + 1
  }

  /** The flag fetch, if it is answered, is answered for the mailbox `mb`. */
  ghost predicate FlagsConform(mb: Mailbox, folder: FolderRow, input: PassInput) {
    input.flags.Some? && input.flags.value.IsOk() ==>
      ChangedSinceAnswer(mb, SinceFor(folder.highestModseq), input.flags.value.data)
  }

  lemma {:induction false} IdsOfMembers(ms: seq<Message>, folder: nat, uids: seq<U32>, lookupRead: U32 -> bool, id: nat)
    ensures id in IdsOf(ms, folder, uids, lookupRead) <==>
              exists u :: u in uids && lookupRead(u) && Stored(ms, folder, u) && Lookup(ms, folder, u).value.id == id
  {
    if uids != [] {
      IdsOfMembers(ms, folder, uids[..|uids| - 1], lookupRead, id);
      assert forall u :: u in uids <==> u in uids[..|uids| - 1] || u == uids[|uids| - 1];
    }
  }

  /** The messages announced as changed. */
  predicate Announced(events: seq<EngineEvent>, id: nat) {
    exists e :: e in events && e.FlagsChanged? && id in e.messages
  }

  // ----- What a pass announces -----

  /** An answered flag fetch names exactly the stored messages above the listed cursor plus one. */
  lemma FlagsChangedExactly(mail: Mail, folder: FolderRow, input: PassInput, mb: Mailbox, m: Message)
    requires WellFormed(mail) && m in mail.messages
    requires input.flags.Some? && input.flags.value.IsOk() && FlagsConform(mb, folder, input)
    ensures m.id in IdsOf(mail.messages, folder.id, FlagUids(input.flags.value.data), input.lookupRead) <==>
              m.folder == folder.id && input.lookupRead(m.uid) && m.uid in mb.live
                && mb.live[m.uid] > folder.highestModseq + 1
  {
    var uids := FlagUids(input.flags.value.data);
    IdsOfMembers(mail.messages, folder.id, uids, input.lookupRead, m.id);
    LookupIsMembership(mail, m);
    forall u: U32 | Stored(mail.messages, folder.id, u) && Lookup(mail.messages, folder.id, u).value.id == m.id
      ensures m.folder == folder.id && m.uid == u
    {
      var i := FindMessage(mail.messages, folder.id, u);
      var k :| 0 <= k < |mail.messages| && mail.messages[k] == m;
      assert mail.messages[i].id == mail.messages[k].id;
    }
  }

  /** There is nothing to fetch, or the envelopes came and what they listed was ingested. */
  predicate EnvelopesThrough(ms: seq<Message>, folder: FolderRow, input: PassInput)
    requires IsAnswered(input.select)
  {
    Planned(ms, folder, input).Fetching? ==>
      && IsAnswered(input.envelopes)
      && (input.ingestOk || BatchOf(folder.id, input.envelopes.value.data, input.clock) == [])
  }

  /** The flag fetch of the pass is asked for, and answered. */
  predicate FlagsFetched(mail: Mail, c: Config, folder: FolderRow, input: PassInput) {
    && IsAnswered(input.select) && EnvelopesThrough(mail.messages, folder, input)
    && c.condstore && folder.highestModseq > 0
    && IsAnswered(input.flags)
  }

  lemma ThroughExactlyWhen(mail: Mail, c: Config, folder: FolderRow, input: PassInput)
    requires IsAnswered(input.select)
    ensures AfterDelta(mail, c, folder, InfoOf(input.select.value), input).ok <==>
              EnvelopesThrough(mail.messages, folder, input)
  {
    var info := InfoOf(input.select.value);
    var reconciled := AfterReconcile(mail, c, folder, info, input.writes).mail;
    assert reconciled.messages == Kept(mail.messages, folder, input);
    FetchThrough(reconciled, c, folder.id, info, input);
  }

  lemma FetchThrough(mail: Mail, c: Config, folder: nat, info: SelectInfo, input: PassInput)
    ensures AfterFetch(mail, c, folder, info, input).ok <==>
              (DeltaPhase(mail.messages, folder, info, input.maxUidRead).Fetching? ==>
                 && IsAnswered(input.envelopes)
                 && (input.ingestOk || BatchOf(folder, input.envelopes.value.data, input.clock) == []))
  {
  }

  /** What is stored when the flag pass begins, or would begin. */
  function AtFlags(mail: Mail, c: Config, folder: FolderRow, input: PassInput): Mail {
    if input.select.Some? && input.select.value.IsOk() then
      AfterDelta(mail, c, folder, InfoOf(input.select.value), input).mail
    else mail
  }

  lemma OnlyFlagPassAnnounces(mail: Mail, c: Config, folder: FolderRow, input: PassInput, id: nat)
    ensures Announced(Pass(mail, c, folder, input).events, id) <==>
              && FlagsFetched(mail, c, folder, input)
              && id in IdsOf(AtFlags(mail, c, folder, input).messages, folder.id, FlagUids(input.flags.value.data),
                             input.lookupRead)
  {
    if IsAnswered(input.select) {
      var info := InfoOf(input.select.value);
      var delta := AfterDelta(mail, c, folder, info, input);
      ThroughExactlyWhen(mail, c, folder, input);
      DeltaAnnouncesNothing(mail, c, folder, info, input, id);
      if delta.ok {
        FlagEvents(delta.mail, c, folder, info, input, id);
        var flags := AfterFlags(delta.mail, c, folder, info, input);
        assert Pass(mail, c, folder, input).events == delta.events + flags.events;
        AnnouncedInParts(delta.events, flags.events, id);
      }
    }
  }

  lemma AnnouncedInParts(a: seq<EngineEvent>, b: seq<EngineEvent>, id: nat)
    ensures Announced(a + b, id) <==> Announced(a, id) || Announced(b, id)
  {
    assert forall e :: e in a + b <==> e in a || e in b;
  }

  lemma DeltaAnnouncesNothing(mail: Mail, c: Config, folder: FolderRow, info: SelectInfo, input: PassInput, id: nat)
    ensures !Announced(AfterDelta(mail, c, folder, info, input).events, id)
  {
    var reconciled := AfterReconcile(mail, c, folder, info, input.writes);
    assert forall e :: e in reconciled.events ==> e.MessagesChanged?;
    FetchAnnouncesNothing(reconciled.mail, c, folder.id, info, input);
  }

  lemma FetchAnnouncesNothing(mail: Mail, c: Config, folder: nat, info: SelectInfo, input: PassInput)
    ensures forall e :: e in AfterFetch(mail, c, folder, info, input).events ==> e.MailArrived?
  {
  }

  lemma FlagEvents(mail: Mail, c: Config, folder: FolderRow, info: SelectInfo, input: PassInput, id: nat)
    ensures Announced(AfterFlags(mail, c, folder, info, input).events, id) <==>
              && c.condstore && folder.highestModseq > 0 && input.flags.Some? && input.flags.value.IsOk()
              && id in IdsOf(mail.messages, folder.id, FlagUids(input.flags.value.data), input.lookupRead)
  {
    if c.condstore && folder.highestModseq > 0 && input.flags.Some? && input.flags.value.IsOk() {
      var ids := IdsOf(mail.messages, folder.id, FlagUids(input.flags.value.data), input.lookupRead);
      if id in ids {
        assert FlagsChanged(ids) in AfterFlags(mail, c, folder, info, input).events;
      }
    }
  }

  /**
   Which changes a pass announces, for any outcome of any of its calls: exactly when
   the server has CONDSTORE, the folder was listed with a cursor, the envelopes came
   through, the flag fetch was answered, the message could be looked up, and its
   mod-sequence lies above the cursor plus one.
   */
  lemma ChangeAnnouncedExactlyWhen(mail: Mail, c: Config, folder: FolderRow, input: PassInput, mb: Mailbox, m: Message)
    requires WellFormed(mail) && FlagsConform(mb, folder, input)
    requires m in AtFlags(mail, c, folder, input).messages && m.folder == folder.id
    ensures Announced(Pass(mail, c, folder, input).events, m.id) <==>
              && FlagsFetched(mail, c, folder, input) && input.lookupRead(m.uid)
              && m.uid in mb.live && mb.live[m.uid] > folder.highestModseq + 1
  {
    OnlyFlagPassAnnounces(mail, c, folder, input, m.id);
    if FlagsFetched(mail, c, folder, input) {
      DeltaKeepsWellFormed(mail, c, folder, InfoOf(input.select.value), input);
      FlagsChangedExactly(AtFlags(mail, c, folder, input), folder, input, mb, m);
    }
  }

  // ----- What a pass loses -----

  /**
   Whatever becomes of the rest of the pass, an answered SELECT moves the cursor to
   the HIGHESTMODSEQ it reported, so all changes up to there count as seen.
   */
  lemma PassSetsCursor(mail: Mail, c: Config, folder: FolderRow, input: PassInput)
    requires input.select.Some? && input.select.value.IsOk() && RowOf(mail.folders, folder.id).Some?
    requires InfoOf(input.select.value).uidValidity != 0 && input.writes.cursors
    ensures var info, row := InfoOf(input.select.value), RowOf(Pass(mail, c, folder, input).mail.folders, folder.id);
            && row.Some? && row.value.highestModseq == info.highestModseq
            && (row.value.uidValidity == info.uidValidity
                || (c.literalZero && c.condstore && row.value.uidValidity == 0))
  {
    var info := InfoOf(input.select.value);
    ReconcileSetsCursor(mail, c, folder, info, input.writes);
    var reconciled := AfterReconcile(mail, c, folder, info, input.writes).mail;
    FetchKeepsFolders(reconciled, c, folder.id, info, input);
    var delta := AfterDelta(mail, c, folder, info, input);
    CursorRow(delta.mail, c.literalZero, folder.id, 0, Some(info.highestModseq), folder.id);
  }

  lemma ReconcileSetsCursor(mail: Mail, c: Config, folder: FolderRow, info: SelectInfo, writes: Writes)
    requires RowOf(mail.folders, folder.id).Some? && info.uidValidity != 0 && writes.cursors
    ensures var row := RowOf(AfterReconcile(mail, c, folder, info, writes).mail.folders, folder.id);
            row.Some? && row.value.uidValidity == info.uidValidity && row.value.highestModseq == info.highestModseq
  {
    var purged := if EpochChanged(folder, info) && writes.purge then Purge(mail, folder.id) else mail;
    CursorRow(purged, c.literalZero, folder.id, info.uidValidity, Some(0), folder.id);
    var zeroed := TryCursors(purged, c, folder.id, info.uidValidity, 0,
                             EpochChanged(folder, info) && writes.zeroModseq);
    CursorRow(zeroed, c.literalZero, folder.id, info.uidValidity, Some(info.highestModseq), folder.id);
  }

  lemma FetchKeepsFolders(mail: Mail, c: Config, folder: nat, info: SelectInfo, input: PassInput)
    ensures AfterFetch(mail, c, folder, info, input).mail.folders == mail.folders
  {
    if input.envelopes.Some? {
      IngestKeepsFolders(mail, BatchOf(folder, input.envelopes.value.data, input.clock));
    }
  }

  /**
   Lost for good: a change that one pass has moved the cursor past is announced by
   no later pass of the epoch, however many passes lie between and whatever is cut
   off. So a change it did not announce itself is never announced.
   */
  lemma LostForGood(c: Config, w: World, input: PassInput, s1: Server, s2: Server, ws: seq<World>, steps: seq<Step>,
                    later: PassInput, mb: Mailbox, m: Message)
    requires KeepsEpoch(c) && c.sendsModseq && Reachable(c, w) && w.client.Sweeping? && w.client.todo != []
    requires ServerMoves(w.server, s1, None) && ServerMoves(s1, s2, Some(w.client.todo[0].name))
    requires Conforms(w.mail, c, w.client.todo[0], input, s1, s2) && input.select.Some? && input.select.value.IsOk()
    requires IsPath(c, ws, steps) && ws[0] == AfterPass(c, w, input, s2)
    requires ws[|steps|].client.Sweeping? && ws[|steps|].client.todo != []
    requires var next := ws[|steps|].client.todo[0];
             && next.id == w.client.todo[0].id && next.uidValidity == InfoOf(input.select.value).uidValidity
             && FlagsConform(mb, next, later)
             && m in AtFlags(ws[|steps|].mail, c, next, later).messages && m.folder == next.id
    requires m.uid in mb.live && mb.live[m.uid] <= InfoOf(input.select.value).highestModseq
    ensures !Announced(Pass(ws[|steps|].mail, c, ws[|steps|].client.todo[0], later).events, m.id)
  {
    var folder, info, n := w.client.todo[0], InfoOf(input.select.value), |steps|;
    var next := ws[n].client.todo[0];
    ReachableInv(c, w);
    PassReaches(c, w, input, s1, s2);
    ReachableInv(c, ws[0]);
    PathKeepsInv(c, ws, steps, n);
    assert next in ws[n].client.todo && folder in w.client.todo;
    SelectedEpoch(w, c, folder, input, s1);
    PassSetsCursor(w.mail, c, folder, input);
    CursorsNeverFall(c, ws, steps, 0, n);
    ChangeAnnouncedExactlyWhen(ws[n].mail, c, next, later, mb, m);
  }

  /** A conforming SELECT reports a UIDVALIDITY. */
  lemma SelectedEpoch(w: World, c: Config, folder: FolderRow, input: PassInput, s1: Server)
    requires input.select.Some? && input.select.value.IsOk() && folder.name in s1
    requires c.sendsUidValidity && SelectAnswer(s1[folder.name], c, input.select.value)
    ensures InfoOf(input.select.value).uidValidity != 0
  {
    CodesAreSent(Statuses(input.select.value));
  }

  // ----- A change that is lost -----

  const BusyBox: Mailbox := Mailbox(1, 3, map[2 := 7], 7, map[(1, 2) := 10])

  /** SELECT is answered, but the flag fetch times out. */
  const UnansweredFlags: PassInput := PassInput(
    Some(Reply(Some(1), 3, Some(7))), Writes(true, true, true, true), true, None, Clock, true, true, None, _ => true,
        false,
    _ => NoBody)

  function WaitingWorld(c: Config): World {
    World(map[BOX := BusyBox], Holding(c, 1, 5), Sweeping([Row(c, 1, 5)]), map[])
  }

  lemma WaitingIsReachable(c: Config)
    ensures Reachable(c, WaitingWorld(c))
  {
    FirstPass(c);
    var mail, row := Holding(c, 1, 5), Row(c, 1, 5);
    var w0, w1 := Offline(OldBox, mail), Offline(BusyBox, mail);
    assert OldBox.live[2 := 7] == BusyBox.live;
    ReachableStep(c, w0, w1, OnServer(Reflag(BOX, 2, 7)));
    ReachableStep(c, w1, w1.(client := Hierarchy), OnClient(Connect));
    assert IsListing(mail, c.account, [row]);
    ReachableStep(c, w1.(client := Hierarchy), WaitingWorld(c), OnClient(ListRows([row])));
  }

  /**
   The input that shows it: in a reachable state a message has a change above the
   cursor plus one, the pass against the conforming server ends well but its flag
   fetch is not answered, nothing is announced, and the cursor has moved past it.
   */
  lemma TimeoutLosesChange(c: Config)
    requires c.condstore
    ensures var w, m := WaitingWorld(c), OldMessage;
            var folder := w.client.todo[0];
            var r := Pass(w.mail, c, folder, UnansweredFlags);
            && Reachable(c, w) && Conforms(w.mail, c, folder, UnansweredFlags, w.server, w.server)
            && m in w.mail.messages && w.server[BOX].live[m.uid] > folder.highestModseq + 1
            && r.ok && !Announced(r.events, m.id)
            && RowOf(r.mail.folders, folder.id).Some?
            && RowOf(r.mail.folders, folder.id).value.highestModseq == w.server[BOX].live[m.uid]
  {
    var w := WaitingWorld(c);
    var folder := w.client.todo[0];
    WaitingIsReachable(c);
    ReplyReads(Some(1), 3, Some(7));
    ReplyAnswers(c, BusyBox, Some(1), Some(7));
    NothingToFetch(c, w.mail, folder);
    OnlyFlagPassAnnounces(w.mail, c, folder, UnansweredFlags, 1);
    PassSetsCursor(w.mail, c, folder, UnansweredFlags);
  }

  /** The one message is stored, so there is nothing to fetch. */
  lemma NothingToFetch(c: Config, mail: Mail, folder: FolderRow)
    requires mail == Holding(c, 1, 5) && folder == Row(c, 1, 5)
    ensures InfoOf(Reply(Some(1), 3, Some(7))) == SelectInfo(1, 3, 7, 1)
    ensures var info := SelectInfo(1, 3, 7, 1);
            var reconciled := AfterReconcile(mail, c, folder, info, UnansweredFlags.writes).mail;
            DeltaPhase(reconciled.messages, 0, info, true) == Flags && Pass(mail, c, folder, UnansweredFlags).ok
  {
    ReplyReads(Some(1), 3, Some(7));
    assert MaxUid(mail.messages, 0) == Some(2) by {
      assert mail.messages[..0] == [];
    }
  }

  /** What the pass leaves behind: everything as it was, but for the cursor. */
  lemma TimeoutMovesCursorOnly(c: Config)
    requires c.condstore
    ensures Pass(Holding(c, 1, 5), c, Row(c, 1, 5), UnansweredFlags) == PassResult(Holding(c, 1, 7), [], true)
    ensures AfterPass(c, WaitingWorld(c), UnansweredFlags, WaitingWorld(c).server)
         == World(map[BOX := BusyBox], Holding(c, 1, 7), Sweeping([]), map[0 := SelectInfo(1, 3, 7, 1)])
  {
    NothingToFetch(c, Holding(c, 1, 5), Row(c, 1, 5));
    assert UpdateCursors(Holding(c, 1, 5), c.literalZero, 0, 1, Some(7)) == Holding(c, 1, 7);
    assert [Row(c, 1, 5)][1..] == [];
  }

  /** So in that run the next sweep, with every call answered, does not announce the change either. */
  lemma LostChangeStaysLost(c: Config, later: PassInput)
    requires KeepsEpoch(c) && c.sendsModseq && c.condstore && FlagsConform(BusyBox, Row(c, 1, 7), later)
    requires OldMessage in AtFlags(Holding(c, 1, 7), c, Row(c, 1, 7), later).messages
    ensures !Announced(Pass(Holding(c, 1, 7), c, Row(c, 1, 7), later).events, 1)
  {
    var w := WaitingWorld(c);
    TimeoutLosesChange(c);
    TimeoutMovesCursorOnly(c);
    ReplyReads(Some(1), 3, Some(7));
    var ws, steps := NextSweep(c);
    StaysPut(w.server, None);
    StaysPut(w.server, Some(BOX));
    LostForGood(c, w, UnansweredFlags, w.server, w.server, ws, steps, later, BusyBox, OldMessage);
  }

  /** The way to the next sweep. */
  lemma NextSweep(c: Config) returns (ws: seq<World>, steps: seq<Step>)
    ensures IsPath(c, ws, steps)
    ensures ws[0] == World(map[BOX := BusyBox], Holding(c, 1, 7), Sweeping([]), map[0 := SelectInfo(1, 3, 7, 1)])
    ensures ws[|steps|] == World(map[BOX := BusyBox], Holding(c, 1, 7), Sweeping([Row(c, 1, 7)]), map[])
  {
    var w0 := World(map[BOX := BusyBox], Holding(c, 1, 7), Sweeping([]), map[0 := SelectInfo(1, 3, 7, 1)]);
    var w1 := w0.(client := AtRest);
    var w2 := w1.(client := Sweeping([Row(c, 1, 7)]), seen := map[]);
    assert IsListing(w0.mail, c.account, [Row(c, 1, 7)]);
    ws, steps := [w0, w1, w2], [OnClient(FinishSweep), OnClient(ListRows([Row(c, 1, 7)]))];
    assert Next(c, w0, w1, steps[0]) && Next(c, w1, w2, steps[1]);
  }

  lemma StaysPut(s: Server, pinned: Option<string>)
    ensures ServerMoves(s, s, pinned)
  {
    var ss, steps: seq<ServerStep> := [s], [];
    assert Drifts(ss, steps, pinned) && ss[0] == s && ss[|steps|] == s;
  }
}
