/**
 Runs that show what the folder-sync protocol needs of its server and its store:
 where one of those needs is not met, a reachable state mixes UID epochs, has a gap
 and is at rest without having converged.
 */
module FolderRuns {
  import opened Wrappers
  import opened Store
  import opened Wire
  import opened FolderProtocol
  import opened FolderInvariant
  import opened FolderSafety

  // ----- One mailbox -----

  const BOX := "INBOX"

  /** One message, with UID 2; then its flags change; then the mailbox is made anew with one message of UID 1. */
  const OldBox: Mailbox := Mailbox(1, 3, map[2 := 5], 5, map[(1, 2) := 10])
  const FlaggedBox: Mailbox := Mailbox(1, 3, map[2 := 6], 6, map[(1, 2) := 10])
  const NewBox: Mailbox := Mailbox(2, 2, map[1 := 1], 1, map[(1, 2) := 10, (2, 1) := 20])

  const OldMessage: Message := Message(1, 0, 2, 10, [])

  function Row(c: Config, v: U32, q: U64): FolderRow {
    FolderRow(0, c.account, BOX, [], None, "/", v, q)
  }

  function Holding(c: Config, v: U32, q: U64): Mail {
    Mail([Row(c, v, q)], [OldMessage], 2)
  }

  function Code1(code: Option<Code>): seq<Status> {
    if code.Some? then [Untagged(OK, code)] else []
  }

  /** The answer to SELECT with the codes given. */
  function Reply(v: Option<NonZeroU32>, n: NonZeroU32, q: Option<NonZeroU64>): CommandOutcome {
    CommandOutcome(Tagged("K1", OK, None), [Exists(1)],
                   Code1(if v.Some? then Some(UidValidity(v.value)) else None) + [Untagged(OK, Some(UidNext(n)))]
                   + Code1(if q.Some? then Some(HighestModSeq(q.value)) else None))
  }

  function Read(v: Option<NonZeroU32>, n: NonZeroU32, q: Option<NonZeroU64>): SelectInfo {
    SelectInfo(if v.Some? then v.value else 0, n, if q.Some? then q.value else 0, 1)
  }

  lemma AppendReads(ss: seq<Status>, s: Status)
    ensures LastUidValidity(ss + [s])
            == match StatusCode(s) case Some(UidValidity(v)) => v case _ => LastUidValidity(ss)
    ensures LastUidNext(ss + [s]) == match StatusCode(s) case Some(UidNext(n)) => n case _ => LastUidNext(ss)
    ensures LastModseq(ss + [s]) == match StatusCode(s) case Some(HighestModSeq(m)) => m case _ => LastModseq(ss)
  {
    assert (ss + [s])[..|ss + [s]| - 1] == ss;
  }

  lemma ReplyReads(v: Option<NonZeroU32>, n: NonZeroU32, q: Option<NonZeroU64>)
    ensures InfoOf(Reply(v, n, q)) == Read(v, n, q)
  {
    var out := Reply(v, n, q);
    var s0 := Code1(if v.Some? then Some(UidValidity(v.value)) else None);
    var s1 := s0 + [Untagged(OK, Some(UidNext(n)))];
    var s2 := s1 + Code1(if q.Some? then Some(HighestModSeq(q.value)) else None);
    if v.Some? {
      AppendReads([], Untagged(OK, Some(UidValidity(v.value))));
      assert [] + [Untagged(OK, Some(UidValidity(v.value)))] == s0;
    }
    AppendReads(s0, Untagged(OK, Some(UidNext(n))));
    if q.Some? {
      AppendReads(s1, Untagged(OK, Some(HighestModSeq(q.value))));
    } else {
      assert s2 == s1;
    }
    AppendReads(s2, out.status);
    assert Statuses(out) == s2 + [out.status];
    assert out.data[..0] == [] && LastExists(out.data) == 1;
  }

  /** Whether a server of this configuration may leave these codes out. */
  ghost predicate MayReply(c: Config, mb: Mailbox, v: Option<NonZeroU32>, q: Option<NonZeroU64>) {
    && (if v.None? then !c.sendsUidValidity else v.value == mb.uidValidity)
    && mb.highestModseq > 0 && (if q.None? then !c.sendsModseq else q.value == mb.highestModseq)
  }

  lemma ReplyAnswers(c: Config, mb: Mailbox, v: Option<NonZeroU32>, q: Option<NonZeroU64>)
    requires MayReply(c, mb, v, q) && |mb.live| == 1
    ensures SelectAnswer(mb, c, Reply(v, mb.uidNext, q))
  {
    var ss := Statuses(Reply(v, mb.uidNext, q));
    var k := if v.Some? then 1 else 0;
    assert v.Some? ==> StatusCode(ss[0]) == Some(UidValidity(v.value));
    assert StatusCode(ss[k]) == Some(UidNext(mb.uidNext));
    assert q.Some? ==> StatusCode(ss[k + 1]) == Some(HighestModSeq(q.value));
    assert StatusCode(ss[|ss| - 1]) == None;
    ReplyReads(v, mb.uidNext, q);
  }

  function InBox(mb: Mailbox, info: SelectInfo, mail: Mail, row: FolderRow, phase: Phase): World {
    World(map[BOX := mb], mail, InFolder(row, info, phase, []), map[0 := info])
  }

  function Offline(mb: Mailbox, mail: Mail): World {
    World(map[BOX := mb], mail, Down, map[])
  }

  // ----- Parts of runs -----

  /** From a lost connection to the answered SELECT of the one folder. */
  lemma SelectTrip(c: Config, mb: Mailbox, mail: Mail, row: FolderRow, v: Option<NonZeroU32>, q: Option<NonZeroU64>)
    requires MayReply(c, mb, v, q) && |mb.live| == 1
    requires mail.folders == [row] && row.id == 0 && row.account == c.account && row.name == BOX
    requires Reachable(c, Offline(mb, mail))
    ensures Reachable(c, InBox(mb, Read(v, mb.uidNext, q), mail, row, Reconcile))
  {
    var w0 := Offline(mb, mail);
    var w1, w2 := w0.(client := Hierarchy), w0.(client := Sweeping([row]));
    ReachableStep(c, w0, w1, OnClient(Connect));
    assert IsListing(mail, c.account, [row]) && [row][1..] == [];
    ReachableStep(c, w1, w2, OnClient(ListRows([row])));
    ReplyAnswers(c, mb, v, q);
    ReplyReads(v, mb.uidNext, q);
    ReachableStep(c, w2, InBox(mb, Read(v, mb.uidNext, q), mail, row, Reconcile),
                  OnClient(SelectOk(Reply(v, mb.uidNext, q))));
  }

  function Full(mb: Mailbox): SelectInfo {
    SelectInfo(mb.uidValidity, mb.uidNext, mb.highestModseq, 1)
  }

  lemma FullTrip(c: Config, mb: Mailbox, mail: Mail, row: FolderRow)
    requires mb.highestModseq > 0 && |mb.live| == 1
    requires mail.folders == [row] && row.id == 0 && row.account == c.account && row.name == BOX
    requires Reachable(c, Offline(mb, mail))
    ensures Reachable(c, InBox(mb, Full(mb), mail, row, Reconcile))
  {
    SelectTrip(c, mb, mail, row, Some(mb.uidValidity), Some(mb.highestModseq));
  }

  /** The cursor write after a SELECT that does not open a new epoch. */
  lemma CursorTrip(c: Config, mb: Mailbox, info: SelectInfo, mail: Mail, row: FolderRow)
    requires info.uidValidity != 0 && row.uidValidity in {0, info.uidValidity}
    requires mail.folders == [row] && row.id == 0 && Reachable(c, InBox(mb, info, mail, row, Reconcile))
    ensures var moved := row.(uidValidity := info.uidValidity, highestModseq := info.highestModseq);
            Reachable(c, InBox(mb, info, mail.(folders := [moved]), row, Delta))
  {
    var moved := row.(uidValidity := info.uidValidity, highestModseq := info.highestModseq);
    var mail' := mail.(folders := [moved]);
    assert UpdateCursors(mail, c.literalZero, 0, info.uidValidity, Some(info.highestModseq)) == mail';
    ReachableStep(c, InBox(mb, info, mail, row, Reconcile), InBox(mb, info, mail', row, Delta),
                  OnClient(ReconcileFolder));
  }

  function Listed(c: Config): Mail {
    Mail([Row(c, 0, 0)], [], 1)
  }

  lemma ListedFirst(c: Config)
    ensures Reachable(c, Offline(OldBox, Listed(c)))
  {
    var s, f := map[BOX := OldBox], NewFolder(c.account, BOX, [], None, "/", 0, 0);
    var w0, w1 := Offline(OldBox, EmptyMail), World(s, EmptyMail, Hierarchy, map[]);
    ReachableInit(c, w0);
    ReachableStep(c, w0, w1, OnClient(Connect));
    assert UpsertFolder(EmptyMail, f) == Listed(c);
    ReachableStep(c, w1, World(s, Listed(c), Hierarchy, map[]), OnClient(UpsertListed(f)));
    ReachableStep(c, World(s, Listed(c), Hierarchy, map[]), Offline(OldBox, Listed(c)), OnClient(Drop));
  }

  /** An envelope with the flags given. */
  function Envelope(uid: NonZeroU32, date: int, flags: seq<WireFlag>): Data {
    Fetch([UidItem(uid), DateItem(date), FlagsItem(flags), EnvelopeItem("")])
  }

  const Clock: nat -> int := (k: nat) => 0

  lemma EnvelopeReads(uid: NonZeroU32, date: int, flags: seq<WireFlag>)
    ensures var d := Envelope(uid, date, flags);
            Ingestable(d) && LastUid(d.items) == Some(uid) && LastDate(d.items) == Some(date)
    ensures BatchOf(0, [Envelope(uid, date, flags)], Clock) == [IngestMessage(0, uid, date, KnownFlags(flags), None, 0)]
  {
    var items := Envelope(uid, date, flags).items;
    var i3, i2, i1 := items[..3], items[..2], items[..1];
    assert i3[..2] == i2 && i2[..1] == i1 && i1[..0] == [];
    assert LastUid(items) == LastUid(i3) == LastUid(i2) == LastUid(i1) == Some(uid);
    assert LastDate(items) == LastDate(i3) == LastDate(i2) == Some(date);
    assert LastFlags(items) == LastFlags(i3) == Some(flags);
    assert LastSize(items) == LastSize(i3) == LastSize(i2) == LastSize(i1) == LastSize([]) == None;
    assert [Envelope(uid, date, flags)][..0] == [] && BatchOf(0, [], Clock) == [];
  }

  lemma FirstIngest(c: Config, v: U32, q: U64)
    ensures Ingest(Listed(c).(folders := [Row(c, v, q)]), [IngestMessage(0, 2, 10, [], None, 0)]) == Holding(c, v, q)
  {
    var mail, m := Listed(c).(folders := [Row(c, v, q)]), IngestMessage(0, 2, 10, [], None, 0);
    assert [m][..0] == [];
    assert Ingest(mail, [m]) == Upsert(mail, m);
  }

  /** From the cursor write on, whatever it left in the row, the old message is fetched; the connection is then lost. */
  lemma FetchOld(c: Config, info: SelectInfo, v: U32, q: U64)
    requires info.uidNext == 3 && info.exists_ == 1
    requires Reachable(c, InBox(OldBox, info, Listed(c).(folders := [Row(c, v, q)]), Row(c, 0, 0), Delta))
    ensures Reachable(c, Offline(OldBox, Holding(c, v, q)))
  {
    var row, mail := Row(c, 0, 0), Listed(c).(folders := [Row(c, v, q)]);
    var w0, w1 := InBox(OldBox, info, mail, row, Delta), InBox(OldBox, info, mail, row, Fetching(1));
    ReachableStep(c, w0, w1, OnClient(PlanDelta(true)));
    AnswerOld(c, info, v, q);
  }

  lemma AnswerOld(c: Config, info: SelectInfo, v: U32, q: U64)
    requires info.uidNext == 3 && info.exists_ == 1
    requires Reachable(c, InBox(OldBox, info, Listed(c).(folders := [Row(c, v, q)]), Row(c, 0, 0), Fetching(1)))
    ensures Reachable(c, Offline(OldBox, Holding(c, v, q)))
  {
    var row, mail := Row(c, 0, 0), Listed(c).(folders := [Row(c, v, q)]);
    var batch, data := [IngestMessage(0, 2, 10, [], None, 0)], [Envelope(2, 10, [])];
    OldIsAnswered();
    ReachableStep(c, InBox(OldBox, info, mail, row, Fetching(1)), InBox(OldBox, info, mail, row, Ingesting(batch)),
                  OnClient(FetchEnvelopes(data, Clock)));
    StoreOld(c, info, v, q);
  }

  lemma OldIsAnswered()
    ensures var data := [Envelope(2, 10, [])];
            FetchAnswer(OldBox, 1, 2, data) && BatchOf(0, data, Clock) == [IngestMessage(0, 2, 10, [], None, 0)]
  {
    var data := [Envelope(2, 10, [])];
    EnvelopeReads(2, 10, []);
    assert data[0] in data;
  }

  lemma StoreOld(c: Config, info: SelectInfo, v: U32, q: U64)
    requires Reachable(c, InBox(OldBox, info, Listed(c).(folders := [Row(c, v, q)]), Row(c, 0, 0),
                                Ingesting([IngestMessage(0, 2, 10, [], None, 0)])))
    ensures Reachable(c, Offline(OldBox, Holding(c, v, q)))
  {
    var row, mail := Row(c, 0, 0), Listed(c).(folders := [Row(c, v, q)]);
    FirstIngest(c, v, q);
    var w3 := InBox(OldBox, info, Holding(c, v, q), row, Flags);
    ReachableStep(c, InBox(OldBox, info, mail, row, Ingesting([IngestMessage(0, 2, 10, [], None, 0)])), w3,
                  OnClient(IngestAll));
    ReachableStep(c, w3, Offline(OldBox, Holding(c, v, q)), OnClient(Drop));
  }

  /** A first pass in which nothing fails. */
  lemma FirstPass(c: Config)
    ensures Reachable(c, Offline(OldBox, Holding(c, 1, 5)))
  {
    ListedFirst(c);
    FullTrip(c, OldBox, Listed(c), Row(c, 0, 0));
    CursorTrip(c, OldBox, Full(OldBox), Listed(c), Row(c, 0, 0));
    FetchOld(c, Full(OldBox), 1, 5);
  }

  lemma StoredMax(c: Config, v: U32, q: U64)
    ensures MaxUid(Holding(c, v, q).messages, 0) == Some(2)
  {
    assert Holding(c, v, q).messages[..0] == [];
  }

  // ----- How an epoch is forgotten -----

  /** A cursor write fails before the first fetch. */
  lemma ForgottenByFailure(c: Config)
    requires c.cursorsMayFail
    ensures Reachable(c, Offline(OldBox, Holding(c, 0, 0)))
  {
    var row, info := Row(c, 0, 0), Full(OldBox);
    ListedFirst(c);
    FullTrip(c, OldBox, Listed(c), row);
    ReachableStep(c, InBox(OldBox, info, Listed(c), row, Reconcile), InBox(OldBox, info, Listed(c), row, Delta),
                  OnClient(CursorFails));
    FetchOld(c, info, 0, 0);
  }

  /** SELECT does not report a UIDVALIDITY before the first fetch. */
  lemma ForgottenBySilence(c: Config)
    requires !c.sendsUidValidity
    ensures Reachable(c, Offline(OldBox, Holding(c, 0, 0)))
  {
    var row, info := Row(c, 0, 0), Read(None, 3, Some(5));
    ListedFirst(c);
    SelectTrip(c, OldBox, Listed(c), row, None, Some(5));
    ReachableStep(c, InBox(OldBox, info, Listed(c), row, Reconcile), InBox(OldBox, info, Listed(c), row, Delta),
                  OnClient(ReconcileFolder));
    FetchOld(c, info, 0, 0);
  }

  /** After a flag change the second pass ends with a cursor write that passes 0, taken literally. */
  lemma ForgottenByZero(c: Config)
    requires c.literalZero && c.condstore
    ensures Reachable(c, Offline(FlaggedBox, Holding(c, 0, 6)))
  {
    FirstPass(c);
    assert OldBox.live[2 := 6] == FlaggedBox.live;
    ReachableStep(c, Offline(OldBox, Holding(c, 1, 5)), Offline(FlaggedBox, Holding(c, 1, 5)),
                  OnServer(Reflag(BOX, 2, 6)));
    FullTrip(c, FlaggedBox, Holding(c, 1, 5), Row(c, 1, 5));
    CursorTrip(c, FlaggedBox, Full(FlaggedBox), Holding(c, 1, 5), Row(c, 1, 5));
    ZeroTrip(c);
  }

  lemma ZeroTrip(c: Config)
    requires c.literalZero && c.condstore
    requires Reachable(c, InBox(FlaggedBox, Full(FlaggedBox), Holding(c, 1, 6), Row(c, 1, 5), Delta))
    ensures Reachable(c, Offline(FlaggedBox, Holding(c, 0, 6)))
  {
    var row, mail, info := Row(c, 1, 5), Holding(c, 1, 6), Full(FlaggedBox);
    StoredMax(c, 1, 6);
    ReachableStep(c, InBox(FlaggedBox, info, mail, row, Delta), InBox(FlaggedBox, info, mail, row, Flags),
                  OnClient(PlanDelta(true)));
    ZeroWrite(c);
  }

  lemma ZeroWrite(c: Config)
    requires c.literalZero && c.condstore
    requires Reachable(c, InBox(FlaggedBox, Full(FlaggedBox), Holding(c, 1, 6), Row(c, 1, 5), Flags))
    ensures Reachable(c, Offline(FlaggedBox, Holding(c, 0, 6)))
  {
    var row, mail, info := Row(c, 1, 5), Holding(c, 1, 6), Full(FlaggedBox);
    assert UpdateCursors(mail, true, 0, 0, Some(6)) == Holding(c, 0, 6);
    var w2 := InBox(FlaggedBox, info, Holding(c, 0, 6), row, PrefetchList);
    ReachableStep(c, InBox(FlaggedBox, info, mail, row, Flags), w2, OnClient(WriteFlagCursor));
    ReachableStep(c, w2, Offline(FlaggedBox, Holding(c, 0, 6)), OnClient(Drop));
  }

  // ----- What comes of it -----

  lemma Renewed(c: Config, mb: Mailbox, mail: Mail)
    requires mb in {OldBox, FlaggedBox} && Reachable(c, Offline(mb, mail))
    ensures Reachable(c, Offline(NewBox, mail))
  {
    ReachableStep(c, Offline(mb, mail), Offline(NewBox, mail), OnServer(Reset(BOX, NewBox)));
  }

  /** At rest under the new epoch's cursors, with the old epoch's message and without the new one's. */
  function HiddenWorld(c: Config): World {
    World(map[BOX := NewBox], Holding(c, 2, 1), AtRest, map[0 := Full(NewBox)])
  }

  /** From the cursors of the new epoch on: the old message's UID lies above the new one's, so nothing is fetched. */
  lemma RestTrip(c: Config, row: FolderRow)
    requires row.id == 0 && Reachable(c, InBox(NewBox, Full(NewBox), Holding(c, 2, 1), row, Delta))
    ensures Reachable(c, HiddenWorld(c))
  {
    var info, mail := Full(NewBox), Holding(c, 2, 1);
    StoredMax(c, 2, 1);
    assert info.uidNext == 2 && DeltaPhase(mail.messages, 0, info, true) == Flags;
    ReachableStep(c, InBox(NewBox, info, mail, row, Delta), InBox(NewBox, info, mail, row, Flags),
                  OnClient(PlanDelta(true)));
    ReachableStep(c, InBox(NewBox, info, mail, row, Flags), InBox(NewBox, info, mail, row, PrefetchList),
                  OnClient(LeaveFlags));
    PrefetchTrip(c, row);
  }

  lemma PrefetchTrip(c: Config, row: FolderRow)
    requires Reachable(c, InBox(NewBox, Full(NewBox), Holding(c, 2, 1), row, PrefetchList))
    ensures Reachable(c, HiddenWorld(c))
  {
    var info, mail := Full(NewBox), Holding(c, 2, 1);
    var w0, w1 := InBox(NewBox, info, mail, row, PrefetchList), InBox(NewBox, info, mail, row, Prefetching([]));
    ReachableStep(c, w0, w1, OnClient(ListPrefetch(false)));
    var w2 := w1.(client := Sweeping([]));
    ReachableStep(c, w1, w2, OnClient(FinishFolder));
    ReachableStep(c, w2, HiddenWorld(c), OnClient(FinishSweep));
  }

  /** A forgotten epoch is not told from a new folder. */
  lemma ForgottenHides(c: Config, mb: Mailbox, q: U64)
    requires mb in {OldBox, FlaggedBox} && Reachable(c, Offline(mb, Holding(c, 0, q)))
    ensures Reachable(c, HiddenWorld(c))
  {
    Renewed(c, mb, Holding(c, 0, q));
    FullTrip(c, NewBox, Holding(c, 0, q), Row(c, 0, q));
    CursorTrip(c, NewBox, Full(NewBox), Holding(c, 0, q), Row(c, 0, q));
    RestTrip(c, Row(c, 0, q));
  }

  /** A failed purge leaves the old epoch's message under the cursors of the new one. */
  lemma FailedPurgeHides(c: Config)
    requires c.purgeMayFail
    ensures Reachable(c, HiddenWorld(c))
  {
    FirstPass(c);
    Renewed(c, OldBox, Holding(c, 1, 5));
    FullTrip(c, NewBox, Holding(c, 1, 5), Row(c, 1, 5));
    var row, mail, info := Row(c, 1, 5), Holding(c, 1, 5), Full(NewBox);
    var w0, w1 := InBox(NewBox, info, mail, row, Reconcile), InBox(NewBox, info, mail, row, Purged);
    ReachableStep(c, w0, w1, OnClient(PurgeFails));
    UnpurgedTrip(c);
    RestTrip(c, row);
  }

  lemma UnpurgedTrip(c: Config)
    requires Reachable(c, InBox(NewBox, Full(NewBox), Holding(c, 1, 5), Row(c, 1, 5), Purged))
    ensures Reachable(c, InBox(NewBox, Full(NewBox), Holding(c, 2, 1), Row(c, 1, 5), Delta))
  {
    var row, info := Row(c, 1, 5), Full(NewBox);
    var w1, w2 := InBox(NewBox, info, Holding(c, 1, 5), row, Purged),
        InBox(NewBox, info, Holding(c, 2, 0), row, CursorsReset);
    assert UpdateCursors(Holding(c, 1, 5), c.literalZero, 0, 2, Some(0)) == Holding(c, 2, 0);
    ReachableStep(c, w1, w2, OnClient(WriteZeroModseq));
    assert UpdateCursors(Holding(c, 2, 0), c.literalZero, 0, 2, Some(1)) == Holding(c, 2, 1);
    ReachableStep(c, w2, InBox(NewBox, info, Holding(c, 2, 1), row, Delta), OnClient(WriteModseq));
  }

  lemma HiddenIsUnsafe(c: Config)
    ensures !EpochPure(HiddenWorld(c)) && !NoGaps(HiddenWorld(c)) && !ConvergedAtRest(HiddenWorld(c))
  {
    var w := HiddenWorld(c);
    var ms := w.mail.messages;
    assert RowOf(w.mail.folders, 0) == Some(Row(c, 2, 1));
    assert Lookup(ms, 0, 2) == Some(OldMessage) && Lookup(ms, 0, 1) == None;
    assert Stored(ms, 0, 2) && !Stored(ms, 0, 1) && 1 in NewBox.live;
  }

  /** A reachable state at rest that mixes epochs, has a gap and has not converged. */
  ghost predicate ReachesUnsafe(c: Config) {
    exists w :: Reachable(c, w) && w.client == AtRest && !EpochPure(w) && !NoGaps(w) && !ConvergedAtRest(w)
  }

  lemma HiddenReachesUnsafe(c: Config)
    requires Reachable(c, HiddenWorld(c))
    ensures ReachesUnsafe(c)
  {
    HiddenIsUnsafe(c);
    var w := HiddenWorld(c);
    assert Reachable(c, w) && w.client == AtRest;
  }

  /** A store that writes the 0 forgets the epoch, and the next reset goes unnoticed. */
  lemma LiteralZeroMixesEpochs(c: Config)
    requires c.literalZero && c.condstore
    ensures ReachesUnsafe(c)
  {
    ForgottenByZero(c);
    ForgottenHides(c, FlaggedBox, 6);
    HiddenReachesUnsafe(c);
  }

  /** So does a failed purge. */
  lemma FailedPurgeMixesEpochs(c: Config)
    requires c.purgeMayFail
    ensures ReachesUnsafe(c)
  {
    FailedPurgeHides(c);
    HiddenReachesUnsafe(c);
  }

  /** So does a failed cursor write. */
  lemma FailedCursorMixesEpochs(c: Config)
    requires c.cursorsMayFail
    ensures ReachesUnsafe(c)
  {
    ForgottenByFailure(c);
    ForgottenHides(c, OldBox, 0);
    HiddenReachesUnsafe(c);
  }

  /** And so does a SELECT that does not report UIDVALIDITY. */
  lemma SilentSelectMixesEpochs(c: Config)
    requires !c.sendsUidValidity
    ensures ReachesUnsafe(c)
  {
    ForgottenBySilence(c);
    ForgottenHides(c, OldBox, 0);
    HiddenReachesUnsafe(c);
  }

  lemma UnmetNeedIsUnsafe(c: Config)
    requires !KeepsEpoch(c)
    ensures ReachesUnsafe(c)
  {
    if c.purgeMayFail {
      FailedPurgeMixesEpochs(c);
    } else if c.cursorsMayFail {
      FailedCursorMixesEpochs(c);
    } else if !c.sendsUidValidity {
      SilentSelectMixesEpochs(c);
    } else {
      LiteralZeroMixesEpochs(c);
    }
  }

  lemma KeptIsSafe(c: Config, w: World)
    requires KeepsEpoch(c) && Reachable(c, w)
    ensures EpochPure(w) && NoGaps(w) && ConvergedAtRest(w)
  {
    var ws, steps :| IsRun(c, ws, steps) && ws[|steps|] == w;
    RunsAreSafe(c, ws, steps);
  }

  /**
   Epoch purity holds in every reachable state exactly when UIDVALIDITY is always
   reported, a UIDVALIDITY of 0 is not written literally or the server lacks
   CONDSTORE, and neither a purge nor a cursor write can fail.
   */
  lemma EpochPurityExactlyWhen(c: Config)
    ensures (forall w :: Reachable(c, w) ==> EpochPure(w)) <==>
              !(c.literalZero && c.condstore) && c.sendsUidValidity && !c.purgeMayFail && !c.cursorsMayFail
  {
    if KeepsEpoch(c) {
      forall w | Reachable(c, w)
        ensures EpochPure(w)
      {
        KeptIsSafe(c, w);
      }
    } else {
      UnmetNeedIsUnsafe(c);
    }
  }

  /** The same needs decide whether there can be gaps. */
  lemma NoGapsExactlyWhen(c: Config)
    ensures (forall w :: Reachable(c, w) ==> NoGaps(w)) <==>
              !(c.literalZero && c.condstore) && c.sendsUidValidity && !c.purgeMayFail && !c.cursorsMayFail
  {
    if KeepsEpoch(c) {
      forall w | Reachable(c, w)
        ensures NoGaps(w)
      {
        KeptIsSafe(c, w);
      }
    } else {
      UnmetNeedIsUnsafe(c);
    }
  }

  /** And whether every rest is a convergence. */
  lemma ConvergenceExactlyWhen(c: Config)
    ensures (forall w :: Reachable(c, w) ==> ConvergedAtRest(w)) <==>
              !(c.literalZero && c.condstore) && c.sendsUidValidity && !c.purgeMayFail && !c.cursorsMayFail
  {
    if KeepsEpoch(c) {
      forall w | Reachable(c, w)
        ensures ConvergedAtRest(w)
      {
        KeptIsSafe(c, w);
      }
    } else {
      UnmetNeedIsUnsafe(c);
    }
  }

  // ----- A cursor that falls -----

  /** Cursors never fall, over all runs, exactly when HIGHESTMODSEQ is always reported. */
  lemma CursorsRiseExactlyWhen(c: Config)
    requires KeepsEpoch(c)
    ensures (forall w, w', step :: Reachable(c, w) && Next(c, w, w', step) ==> CursorsRise(w.mail, w'.mail)) <==>
              c.sendsModseq
  {
    if c.sendsModseq {
      forall w, w', step | Reachable(c, w) && Next(c, w, w', step)
        ensures CursorsRise(w.mail, w'.mail)
      {
        ReachableInv(c, w);
        StepNeverLowersModseq(c, w, w', step);
      }
    } else {
      var w, w' := FallingStep(c);
      assert Next(c, w, w', OnClient(ReconcileFolder));
    }
  }

  lemma ReachableInv(c: Config, w: World)
    requires KeepsEpoch(c) && Reachable(c, w)
    ensures Inv(c, w)
  {
    var ws, steps :| IsRun(c, ws, steps) && ws[|steps|] == w;
    RunKeepsInv(c, ws, steps, |steps|);
  }

  /** A second SELECT without HIGHESTMODSEQ throws the cursor back to 0. */
  lemma FallingStep(c: Config) returns (w: World, w': World)
    requires KeepsEpoch(c) && !c.sendsModseq
    ensures Reachable(c, w) && Next(c, w, w', OnClient(ReconcileFolder)) && !CursorsRise(w.mail, w'.mail)
  {
    FirstPass(c);
    SelectTrip(c, OldBox, Holding(c, 1, 5), Row(c, 1, 5), Some(1), None);
    var info := Read(Some(1), 3, None);
    w, w' := InBox(OldBox, info, Holding(c, 1, 5), Row(c, 1, 5), Reconcile),
        InBox(OldBox, info, Holding(c, 1, 0), Row(c, 1, 5), Delta);
    assert UpdateCursors(Holding(c, 1, 5), c.literalZero, 0, 1, Some(0)) == Holding(c, 1, 0);
    assert RowOf(w.mail.folders, 0) == Some(Row(c, 1, 5)) && RowOf(w'.mail.folders, 0) == Some(Row(c, 1, 0));
  }
}
