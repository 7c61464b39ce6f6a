/**
 What a pass asks for, announces and writes to the folder's row, and when it ends
 well, each told by what the store holds and which calls succeed.
 */
module PassEvents {
  import opened Wrappers
  import opened Store
  import opened Wire
  import opened ReferenceStore
  import opened FolderProtocol
  import opened SyncPass
  import opened PassTheorems
  import opened StoredFlags
  import FlagTheorems

  // ----- What is asked for -----

  /** A UID not yet fetched: above every stored one, when those can be read, and below UIDNEXT. */
  ghost predicate Due(ms: seq<Message>, id: nat, info: SelectInfo, maxUidRead: bool, u: U32) {
    && 1 <= u < (if info.uidNext < 2 then 2 else info.uidNext)
    && (maxUidRead ==> forall v: U32 :: Stored(ms, id, v) ==> v < u)
  }

  /**
   A delta fetch is made exactly when the mailbox is not empty and some UID is due,
   and it asks for exactly those that are; with UIDNEXT unknown only UID 1 can be.
   */
  lemma DeltaRangeExactly(ms: seq<Message>, id: nat, info: SelectInfo, maxUidRead: bool)
    ensures var phase := DeltaPhase(ms, id, info, maxUidRead);
            && (phase.Fetching? <==> info.exists_ > 0 && exists u: U32 :: Due(ms, id, info, maxUidRead, u))
            && (phase.Fetching? ==> forall u: U32 ::
                  phase.start <= u <= NextBound(info.uidNext) <==> Due(ms, id, info, maxUidRead, u))
  {
    MaxUidIsMaximum(ms, id);
    var start := if maxUidRead && MaxUid(ms, id).Some? then SaturatingInc(MaxUid(ms, id).value) else 1;
    forall u: U32
      ensures Due(ms, id, info, maxUidRead, u) <==> start <= u <= NextBound(info.uidNext)
    {
      if maxUidRead && MaxUid(ms, id).Some? {
        assert Stored(ms, id, MaxUid(ms, id).value);
      }
    }
    if start <= NextBound(info.uidNext) {
      assert Due(ms, id, info, maxUidRead, start);
    }
  }

  /**
   A pass ends well exactly when the SELECT came back, if only to be refused, and any
   delta fetch it made was answered and taken in.
   */
  lemma PassOkExactlyWhen(mail: Mail, c: Config, folder: FolderRow, input: PassInput)
    ensures Pass(mail, c, folder, input).ok <==>
              && input.select.Some?
              && (IsAnswered(input.select) && Planned(mail.messages, folder, input).Fetching? ==>
                    && IsAnswered(input.envelopes)
                    && (input.ingestOk || forall d :: d in input.envelopes.value.data ==> !Ingestable(d)))
  {
    if IsAnswered(input.select) {
      FlagTheorems.ThroughExactlyWhen(mail, c, folder, input);
      if IsAnswered(input.envelopes) {
        EmptyBatch(folder.id, input.envelopes.value.data, input.clock);
      }
    }
  }

  lemma EmptyBatch(folder: nat, data: seq<Data>, clock: nat -> int)
    ensures BatchOf(folder, data, clock) == [] <==> forall d :: d in data ==> !Ingestable(d)
  {
    var at := BatchIsSubsequence(folder, data, clock);
    if BatchOf(folder, data, clock) != [] {
      assert data[at[0]] in data;
    }
    if d :| d in data && Ingestable(d) {
      var k :| 0 <= k < |data| && data[k] == d;
      assert k in at;
    }
  }

  // ----- What is announced -----

  /** The folder has a message it did not have, what a purge removes not counting as had. */
  ghost predicate Gains(mail: Mail, c: Config, folder: FolderRow, input: PassInput) {
    exists uid: U32 ::
      && Stored(Pass(mail, c, folder, input).mail.messages, folder.id, uid)
      && !Stored(Kept(mail.messages, folder, input), folder.id, uid)
  }

  lemma GainsExactlyWhen(mail: Mail, c: Config, folder: FolderRow, input: PassInput)
    ensures var kept := mail.(messages := Kept(mail.messages, folder, input));
            Gains(mail, c, folder, input) <==> Stats(kept, TakenIn(mail.messages, folder, input)).inserted > 0
  {
    var kept, taken := mail.(messages := Kept(mail.messages, folder, input)), TakenIn(mail.messages, folder, input);
    InsertsSomeExactlyWhen(kept, taken);
    PassMessages(mail, c, folder, input);
    TakenIntoFolder(mail.messages, folder, input);
    if uid: U32 :| Stored(Pass(mail, c, folder, input).mail.messages, folder.id, uid)
                     && !Stored(kept.messages, folder.id, uid) {
      IngestLookup(kept, taken, folder.id, uid);
      var m := LastFor(taken, folder.id, uid).value;
      assert m in taken && !Stored(kept.messages, m.folder, m.uid);
    }
    if m :| m in taken && !Stored(kept.messages, m.folder, m.uid) {
      IngestLookup(kept, taken, folder.id, m.uid);
      assert LastFor(taken, folder.id, m.uid).Some?;
    }
  }

  lemma TakenIntoFolder(ms: seq<Message>, folder: FolderRow, input: PassInput)
    ensures forall m :: m in TakenIn(ms, folder, input) ==> m.folder == folder.id
  {
    if IsAnswered(input.envelopes) {
      var at := BatchIsSubsequence(folder.id, input.envelopes.value.data, input.clock);
    }
  }

  /** The epoch of the folder is known on both sides, and is not the same. */
  predicate NewEpoch(folder: FolderRow, input: PassInput) {
    && IsAnswered(input.select)
    && folder.uidValidity != 0 && InfoOf(input.select.value).uidValidity != 0
    && folder.uidValidity != InfoOf(input.select.value).uidValidity
  }

  /**
   Every event of a pass, for any outcome of any of its calls: first the change of
   epoch, with the number of messages removed, if there is one; then an arrival,
   exactly when the folder gained a message; then the flags changed, if the flag
   fetch came to any stored message.
   */
  lemma PassAnnounces(mail: Mail, c: Config, folder: FolderRow, input: PassInput, row: FolderRow)
    returns (renewal: seq<EngineEvent>, arrival: seq<EngineEvent>, flags: seq<EngineEvent>)
    requires WellFormed(mail) && RowOf(mail.folders, folder.id) == Some(row) && row.account == c.account
    ensures Pass(mail, c, folder, input).events == renewal + arrival + flags
    ensures renewal == if NewEpoch(folder, input) then
                         [MessagesChanged(folder.id, 0,
                                          Saturate(if input.writes.purge then |PlacesOf(mail.messages, folder.id)|
                                                   else 0))]
                       else []
    ensures |arrival| == if Gains(mail, c, folder, input) then 1 else 0
    ensures arrival != [] ==>
              Tells(arrival[0], c.account, row, |TakenIn(mail.messages, folder, input)|, input.summariesRead,
                    Pass(mail, c, folder, input).mail.messages)
    ensures flags == if FlagTheorems.FlagsFetched(mail, c, folder, input) && FlagIds(mail, c, folder, input) != [] then
                       [FlagsChanged(FlagIds(mail, c, folder, input))]
                     else []
  {
    renewal, arrival, flags := [], [], [];
    PassMessages(mail, c, folder, input);
    GainsExactlyWhen(mail, c, folder, input);
    if IsAnswered(input.select) {
      var info := InfoOf(input.select.value);
      var reconciled := AfterReconcile(mail, c, folder, info, input.writes);
      CountersCount(mail.messages, folder.id);
      renewal := reconciled.events;
      arrival := FetchAnnounces(mail, c, folder, input, row);
      FlagTheorems.ThroughExactlyWhen(mail, c, folder, input);
      var fetched := AfterDelta(mail, c, folder, info, input);
      if fetched.ok {
        flags := AfterFlags(fetched.mail, c, folder, info, input).events;
      }
      assert renewal + arrival + [] == renewal + arrival;
    }
  }

  /** The ids the flag fetch comes to. */
  function FlagIds(mail: Mail, c: Config, folder: FolderRow, input: PassInput): seq<nat> {
    if !IsAnswered(input.flags) then []
    else
      IdsOf(FlagTheorems.AtFlags(mail, c, folder, input).messages, folder.id, FlagUids(input.flags.value.data),
            input.lookupRead)
  }

  lemma FetchAnnounces(mail: Mail, c: Config, folder: FolderRow, input: PassInput, row: FolderRow)
    returns (arrival: seq<EngineEvent>)
    requires WellFormed(mail) && RowOf(mail.folders, folder.id) == Some(row) && row.account == c.account
    requires IsAnswered(input.select)
    ensures var info := InfoOf(input.select.value);
            arrival == AfterFetch(AfterReconcile(mail, c, folder, info, input.writes).mail, c, folder.id, info,
                                  input).events
    ensures |arrival| == if Gains(mail, c, folder, input) then 1 else 0
    ensures arrival != [] ==>
              Tells(arrival[0], c.account, row, |TakenIn(mail.messages, folder, input)|, input.summariesRead,
                    Pass(mail, c, folder, input).mail.messages)
  {
    var info := InfoOf(input.select.value);
    var reconciled := AfterReconcile(mail, c, folder, info, input.writes).mail;
    var fetched := AfterFetch(reconciled, c, folder.id, info, input);
    var taken := TakenIn(mail.messages, folder, input);
    arrival := fetched.events;
    ReconciledMessages(mail, c, folder, input);
    FetchedMessages(reconciled, c, folder.id, info, input);
    PassMessages(mail, c, folder, input);
    GainsExactlyWhen(mail, c, folder, input);
    StatsIgnoreRows(mail, reconciled, taken);
    IngestIgnoresRows(mail, reconciled, taken);
    FetchEvents(reconciled, c, folder, info, input, taken);
    if arrival != [] {
      ReconcileKeepsWellFormed(mail, c, folder, info, input.writes);
      IngestKeepsWellFormed(reconciled, taken);
      IngestKeepsFolders(reconciled, taken);
      var row' := ReconcileKeepsRole(mail, c, folder, info, input.writes, row);
      ArrivalCounts(fetched.mail, c.account, row', |taken|, input.summariesRead);
    }
  }

  lemma FetchEvents(mail: Mail, c: Config, folder: FolderRow, info: SelectInfo, input: PassInput,
                    taken: seq<IngestMessage>)
    requires taken == TakenFrom(DeltaPhase(mail.messages, folder.id, info, input.maxUidRead), folder.id, input)
    ensures AfterFetch(mail, c, folder.id, info, input).events
            == if Stats(mail, taken).inserted > 0 then
                 [Arrival(Ingest(mail, taken), c.account, folder.id, |taken|, input.summariesRead)]
               else []
  {
  }

  lemma {:induction false} StatsIgnoreRows(mail: Mail, other: Mail, batch: seq<IngestMessage>)
    requires other.nextId == mail.nextId
    ensures Stats(mail.(messages := other.messages), batch) == Stats(other, batch)
  {
    if batch != [] {
      StatsIgnoreRows(mail, other, batch[..|batch| - 1]);
      IngestIgnoresRows(mail, other, batch[..|batch| - 1]);
    }
  }

  /** Only cursors move before the fetch. */
  lemma ReconcileKeepsRole(mail: Mail, c: Config, folder: FolderRow, info: SelectInfo, writes: Writes, row: FolderRow)
    returns (row': FolderRow)
    requires RowOf(mail.folders, folder.id) == Some(row)
    ensures row' in AfterReconcile(mail, c, folder, info, writes).mail.folders
    ensures row'.id == row.id && row'.account == row.account && row'.role == row.role
  {
    var purged := if EpochChanged(folder, info) && writes.purge then Purge(mail, folder.id) else mail;
    var zeroed := TryCursors(purged, c, folder.id, info.uidValidity, 0,
                             EpochChanged(folder, info) && writes.zeroModseq);
    CursorRow(purged, c.literalZero, folder.id, info.uidValidity, Some(0), folder.id);
    CursorRow(zeroed, c.literalZero, folder.id, info.uidValidity, Some(info.highestModseq), folder.id);
    row' := RowOf(AfterReconcile(mail, c, folder, info, writes).mail.folders, folder.id).value;
  }

  // ----- What is written to the folder's row -----

  /** The flag pass writes the cursor: its fetch was answered and the modseq rose above the one listed. */
  predicate WritesFlagCursor(mail: Mail, c: Config, folder: FolderRow, input: PassInput) {
    && FlagTheorems.FlagsFetched(mail, c, folder, input) && input.writes.flagCursor
    && InfoOf(input.select.value).highestModseq > folder.highestModseq
  }

  /** Some cursor write goes through before the fetch. */
  predicate WritesEpoch(folder: FolderRow, input: PassInput)
    requires IsAnswered(input.select)
  {
    && InfoOf(input.select.value).uidValidity != 0
    && (input.writes.cursors || (NewEpoch(folder, input) && input.writes.zeroModseq))
  }

  /**
   The cursors after a pass, for any outcome of any of its calls: the UIDVALIDITY is
   the one reported, if any write of it goes through, unless the flag pass puts the
   literal 0 there; the modseq is the one reported, if the last write of it goes
   through, and 0 after a change of epoch whose second write failed.
   */
  lemma PassRow(mail: Mail, c: Config, folder: FolderRow, input: PassInput, row: FolderRow)
    requires RowOf(mail.folders, folder.id) == Some(row) && IsAnswered(input.select)
    ensures var info, flagged := InfoOf(input.select.value), WritesFlagCursor(mail, c, folder, input);
            RowOf(Pass(mail, c, folder, input).mail.folders, folder.id)
            == Some(row.(
                 uidValidity := if flagged && c.literalZero then 0
                                else if WritesEpoch(folder, input) then info.uidValidity
                                else row.uidValidity,
                 highestModseq := if flagged || (info.uidValidity != 0 && input.writes.cursors) then info.highestModseq
                                  else if WritesEpoch(folder, input) then 0
                                  else row.highestModseq))
  {
    var info := InfoOf(input.select.value);
    var reconciled := AfterReconcile(mail, c, folder, info, input.writes);
    var delta := AfterDelta(mail, c, folder, info, input);
    ReconcileRow(mail, c, folder, input, row);
    FlagTheorems.FetchKeepsFolders(reconciled.mail, c, folder.id, info, input);
    FlagTheorems.ThroughExactlyWhen(mail, c, folder, input);
    CursorRow(delta.mail, c.literalZero, folder.id, 0, Some(info.highestModseq), folder.id);
  }

  lemma ReconcileRow(mail: Mail, c: Config, folder: FolderRow, input: PassInput, row: FolderRow)
    requires RowOf(mail.folders, folder.id) == Some(row) && IsAnswered(input.select)
    ensures var info := InfoOf(input.select.value);
            RowOf(AfterReconcile(mail, c, folder, info, input.writes).mail.folders, folder.id)
            == Some(row.(
                 uidValidity := if WritesEpoch(folder, input) then info.uidValidity else row.uidValidity,
                 highestModseq := if info.uidValidity != 0 && input.writes.cursors then info.highestModseq
                                  else if WritesEpoch(folder, input) then 0
                                  else row.highestModseq))
  {
    var info := InfoOf(input.select.value);
    var purged := if EpochChanged(folder, info) && input.writes.purge then Purge(mail, folder.id) else mail;
    var zeroed := TryCursors(purged, c, folder.id, info.uidValidity, 0,
                             EpochChanged(folder, info) && input.writes.zeroModseq);
    CursorRow(purged, c.literalZero, folder.id, info.uidValidity, Some(0), folder.id);
    CursorRow(zeroed, c.literalZero, folder.id, info.uidValidity, Some(info.highestModseq), folder.id);
  }
}
