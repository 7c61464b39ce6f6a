/**
 Stored flags: which messages a pass rewrites or removes. The delta fetch asks for
 new messages only, but it starts from 1 when the largest stored UID cannot be read
 or the folder has just been purged, and then known messages are listed again.
 */
module StoredFlags {
  import opened Wrappers
  import opened Store
  import opened Wire
  import opened FolderProtocol
  import opened FolderSafety
  import opened FolderRuns
  import opened SyncPass
  import opened PassTheorems
  import FlagTheorems

  /** The messages ingested by a delta fetch so planned. */
  function TakenFrom(phase: Phase, folder: nat, input: PassInput): seq<IngestMessage> {
    if phase.Fetching? && IsAnswered(input.envelopes) && input.ingestOk then
      BatchOf(folder, input.envelopes.value.data, input.clock)
    else []
  }

  /** The messages the pass ingests. */
  function TakenIn(ms: seq<Message>, folder: FolderRow, input: PassInput): seq<IngestMessage> {
    if IsAnswered(input.select) then TakenFrom(Planned(ms, folder, input), folder.id, input) else []
  }

  lemma PassMessages(mail: Mail, c: Config, folder: FolderRow, input: PassInput)
    ensures Pass(mail, c, folder, input).mail.messages
         == Ingest(mail.(messages := Kept(mail.messages, folder, input)),
                   TakenIn(mail.messages, folder, input)).messages
  {
    if IsAnswered(input.select) {
      var info := InfoOf(input.select.value);
      var reconciled := AfterReconcile(mail, c, folder, info, input.writes).mail;
      ReconciledMessages(mail, c, folder, input);
      FetchedMessages(reconciled, c, folder.id, info, input);
      IngestIgnoresRows(mail, reconciled, TakenIn(mail.messages, folder, input));
    }
  }

  lemma ReconciledMessages(mail: Mail, c: Config, folder: FolderRow, input: PassInput)
    requires IsAnswered(input.select)
    ensures var after := AfterReconcile(mail, c, folder, InfoOf(input.select.value), input.writes).mail;
            after.messages == Kept(mail.messages, folder, input) && after.nextId == mail.nextId
  {
  }

  lemma FetchedMessages(mail: Mail, c: Config, folder: nat, info: SelectInfo, input: PassInput)
    ensures AfterFetch(mail, c, folder, info, input).mail
         == Ingest(mail, TakenFrom(DeltaPhase(mail.messages, folder, info, input.maxUidRead), folder, input))
  {
  }

  lemma {:induction false} IngestIgnoresRows(mail: Mail, other: Mail, batch: seq<IngestMessage>)
    requires other.nextId == mail.nextId
    ensures Ingest(mail.(messages := other.messages), batch).messages == Ingest(other, batch).messages
    ensures Ingest(mail.(messages := other.messages), batch).nextId == Ingest(other, batch).nextId
  {
    if batch != [] {
      IngestIgnoresRows(mail, other, batch[..|batch| - 1]);
    }
  }

  /**
   What any pass does to any key, for every outcome of every call: a purge removes
   the folder's messages, then the messages taken in set date and flags, and every
   other message stays as it is. No pass removes a message in any other way, and a
   message keeps its id.
   */
  lemma PassLookup(mail: Mail, c: Config, folder: FolderRow, input: PassInput, f: nat, uid: U32)
    ensures var before := if Purges(folder, input) && f == folder.id then None else Lookup(mail.messages, f, uid);
            var after := Lookup(Pass(mail, c, folder, input).mail.messages, f, uid);
            match LastFor(TakenIn(mail.messages, folder, input), f, uid)
            case None => after == before
            case Some(m) => after.Some? && after.value.date == m.date && after.value.flags == m.flags
                            && (before.Some? ==> after.value.id == before.value.id)
  {
    PassMessages(mail, c, folder, input);
    PurgeLookup(mail.messages, folder.id, f, uid);
    IngestLookup(mail.(messages := Kept(mail.messages, folder, input)), TakenIn(mail.messages, folder, input), f, uid);
  }

  // ----- What a message is stored with -----

  /** A response of an envelope fetch that lists the message, told by its items alone. */
  ghost predicate Shows(d: Data, uid: U32) {
    d.Fetch? && IsLast(d.items, UidIn, Some(uid)) && exists e :: EnvelopeItem(e) in d.items
  }

  /** Response `k` is the last one that lists the message. */
  ghost predicate Decides(data: seq<Data>, k: nat, uid: U32) {
    k < |data| && Shows(data[k], uid) && forall j :: k < j < |data| ==> !Shows(data[j], uid)
  }

  lemma ShowsExactlyWhen(d: Data, uid: U32)
    ensures Shows(d, uid) <==> Ingestable(d) && LastUid(d.items) == Some(uid)
  {
    if d.Fetch? {
      LastItemsCount(d.items);
      if IsLast(d.items, UidIn, Some(uid)) {
        LastIsUnique(d.items, UidIn, Some(uid), LastUid(d.items));
      }
    }
  }

  lemma {:induction false} LastShownIsTaken(folder: nat, data: seq<Data>, clock: nat -> int, uid: U32, k: nat)
    requires Decides(data, k, uid)
    ensures Ingestable(data[k])
    ensures LastFor(BatchOf(folder, data, clock), folder, uid) == Some(ToIngest(folder, data[k], clock(k)))
  {
    var n := |data| - 1;
    ShowsExactlyWhen(data[n], uid);
    if k < n {
      assert Decides(data[..n], k, uid);
      LastShownIsTaken(folder, data[..n], clock, uid, k);
      assert data[..n][k] == data[k];
      if Ingestable(data[n]) {
        SkipLast(BatchOf(folder, data[..n], clock), ToIngest(folder, data[n], clock(n)), folder, uid);
      }
    }
  }

  lemma SkipLast(batch: seq<IngestMessage>, m: IngestMessage, folder: nat, uid: U32)
    requires m.uid != uid
    ensures LastFor(batch + [m], folder, uid) == LastFor(batch, folder, uid)
  {
    assert (batch + [m])[..|batch + [m]| - 1] == batch;
  }

  /** The pass gets to ingest the answer to its envelope fetch. */
  predicate TakesIn(ms: seq<Message>, folder: FolderRow, input: PassInput) {
    && IsAnswered(input.select) && Planned(ms, folder, input).Fetching?
    && IsAnswered(input.envelopes) && input.ingestOk
  }

  /**
   What a message taken in is stored with after a whole pass: a flag exactly when it
   is a known flag of the last flag list in the last response that lists the
   message, and the last date of that response, or else the time it was looked at.
   */
  lemma StoredAsListed(mail: Mail, c: Config, folder: FolderRow, input: PassInput, uid: U32, k: nat)
    requires TakesIn(mail.messages, folder, input) && Decides(input.envelopes.value.data, k, uid)
    ensures var items := input.envelopes.value.data[k].items;
            var after := Lookup(Pass(mail, c, folder, input).mail.messages, folder.id, uid);
            && after.Some?
            && (forall f :: f in after.value.flags <==> exists j, fl :: LastAt(items, FlagsIn, j, fl) && Known(f) in fl)
            && (IsLast(items, DateIn, Some(after.value.date))
                || (IsLast(items, DateIn, None) && after.value.date == input.clock(k)))
  {
    var data := input.envelopes.value.data;
    PassLookup(mail, c, folder, input, folder.id, uid);
    LastShownIsTaken(folder.id, data, input.clock, uid, k);
    RowReadsItems(folder.id, data[k], input.clock(k));
  }

  /** And whatever no response lists is not brought in: a message is new only if some response lists it. */
  lemma NewIsListed(mail: Mail, c: Config, folder: FolderRow, input: PassInput, f: nat, uid: U32)
    requires !Stored(mail.messages, f, uid) && Stored(Pass(mail, c, folder, input).mail.messages, f, uid)
    ensures f == folder.id && TakesIn(mail.messages, folder, input)
    ensures exists k :: Decides(input.envelopes.value.data, k, uid)
  {
    PassLookup(mail, c, folder, input, f, uid);
    var m := LastFor(TakenIn(mail.messages, folder, input), f, uid).value;
    var data := input.envelopes.value.data;
    var at := BatchIsSubsequence(folder.id, data, input.clock);
    var i :| 0 <= i < |at| && BatchOf(folder.id, data, input.clock)[i] == m;
    ShowsExactlyWhen(data[at[i]], uid);
    var k := LastShown(data, at[i], uid);
  }

  lemma {:induction false} LastShown(data: seq<Data>, i: nat, uid: U32) returns (k: nat)
    requires i < |data| && Shows(data[i], uid)
    ensures Decides(data, k, uid)
    decreases |data| - i
  {
    if j :| i < j < |data| && Shows(data[j], uid) {
      k := LastShown(data, j, uid);
    } else {
      k := i;
    }
  }

  // ----- Messages listed again -----

  /** The server lists the message in the answer to the delta fetch. */
  ghost predicate Lists(data: seq<Data>, uid: U32) {
    exists d :: d in data && Ingestable(d) && LastUid(d.items) == Some(uid)
  }

  lemma ListedIsTaken(folder: nat, data: seq<Data>, clock: nat -> int, uid: U32)
    ensures LastFor(BatchOf(folder, data, clock), folder, uid).Some? <==> Lists(data, uid)
  {
    var batch := BatchOf(folder, data, clock);
    var at := BatchIsSubsequence(folder, data, clock);
    if LastFor(batch, folder, uid).Some? {
      var i :| 0 <= i < |batch| && batch[i] == LastFor(batch, folder, uid).value;
      assert data[at[i]] in data;
    }
    if Lists(data, uid) {
      var d :| d in data && Ingestable(d) && LastUid(d.items) == Some(uid);
      var k :| 0 <= k < |data| && data[k] == d;
      assert k in at;
      var i :| 0 <= i < |at| && at[i] == k;
      assert batch[i] in batch;
    }
  }

  /** The answer to the delta fetch lists nothing below the range asked for. */
  ghost predicate KeepsToRange(ms: seq<Message>, folder: FolderRow, input: PassInput) {
    IsAnswered(input.select) && Planned(ms, folder, input).Fetching? && IsAnswered(input.envelopes) ==>
      forall uid: U32 :: Lists(input.envelopes.value.data, uid) ==> Planned(ms, folder, input).start <= uid
  }

  /** The message is listed again: the largest UID could not be read, and the answer was taken in. */
  ghost predicate Relisted(input: PassInput, uid: U32) {
    && !input.maxUidRead
    && IsAnswered(input.select) && InfoOf(input.select.value).exists_ > 0
    && IsAnswered(input.envelopes) && input.ingestOk && Lists(input.envelopes.value.data, uid)
  }

  /** The last listing of a message in the answer. */
  function LastListing(folder: FolderRow, input: PassInput, uid: U32): Option<IngestMessage> {
    if !IsAnswered(input.envelopes) then None
    else LastFor(BatchOf(folder.id, input.envelopes.value.data, input.clock), folder.id, uid)
  }

  /**
   Whether a pass catches up on the flags of a message stored before it: with the
   folder not purged, it takes over the flags and date of the last listing exactly
   when the largest UID could not be read and the message is listed again;
   otherwise it leaves the message as it is.
   */
  lemma StoredFlagsExactlyWhen(mail: Mail, c: Config, folder: FolderRow, input: PassInput, m: Message)
    requires WellFormed(mail) && m in mail.messages && m.folder == folder.id
    requires !Purges(folder, input) && KeepsToRange(mail.messages, folder, input)
    ensures var after := Lookup(Pass(mail, c, folder, input).mail.messages, m.folder, m.uid);
            if Relisted(input, m.uid) then
              && LastListing(folder, input, m.uid).Some?
              && after == Some(Renewed(m, LastListing(folder, input, m.uid).value))
            else after == Some(m)
  {
    PassLookup(mail, c, folder, input, m.folder, m.uid);
    LookupIsMembership(mail, m);
    TakenExactlyWhen(mail.messages, folder, input, m);
    var after := Lookup(Pass(mail, c, folder, input).mail.messages, m.folder, m.uid);
    assert after.Some? && Keyed(after.value, m.folder, m.uid);
  }

  function Renewed(m: Message, i: IngestMessage): Message {
    m.(date := i.date, flags := i.flags)
  }

  /** A stored message is among those taken in exactly when it is listed again. */
  lemma TakenExactlyWhen(ms: seq<Message>, folder: FolderRow, input: PassInput, m: Message)
    requires Lookup(ms, m.folder, m.uid) == Some(m) && m.folder == folder.id && !Purges(folder, input)
    requires KeepsToRange(ms, folder, input)
    ensures Relisted(input, m.uid) ==> LastListing(folder, input, m.uid).Some?
    ensures LastFor(TakenIn(ms, folder, input), folder.id, m.uid) ==
            if Relisted(input, m.uid) then LastListing(folder, input, m.uid) else None
  {
    if IsAnswered(input.select) && IsAnswered(input.envelopes) {
      ListedIsTaken(folder.id, input.envelopes.value.data, input.clock, m.uid);
      KnownIsBelow(ms, folder, input, m);
    }
  }

  /** With the largest UID read, a stored message lies below the range asked for; otherwise the range starts at 1. */
  lemma KnownIsBelow(ms: seq<Message>, folder: FolderRow, input: PassInput, m: Message)
    requires Lookup(ms, m.folder, m.uid) == Some(m) && m.folder == folder.id && !Purges(folder, input)
    requires IsAnswered(input.select)
    ensures input.maxUidRead && Planned(ms, folder, input).Fetching? ==> m.uid < Planned(ms, folder, input).start
    ensures !input.maxUidRead ==>
              Planned(ms, folder, input) == if InfoOf(input.select.value).exists_ > 0 then Fetching(1) else Flags
  {
    MaxUidIsMaximum(ms, folder.id);
    assert Stored(ms, folder.id, m.uid);
  }

  /** After a purge exactly the messages listed are stored, with the flags listed. */
  lemma PurgeRefetches(mail: Mail, c: Config, folder: FolderRow, input: PassInput, uid: U32)
    requires Purges(folder, input)
    ensures var after := Lookup(Pass(mail, c, folder, input).mail.messages, folder.id, uid);
            if InfoOf(input.select.value).exists_ > 0 && IsAnswered(input.envelopes) && input.ingestOk
               && Lists(input.envelopes.value.data, uid) then
              && after.Some? && LastListing(folder, input, uid).Some?
              && after.value.flags == LastListing(folder, input, uid).value.flags
              && after.value.date == LastListing(folder, input, uid).value.date
            else after.None?
  {
    PassLookup(mail, c, folder, input, folder.id, uid);
    if IsAnswered(input.envelopes) {
      ListedIsTaken(folder.id, input.envelopes.value.data, input.clock, uid);
    }
    NothingKept(mail.messages, folder, input);
  }

  lemma NothingKept(ms: seq<Message>, folder: FolderRow, input: PassInput)
    requires Purges(folder, input)
    ensures MaxUid(Kept(ms, folder, input), folder.id).None?
  {
    MaxUidIsMaximum(Without(ms, folder.id), folder.id);
    if MaxUid(Without(ms, folder.id), folder.id).Some? {
      PurgeLookup(ms, folder.id, folder.id, MaxUid(Without(ms, folder.id), folder.id).value);
      assert false;
    }
  }

  // ----- A pass that catches up -----

  /** The largest UID cannot be read, so the one message is listed again, now as seen. */
  const UnreadMaximum: PassInput := PassInput(
    Some(Reply(Some(1), 3, Some(7))), Writes(true, true, true, true), false,
    Some(CommandOutcome(Tagged("K2", OK, None), [Envelope(2, 10, [Known(Seen)])], [])), Clock, true, true, None,
    _ => true, false, _ => NoBody)

  /**
   The input that shows it: a stored message without flags, in a reachable state
   whatever the server advertises, and a conforming pass after which it is stored as
   seen.
   */
  lemma UnreadMaximumCatchesUp(c: Config)
    ensures var w := FlagTheorems.WaitingWorld(c);
            var folder := w.client.todo[0];
            var r := Pass(w.mail, c, folder, UnreadMaximum);
            && Reachable(c, w) && Conforms(w.mail, c, folder, UnreadMaximum, w.server, w.server) && r.ok
            && Lookup(w.mail.messages, 0, 2) == Some(OldMessage)
            && Lookup(r.mail.messages, 0, 2) == Some(OldMessage.(flags := [Seen]))
  {
    var w := FlagTheorems.WaitingWorld(c);
    FlagTheorems.WaitingIsReachable(c);
    SeenIsListed();
    SeenIsAnswered(c, w.mail);
    PassLookup(w.mail, c, Row(c, 1, 5), UnreadMaximum, 0, 2);
    TakenSeen(c);
    var after := Lookup(Pass(w.mail, c, Row(c, 1, 5), UnreadMaximum).mail.messages, 0, 2);
    assert after.Some? && Keyed(after.value, 0, 2);
  }

  lemma SeenIsListed()
    ensures InfoOf(UnreadMaximum.select.value) == SelectInfo(1, 3, 7, 1)
    ensures BatchOf(0, UnreadMaximum.envelopes.value.data, Clock) == [IngestMessage(0, 2, 10, [Seen], None, 0)]
  {
    EnvelopeReads(2, 10, [Known(Seen)]);
    ReplyReads(Some(1), 3, Some(7));
    var flags: seq<WireFlag> := [Known(Seen)];
    assert flags[..0] == [] && KnownFlags(flags) == [Seen];
  }

  lemma SeenIsAnswered(c: Config, mail: Mail)
    requires mail == Holding(c, 1, 5)
    ensures Conforms(mail, c, Row(c, 1, 5), UnreadMaximum, map[BOX := FlagTheorems.BusyBox],
                     map[BOX := FlagTheorems.BusyBox])
    ensures Pass(mail, c, Row(c, 1, 5), UnreadMaximum).ok
  {
    SeenIsListed();
    EnvelopeReads(2, 10, [Known(Seen)]);
    ReplyAnswers(c, FlagTheorems.BusyBox, Some(1), Some(7));
    var data := UnreadMaximum.envelopes.value.data;
    assert data[0] in data && FetchAnswer(FlagTheorems.BusyBox, 1, 2, data);
  }

  lemma TakenSeen(c: Config)
    ensures !Purges(Row(c, 1, 5), UnreadMaximum)
    ensures LastFor(TakenIn([OldMessage], Row(c, 1, 5), UnreadMaximum), 0, 2)
            == Some(IngestMessage(0, 2, 10, [Seen], None, 0))
  {
    SeenIsListed();
  }
}
