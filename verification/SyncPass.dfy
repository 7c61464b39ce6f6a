/**
 One pass of the sync engine over a folder. `Pass` says what a pass does to the
 mail tables and which events it sends, given the answers it gets; the class
 `SyncService` is the engine itself, which works on the store in place.
 */
module SyncPass {
  import opened Wrappers
  import opened Store
  import opened Wire
  import opened ReferenceStore
  import opened FolderProtocol

  datatype EngineEvent =
    | MailArrived(account: nat, folder: nat, arrived: U32, total: nat, unread: nat)
    | MessagesChanged(folder: nat, changed: U32, removed: U32)
    | FlagsChanged(messages: seq<nat>)

  /** What happens when the body of a message is asked for. */
  datatype BodyAnswer = NoBody | BlobRefused(raw: Bytes) | IngestRefused(raw: Bytes) | Received(raw: Bytes)

  /**
   Everything a pass learns from outside: the outcome of each command (None for a
   transport error or timeout) and which store reads and writes succeed.
   */
  datatype PassInput = PassInput(
    select: Option<CommandOutcome>,
    writes: Writes,
    maxUidRead: bool,
    envelopes: Option<CommandOutcome>,
    clock: nat -> int,
    ingestOk: bool,
    summariesRead: bool,
    flags: Option<CommandOutcome>,
    lookupRead: U32 -> bool,
    prefetchListed: bool,
    bodies: U32 -> BodyAnswer)

  /** Which of the writes succeed whose errors the engine drops. */
  datatype Writes = Writes(purge: bool, zeroModseq: bool, cursors: bool, flagCursor: bool)

  datatype PassResult = PassResult(mail: Mail, events: seq<EngineEvent>, ok: bool)

  function Saturate(n: nat): U32 {
    if n <= U32_MAX then n else U32_MAX
  }

  // ----- The phases of a pass -----

  function TryCursors(mail: Mail, c: Config, id: nat, v: U32, q: U64, ok: bool): Mail {
    if ok then UpdateCursors(mail, c.literalZero, id, v, Some(q)) else mail
  }

  function AfterReconcile(mail: Mail, c: Config, folder: FolderRow, info: SelectInfo, writes: Writes): PassResult {
    if EpochChanged(folder, info) then
      var purged := if writes.purge then Purge(mail, folder.id) else mail;
      var removed := if writes.purge then Count(mail.messages, folder.id) else 0;
      var zeroed := TryCursors(purged, c, folder.id, info.uidValidity, 0, writes.zeroModseq);
      PassResult(TryCursors(zeroed, c, folder.id, info.uidValidity, info.highestModseq, writes.cursors),
                 [MessagesChanged(folder.id, 0, Saturate(removed))], true)
    else if info.uidValidity != 0 then
      PassResult(TryCursors(mail, c, folder.id, info.uidValidity, info.highestModseq, writes.cursors), [], true)
    else PassResult(mail, [], true)
  }

  function SummaryIn(summaries: seq<FolderSummary>, id: nat): Option<FolderSummary> {
    if summaries == [] then None
    else if summaries[0].id == id then Some(summaries[0])
    else SummaryIn(summaries[1..], id)
  }

  function Arrival(mail: Mail, account: nat, folder: nat, arrived: nat, summariesRead: bool): EngineEvent {
    var summary := if summariesRead then SummaryIn(Summaries(mail, account), folder) else None;
    MailArrived(account, folder, Saturate(arrived),
                if summary.Some? then summary.value.total else 0, if summary.Some? then summary.value.unread else 0)
  }

  lemma {:induction false} FirstSummary(summaries: seq<FolderSummary>, id: nat, i: nat)
    requires i < |summaries| && summaries[i].id == id && forall j :: 0 <= j < i ==> summaries[j].id != id
    ensures SummaryIn(summaries, id) == Some(summaries[i])
  {
    if i > 0 {
      FirstSummary(summaries[1..], id, i - 1);
    }
  }

  /**
   The arrival names the folder, how many messages were listed (as far as a 32-bit
   number goes), and the folder's messages and unread messages among `ms`; both read
   0 for a Sent folder and when the summaries cannot be read.
   */
  ghost predicate Tells(e: EngineEvent, account: nat, row: FolderRow, listed: nat, summariesRead: bool,
                        ms: seq<Message>) {
    && e.MailArrived? && e.account == account && e.folder == row.id
    && e.arrived == (if listed <= U32_MAX then listed else U32_MAX)
    && if summariesRead && row.role != Some(FolderRole.Sent) then
         e.total == |PlacesOf(ms, row.id)| && e.unread == |UnseenOf(ms, row.id)|
       else e.total == e.unread == 0
  }

  lemma ArrivalCounts(mail: Mail, account: nat, row: FolderRow, arrived: nat, summariesRead: bool)
    requires WellFormed(mail) && row in mail.folders && row.account == account
    ensures Tells(Arrival(mail, account, row.id, arrived, summariesRead), account, row, arrived, summariesRead,
                  mail.messages)
  {
    var own, at := SummariesExactly(mail.folders, mail.messages, account);
    var k :| 0 <= k < |mail.folders| && mail.folders[k] == row;
    var i := PickOf(mail.folders, Own(account), own, at, k);
    var summaries := Summaries(mail, account);
    assert Own(account)(mail.folders[at[i]]) == Some(own[i]);
    forall j | 0 <= j < i
      ensures summaries[j].id != row.id
    {
      assert Own(account)(mail.folders[at[j]]) == Some(own[j]) && at[j] < k;
    }
    FirstSummary(summaries, row.id, i);
  }

  function AfterIngest(mail: Mail, c: Config, folder: nat, data: seq<Data>, input: PassInput): PassResult {
    var batch := BatchOf(folder, data, input.clock);
    if batch == [] then PassResult(mail, [], true)
    else if !input.ingestOk then PassResult(mail, [], false)
    else
      var after := Ingest(mail, batch);
      var arrival := Arrival(after, c.account, folder, |batch|, input.summariesRead);
      PassResult(after, if Stats(mail, batch).inserted > 0 then [arrival] else [], true)
  }

  function AfterFetch(mail: Mail, c: Config, folder: nat, info: SelectInfo, input: PassInput): PassResult {
    if DeltaPhase(mail.messages, folder, info, input.maxUidRead) == Flags then PassResult(mail, [], true)
    else if input.envelopes.None? || !input.envelopes.value.IsOk() then PassResult(mail, [], false)
    else AfterIngest(mail, c, folder, input.envelopes.value.data, input)
  }

  /** The ids of the stored messages among `uids`, in order. */
  function IdsOf(ms: seq<Message>, folder: nat, uids: seq<U32>, lookupRead: U32 -> bool): seq<nat> {
    if uids == [] then []
    else
      var rest, last := IdsOf(ms, folder, uids[..|uids| - 1], lookupRead), uids[|uids| - 1];
      if lookupRead(last) && Stored(ms, folder, last) then rest + [Lookup(ms, folder, last).value.id] else rest
  }

  /** The id of the stored message with a UID. */
  function IdIn(ms: seq<Message>, folder: nat, lookupRead: U32 -> bool): U32 -> Option<nat> {
    (uid: U32) =>
      if lookupRead(uid) && Stored(ms, folder, uid) then Some(Lookup(ms, folder, uid).value.id) else None
  }

  lemma {:induction false} IdsExactly(ms: seq<Message>, folder: nat, uids: seq<U32>, lookupRead: U32 -> bool)
    returns (at: seq<nat>)
    ensures Picks(uids, IdIn(ms, folder, lookupRead), IdsOf(ms, folder, uids, lookupRead), at)
  {
    at := [];
    if uids != [] {
      at := IdsExactly(ms, folder, uids[..|uids| - 1], lookupRead);
      at := PicksLast(uids, IdIn(ms, folder, lookupRead), IdsOf(ms, folder, uids[..|uids| - 1], lookupRead), at);
    }
  }

  function AfterFlags(mail: Mail, c: Config, folder: FolderRow, info: SelectInfo, input: PassInput): PassResult {
    if !(c.condstore && folder.highestModseq > 0) || input.flags.None? || !input.flags.value.IsOk() then
      PassResult(mail, [], true)
    else
      var ids := IdsOf(mail.messages, folder.id, FlagUids(input.flags.value.data), input.lookupRead);
      PassResult(TryCursors(mail, c, folder.id, 0, info.highestModseq,
                            info.highestModseq > folder.highestModseq && input.writes.flagCursor),
                 if ids == [] then [] else [FlagsChanged(ids)], true)
  }

  function Then(first: PassResult, second: PassResult): PassResult {
    PassResult(second.mail, first.events + second.events, second.ok)
  }

  function AfterDelta(mail: Mail, c: Config, folder: FolderRow, info: SelectInfo, input: PassInput): PassResult {
    var reconciled := AfterReconcile(mail, c, folder, info, input.writes);
    Then(reconciled, AfterFetch(reconciled.mail, c, folder.id, info, input))
  }

  /** A whole pass; the body prefetch at its end leaves the mail tables as they are. */
  function Pass(mail: Mail, c: Config, folder: FolderRow, input: PassInput): PassResult {
    if input.select.None? then PassResult(mail, [], false)
    else if !input.select.value.IsOk() then PassResult(mail, [], true)
    else
      var info := InfoOf(input.select.value);
      var fetched := AfterDelta(mail, c, folder, info, input);
      if !fetched.ok then fetched
      else Then(fetched, AfterFlags(fetched.mail, c, folder, info, input))
  }

  // ----- Paged search -----

  const PAGE_LIMIT: nat := 500

  /** Position of the first row with the given UID, or the length. */
  function FindUid(rows: seq<Message>, uid: U32): (i: nat)
    ensures i <= |rows|
    ensures i < |rows| ==> rows[i].uid == uid
    ensures forall j :: 0 <= j < i ==> rows[j].uid != uid
  {
    if rows == [] || rows[0].uid == uid then 0 else 1 + FindUid(rows[1..], uid)
  }

  /** A page that reaches the first match shows it there; any other page shows none. */
  lemma PageSearch(rows: seq<Message>, uid: U32, offset: nat, limit: nat, target: nat)
    requires offset <= target == FindUid(rows, uid) && limit > 0
    ensures var page := Page(rows, offset, limit);
            && (page == [] ==> offset == |rows|)
            && (if target < |rows| && target < offset + |page| then
                  FindUid(page, uid) == target - offset && page[target - offset] == rows[target]
                else FindUid(page, uid) == |page| && offset + |page| <= target)
  {
    var page := Page(rows, offset, limit);
    assert forall j :: 0 <= j < |page| ==> page[j] == rows[offset + j];
    if target < |rows| && target < offset + |page| {
      assert page[target - offset] == rows[target];
    }
  }

  /** Searching a whole listing finds the stored message with the UID, and only that one. */
  lemma ListingFindsStored(mail: Mail, folder: nat, field: SortField, descending: bool, uid: U32)
    requires WellFormed(mail)
    ensures var rows := Listing(mail.messages, folder, field, descending);
            var i := FindUid(rows, uid);
            Lookup(mail.messages, folder, uid) == if i < |rows| then Some(rows[i]) else None
  {
    var rows, found := Listing(mail.messages, folder, field, descending), Lookup(mail.messages, folder, uid);
    var i := FindUid(rows, uid);
    if found.Some? {
      ListingMembers(mail.messages, folder, field, descending, found.value);
    }
    if i < |rows| {
      ListingMembers(mail.messages, folder, field, descending, rows[i]);
      LookupIsMembership(mail, rows[i]);
    }
  }

  // ----- Blobs -----

  /** Blobs are only ever added. */
  ghost predicate KeepsBlobs(before: seq<(string, Bytes)>, after: seq<(string, Bytes)>) {
    forall hash :: Find(before, hash).Some? ==> Find(after, hash) == Find(before, hash)
  }

  predicate HasBody(blobs: seq<(string, Bytes)>, digest: Bytes -> string, answer: BodyAnswer) {
    answer.Received? || answer.IngestRefused? ==> Find(blobs, digest(answer.raw)).Some?
  }

  ghost predicate HasBodies(blobs: seq<(string, Bytes)>, digest: Bytes -> string, items: seq<Message>,
                            bodies: U32 -> BodyAnswer) {
    forall m :: m in items ==> HasBody(blobs, digest, bodies(m.uid))
  }

  lemma HasBodiesStep(first: seq<(string, Bytes)>, before: seq<(string, Bytes)>, after: seq<(string, Bytes)>,
                      digest: Bytes -> string, items: seq<Message>, m: Message, bodies: U32 -> BodyAnswer)
    requires KeepsBlobs(first, before) && KeepsBlobs(before, after)
    requires HasBodies(before, digest, items, bodies) && HasBody(after, digest, bodies(m.uid))
    ensures KeepsBlobs(first, after) && HasBodies(after, digest, items + [m], bodies)
  {
  }

  /** The bodies fetched ahead are those of the newest messages: nothing left out is newer than one of them. */
  lemma PrefetchIsNewest(ms: seq<Message>, folder: nat, limit: nat, m: Message)
    requires m in ms && m.folder == folder
    ensures var page := Page(Listing(ms, folder, ByDate, true), 0, limit);
            && |page| == Min(limit, Count(ms, folder))
            && (m in page || forall p :: p in page ==> m.date <= p.date)
  {
    var rows := Listing(ms, folder, ByDate, true);
    var page := Page(rows, 0, limit);
    WindowOfListing(ms, folder, ByDate, true, 0, limit);
    ListingMembers(ms, folder, ByDate, true, m);
    var j :| 0 <= j < |rows| && rows[j] == m;
    assert j < |page| ==> page[j] == rows[0 + j];
    if m !in page {
      forall p | p in page
        ensures m.date <= p.date
      {
        var i :| 0 <= i < |page| && page[i] == p;
        assert page[i] == rows[0 + i];
        ListingByField(ms, folder, ByDate, true, i, j);
      }
    }
  }

  // ----- The engine -----

  class SyncService {
    const c: Config
    const store: MemStore
    var bus: seq<EngineEvent>

    constructor (c: Config, store: MemStore)
      requires store.literalZero == c.literalZero
      ensures Valid() && this.c == c && this.store == store && bus == []
    {
      this.c, this.store, bus := c, store, [];
    }

    predicate Valid() {
      store.literalZero == c.literalZero
    }

    /** The store and the bus are now as `result` says, the bus having held `before`. */
    predicate Did(before: seq<EngineEvent>, ok: bool, result: PassResult)
      reads this, store
    {
      store.State() == result.mail && bus == before + result.events && ok == result.ok
    }

    method SelectInfoFrom(outcome: CommandOutcome) returns (info: SelectInfo)
      ensures info == InfoOf(outcome)
    {
      info := SelectInfo(0, 0, 0, 0);
      for k := 0 to |outcome.data|
        invariant info == SelectInfo(0, 0, 0, LastExists(outcome.data[..k]))
      {
        assert outcome.data[..k + 1][..k] == outcome.data[..k];
        if outcome.data[k].Exists? {
          info := info.(exists_ := outcome.data[k].count);
        }
      }
      assert outcome.data[..|outcome.data|] == outcome.data;
      var ss := Statuses(outcome);
      for k := 0 to |ss|
        invariant info == SelectInfo(LastUidValidity(ss[..k]), LastUidNext(ss[..k]), LastModseq(ss[..k]),
                                     LastExists(outcome.data))
      {
        assert ss[..k + 1][..k] == ss[..k];
        match StatusCode(ss[k]) {
          case Some(UidValidity(v)) => info := info.(uidValidity := v);
          case Some(UidNext(n)) => info := info.(uidNext := n);
          case Some(HighestModSeq(m)) => info := info.(highestModseq := m);
          case _ =>
        }
      }
      assert ss[..|ss|] == ss;
    }

    /** Reads the items of one FETCH response; later items of a kind override earlier ones. */
    method ReadItems(items: seq<FetchItem>, now: int)
      returns (uid: Option<U32>, flags: seq<Flag>, date: int, size: nat, envelope: Option<string>)
      ensures uid == LastUid(items) && envelope == LastEnvelope(items)
      ensures flags == KnownFlags(LastFlags(items).GetOr([]))
      ensures date == LastDate(items).GetOr(now) && size == LastSize(items).GetOr(0)
    {
      uid, flags, date, size, envelope := None, [], now, 0, None;
      for k := 0 to |items|
        invariant uid == LastUid(items[..k]) && envelope == LastEnvelope(items[..k])
        invariant flags == KnownFlags(LastFlags(items[..k]).GetOr([]))
        invariant date == LastDate(items[..k]).GetOr(now) && size == LastSize(items[..k]).GetOr(0)
      {
        assert items[..k + 1][..k] == items[..k];
        match items[k] {
          case UidItem(u) => uid := Some(u);
          case FlagsItem(fl) => flags := KnownFlags(fl);
          case DateItem(d) => date := d;
          case SizeItem(n) => size := n;
          case EnvelopeItem(e) => envelope := Some(e);
          case _ =>
        }
      }
      assert items[..|items|] == items;
    }

    method IngestFetchData(folder: FolderRow, outcome: CommandOutcome, input: PassInput) returns (ok: bool)
      requires Valid()
      modifies this`bus, store`messages, store`nextId, store`ingestInserted
      ensures Did(old(bus), ok, AfterIngest(old(store.State()), c, folder.id, outcome.data, input))
    {
      var data := outcome.data;
      var batch: seq<IngestMessage> := [];
      for k := 0 to |data|
        invariant batch == BatchOf(folder.id, data[..k], input.clock)
        modifies {}
      {
        assert data[..k + 1][..k] == data[..k];
        if data[k].Fetch? {
          var uid, flags, date, size, envelope := ReadItems(data[k].items, input.clock(k));
          if uid.Some? && envelope.Some? {
            batch := batch + [IngestMessage(folder.id, uid.value, date, flags, None, size)];
          }
        }
      }
      assert data[..|data|] == data;
      if batch == [] {
        return true;
      }
      var arrived := |batch|;
      if !input.ingestOk {
        return false;
      }
      var stats := store.IngestBatch(batch);
      if stats.inserted > 0 {
        var summaries := store.ListFolders(c.account);
        var summary := if input.summariesRead then SummaryIn(summaries, folder.id) else None;
        bus := bus + [MailArrived(c.account, folder.id, Saturate(arrived),
                                  if summary.Some? then summary.value.total else 0,
                                  if summary.Some? then summary.value.unread else 0)];
      }
      ok := true;
    }

    method FetchAndIngest(folder: FolderRow, start: U32, uidNext: U32, input: PassInput) returns (ok: bool)
      requires Valid()
      modifies this`bus, store`messages, store`nextId, store`ingestInserted
      ensures Did(old(bus), ok,
                  if start > NextBound(uidNext) then PassResult(old(store.State()), [], true)
                  else if input.envelopes.None? || !input.envelopes.value.IsOk() then
                    PassResult(old(store.State()), [], false)
                  else AfterIngest(old(store.State()), c, folder.id, input.envelopes.value.data, input))
    {
      var end := NextBound(uidNext);
      if start > end {
        return true;
      }
      if input.envelopes.None? || !input.envelopes.value.IsOk() {
        return false;
      }
      ok := IngestFetchData(folder, input.envelopes.value, input);
    }

    /**
     Walks the folder's listing page by page. `window(o)` is the most the store gives
     at offset `o`, where it is asked for `PAGE_LIMIT` messages; any page may be short
     but none is empty before the end.
     */
    method MessageByUid(folder: nat, uid: U32, window: nat -> nat, readable: bool) returns (id: Option<nat>)
      requires WellFormed(store.State()) && forall o: nat :: window(o) > 0
      ensures id == if readable && Stored(store.messages, folder, uid) then
                      Some(Lookup(store.messages, folder, uid).value.id)
                    else None
    {
      ghost var rows := Listing(store.messages, folder, ByUid, false);
      ghost var target := FindUid(rows, uid);
      ListingFindsStored(store.State(), folder, ByUid, false, uid);
      var offset := 0;
      while true
        invariant 0 <= offset <= target
        decreases |rows| - offset
      {
        if !readable {
          return None;
        }
        var page := store.ListMessages(folder, offset, window(offset), ByUid, false);
        if page.items == [] {
          return None;
        }
        PageSearch(rows, uid, offset, window(offset), target);
        var i := FindUid(page.items, uid);
        if i < |page.items| {
          return Some(page.items[i].id);
        }
        offset := offset + |page.items|;
        if offset >= page.total {
          return None;
        }
      }
    }

    method ChangedIds(folder: nat, data: seq<Data>, lookupRead: U32 -> bool) returns (changed: seq<nat>)
      requires WellFormed(store.State())
      ensures changed == IdsOf(store.messages, folder, FlagUids(data), lookupRead)
    {
      changed := [];
      for k := 0 to |data|
        invariant changed == IdsOf(store.messages, folder, FlagUids(data[..k]), lookupRead)
      {
        assert data[..k + 1][..k] == data[..k];
        var us := FromData(data[k]);
        ghost var before := FlagUids(data[..k]);
        for j := 0 to |us|
          invariant |us| <= 1
          invariant changed == IdsOf(store.messages, folder, if j == 0 then before else FlagUids(data[..k + 1]),
                                     lookupRead)
        {
          if us[j].SawFlags? {
            var id := MessageByUid(folder, us[j].uid, _ => PAGE_LIMIT, lookupRead(us[j].uid));
            if id.Some? {
              changed := changed + [id.value];
            }
            assert (before + [us[j].uid])[..|before|] == before;
          }
        }
      }
      assert data[..|data|] == data;
    }

    method FlagPass(folder: FolderRow, info: SelectInfo, input: PassInput)
      requires Valid() && WellFormed(store.State())
      modifies this`bus, store`folders
      ensures Did(old(bus), true, AfterFlags(old(store.State()), c, folder, info, input))
    {
      if c.condstore && folder.highestModseq > 0 {
        if input.flags.Some? && input.flags.value.IsOk() {
          var changed := ChangedIds(folder.id, input.flags.value.data, input.lookupRead);
          if changed != [] {
            bus := bus + [FlagsChanged(changed)];
          }
          if info.highestModseq > folder.highestModseq && input.writes.flagCursor {
            var _ := store.UpdateSyncCursors(folder.id, 0, Some(info.highestModseq));
          }
        }
      }
    }

    /** Stores one body and re-ingests its message, which was listed as `m`. */
    method StoreBody(folder: FolderRow, m: Message, answer: BodyAnswer)
      requires Valid() && WellFormed(store.State())
      requires m in store.messages && m.folder == folder.id
      modifies store`messages, store`nextId, store`ingestInserted, store`blobs
      ensures store.State() == old(store.State()) && store.ingestInserted == old(store.ingestInserted)
      ensures KeepsBlobs(old(store.blobs), store.blobs)
      ensures HasBody(store.blobs, store.digest, answer)
    {
      match answer {
        case NoBody =>
        case BlobRefused(_) =>
        case IngestRefused(raw) =>
          var _ := store.WriteBlob(raw);
        case Received(raw) =>
          var hash := store.WriteBlob(raw);
          OwnBodyIsNoChange(store.State(), m, hash, |raw|);
          var _ := store.IngestBatch([BodyMessage(m.folder, m, hash, |raw|)]);
      }
    }

    /**
     Stores the newest bodies. Each message is re-ingested with the date and flags
     it was listed with, so the mail tables end exactly as they were.
     */
    method PrefetchRecent(folder: FolderRow, input: PassInput)
      requires Valid() && WellFormed(store.State())
      modifies store`messages, store`nextId, store`ingestInserted, store`blobs
      ensures store.State() == old(store.State()) && store.ingestInserted == old(store.ingestInserted)
      ensures KeepsBlobs(old(store.blobs), store.blobs)
      ensures input.prefetchListed ==>
                HasBodies(store.blobs, store.digest,
                          Page(Listing(old(store.messages), folder.id, ByDate, true), 0, c.prefetchLimit), input.bodies)
    {
      if input.prefetchListed {
        var page := store.ListMessages(folder.id, 0, c.prefetchLimit, ByDate, true);
        forall m | m in page.items
          ensures m in store.messages && m.folder == folder.id
        {
          ListingMembers(store.messages, folder.id, ByDate, true, m);
        }
        StoreBodies(folder, page.items, input.bodies);
      }
    }

    method StoreBodies(folder: FolderRow, items: seq<Message>, bodies: U32 -> BodyAnswer)
      requires Valid() && WellFormed(store.State())
      requires forall m :: m in items ==> m in store.messages && m.folder == folder.id
      modifies store`messages, store`nextId, store`ingestInserted, store`blobs
      ensures store.State() == old(store.State()) && store.ingestInserted == old(store.ingestInserted)
      ensures KeepsBlobs(old(store.blobs), store.blobs)
      ensures HasBodies(store.blobs, store.digest, items, bodies)
    {
      for k := 0 to |items|
        invariant store.State() == old(store.State()) && store.ingestInserted == old(store.ingestInserted)
        invariant KeepsBlobs(old(store.blobs), store.blobs)
        invariant HasBodies(store.blobs, store.digest, items[..k], bodies)
      {
        ghost var before := store.blobs;
        StoreBody(folder, items[k], bodies(items[k].uid));
        HasBodiesStep(old(store.blobs), before, store.blobs, store.digest, items[..k], items[k], bodies);
        assert items[..k + 1] == items[..k] + [items[k]];
      }
      assert items[..|items|] == items;
    }

    /** A changed UIDVALIDITY purges the folder and resets its cursors; otherwise the cursors move on. */
    method ReconcileFolder(folder: FolderRow, info: SelectInfo, writes: Writes)
      requires Valid()
      modifies this`bus, store`folders, store`messages
      ensures Did(old(bus), true, AfterReconcile(old(store.State()), c, folder, info, writes))
    {
      if EpochChanged(folder, info) {
        var removed := 0;
        if writes.purge {
          removed := store.PurgeFolder(folder.id);
        }
        if writes.zeroModseq {
          var _ := store.UpdateSyncCursors(folder.id, info.uidValidity, Some(0));
        }
        bus := bus + [MessagesChanged(folder.id, 0, Saturate(removed))];
        if writes.cursors {
          var _ := store.UpdateSyncCursors(folder.id, info.uidValidity, Some(info.highestModseq));
        }
      } else if info.uidValidity != 0 && writes.cursors {
        var _ := store.UpdateSyncCursors(folder.id, info.uidValidity, Some(info.highestModseq));
      }
    }

    /** Fetches envelopes beyond the stored maximum. */
    method DeltaPass(folder: FolderRow, info: SelectInfo, input: PassInput) returns (ok: bool)
      requires Valid()
      modifies this`bus, store`messages, store`nextId, store`ingestInserted
      ensures Did(old(bus), ok, AfterFetch(old(store.State()), c, folder.id, info, input))
    {
      ok := true;
      var max := store.MaxUid(folder.id);
      var start := if input.maxUidRead && max.Some? then SaturatingInc(max.value) else 1;
      if info.exists_ > 0 && start <= NextBound(info.uidNext) {
        ok := FetchAndIngest(folder, start, info.uidNext, input);
      }
    }

    method ReconcileAndFetch(folder: FolderRow, info: SelectInfo, input: PassInput) returns (ok: bool)
      requires Valid() && WellFormed(store.State())
      modifies this`bus, store`folders, store`messages, store`nextId, store`ingestInserted
      ensures Did(old(bus), ok, AfterDelta(old(store.State()), c, folder, info, input))
      ensures WellFormed(store.State())
    {
      DeltaKeepsWellFormed(store.State(), c, folder, info, input);
      ReconcileFolder(folder, info, input.writes);
      ok := DeltaPass(folder, info, input);
    }

    /** What follows an OK SELECT. */
    method SyncSelected(folder: FolderRow, info: SelectInfo, input: PassInput) returns (ok: bool)
      requires Valid() && WellFormed(store.State())
      modifies this`bus, store
      ensures var fetched := AfterDelta(old(store.State()), c, folder, info, input);
              Did(old(bus), ok,
                  if fetched.ok then Then(fetched, AfterFlags(fetched.mail, c, folder, info, input)) else fetched)
      ensures WellFormed(store.State())
      ensures KeepsBlobs(old(store.blobs), store.blobs)
    {
      ghost var fetched := AfterDelta(store.State(), c, folder, info, input);
      ok := ReconcileAndFetch(folder, info, input);
      if ok {
        Associate(old(bus), fetched.events, AfterFlags(fetched.mail, c, folder, info, input).events);
        FlagsKeepWellFormed(store.State(), c, folder, info, input);
        FlagPass(folder, info, input);
        PrefetchRecent(folder, input);
      }
    }

    /** SELECT and delta sync of one folder. */
    method SyncFolder(folder: FolderRow, input: PassInput) returns (ok: bool)
      requires Valid() && WellFormed(store.State())
      modifies this`bus, store
      ensures Did(old(bus), ok, Pass(old(store.State()), c, folder, input))
      ensures WellFormed(store.State())
      ensures KeepsBlobs(old(store.blobs), store.blobs)
    {
      if input.select.None? {
        return false;
      }
      if !input.select.value.IsOk() {
        return true;
      }
      var info := SelectInfoFrom(input.select.value);
      ok := SyncSelected(folder, info, input);
    }
  }

  lemma ReconcileKeepsWellFormed(mail: Mail, c: Config, folder: FolderRow, info: SelectInfo, writes: Writes)
    requires WellFormed(mail)
    ensures WellFormed(AfterReconcile(mail, c, folder, info, writes).mail)
  {
    PurgeKeepsWellFormed(mail, folder.id);
    var purged := if EpochChanged(folder, info) && writes.purge then Purge(mail, folder.id) else mail;
    CursorsKeepWellFormed(purged, c.literalZero, folder.id, info.uidValidity, Some(0));
    var zeroed := TryCursors(purged, c, folder.id, info.uidValidity, 0,
                             EpochChanged(folder, info) && writes.zeroModseq);
    CursorsKeepWellFormed(zeroed, c.literalZero, folder.id, info.uidValidity, Some(info.highestModseq));
  }

  lemma FetchKeepsWellFormed(mail: Mail, c: Config, folder: nat, info: SelectInfo, input: PassInput)
    requires WellFormed(mail)
    ensures WellFormed(AfterFetch(mail, c, folder, info, input).mail)
  {
    if input.envelopes.Some? {
      IngestKeepsWellFormed(mail, BatchOf(folder, input.envelopes.value.data, input.clock));
    }
  }

  lemma DeltaKeepsWellFormed(mail: Mail, c: Config, folder: FolderRow, info: SelectInfo, input: PassInput)
    requires WellFormed(mail)
    ensures WellFormed(AfterDelta(mail, c, folder, info, input).mail)
  {
    ReconcileKeepsWellFormed(mail, c, folder, info, input.writes);
    FetchKeepsWellFormed(AfterReconcile(mail, c, folder, info, input.writes).mail, c, folder.id, info, input);
  }

  lemma FlagsKeepWellFormed(mail: Mail, c: Config, folder: FolderRow, info: SelectInfo, input: PassInput)
    requires WellFormed(mail)
    ensures WellFormed(AfterFlags(mail, c, folder, info, input).mail)
  {
    CursorsKeepWellFormed(mail, c.literalZero, folder.id, 0, Some(info.highestModseq));
  }

  lemma PassKeepsWellFormed(mail: Mail, c: Config, folder: FolderRow, input: PassInput)
    requires WellFormed(mail)
    ensures WellFormed(Pass(mail, c, folder, input).mail)
  {
    if input.select.Some? {
      var info := InfoOf(input.select.value);
      DeltaKeepsWellFormed(mail, c, folder, info, input);
      FlagsKeepWellFormed(AfterDelta(mail, c, folder, info, input).mail, c, folder, info, input);
    }
  }

  /** Re-ingesting a stored message under its own date and flags changes nothing and inserts nothing. */
  lemma OwnBodyIsNoChange(mail: Mail, m: Message, hash: string, size: nat)
    requires WellFormed(mail) && m in mail.messages
    ensures Ingest(mail, [BodyMessage(m.folder, m, hash, size)]) == mail
    ensures Stats(mail, [BodyMessage(m.folder, m, hash, size)]).inserted == 0
  {
    var body := [BodyMessage(m.folder, m, hash, size)];
    LookupIsMembership(mail, m);
    assert body[..0] == [] && Ingest(mail, body[..0]) == mail;
    var i := FindMessage(mail.messages, m.folder, m.uid);
    assert mail.messages[i := m] == mail.messages;
  }
}
