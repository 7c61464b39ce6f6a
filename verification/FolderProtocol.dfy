/**
 The folder-sync protocol as a step system: a server whose mailboxes change on
 their own, the store, and the client's position inside a sync cycle. Every
 store operation and every exchange with the server is one step, so a run may be
 cut off between any two of them.
 */
module FolderProtocol {
  import opened Wrappers
  import opened Store
  import opened Wire

  // ----- The server (RFC 3501, sections 2.3.1.1 and 6.3.1; RFC 7162, section 3.1.2.1) -----

  /**
   `live` maps the UIDs of the messages now in the mailbox to their mod-sequences.
   `log` is the server's filing history: the internal date of the one message that
   was ever given a UID under a UIDVALIDITY.
   */
  datatype Mailbox = Mailbox(uidValidity: NonZeroU32, uidNext: NonZeroU32, live: map<U32, U64>, highestModseq: U64,
                             log: map<(U32, U32), int>)

  type Server = map<string, Mailbox>

  ghost predicate MailboxOk(mb: Mailbox) {
    && (forall u :: u in mb.live ==>
          1 <= u < mb.uidNext && mb.live[u] <= mb.highestModseq && (mb.uidValidity, u) in mb.log)
    && (forall v, u :: (v, u) in mb.log ==> 1 <= v <= mb.uidValidity && (v == mb.uidValidity ==> u < mb.uidNext))
  }

  datatype ServerStep =
    | Create(name: string, created: Mailbox)
    | Append(name: string, uid: U32, next: U32, modseq: U64, date: int)
    | Expunge(name: string, uid: U32, modseq: U64)
    | Reflag(name: string, uid: U32, modseq: U64)
    | Reset(name: string, reborn: Mailbox)

  ghost predicate ServerNext(s: Server, s': Server, step: ServerStep) {
    match step
    case Create(name, mb) =>
      name !in s && MailboxOk(mb) && s' == s[name := mb]
    case Append(name, uid, next, modseq, date) =>
      && name in s && s[name].uidNext <= uid < next && s[name].highestModseq < modseq
      && var mb := s[name];
         s' == s[name := mb.(uidNext := next, live := mb.live[uid := modseq], highestModseq := modseq,
                             log := mb.log[(mb.uidValidity as U32, uid) := date])]
    case Expunge(name, uid, modseq) =>
      && name in s && uid in s[name].live && s[name].highestModseq <= modseq
      && s' == s[name := s[name].(live := s[name].live - {uid}, highestModseq := modseq)]
    case Reflag(name, uid, modseq) =>
      && name in s && uid in s[name].live && s[name].highestModseq < modseq
      && s' == s[name := s[name].(live := s[name].live[uid := modseq], highestModseq := modseq)]
    case Reset(name, mb) =>
      && name in s && s[name].uidValidity < mb.uidValidity && MailboxOk(mb)
      && (forall k :: k in s[name].log ==> k in mb.log && mb.log[k] == s[name].log[k])
      && s' == s[name := mb]
  }

  /**
   The answer to SELECT: every code speaks of the mailbox as it is, and the last
   EXISTS is the number of messages. UIDNEXT may be left out, and so may UIDVALIDITY
   and HIGHESTMODSEQ unless the server is known to send them.
   */
  ghost predicate SelectAnswer(mb: Mailbox, c: Config, outcome: CommandOutcome) {
    var ss := Statuses(outcome);
    && outcome.IsOk()
    && (c.sendsUidValidity ==> Sends(ss, UidValidity(mb.uidValidity)))
    && (forall v: NonZeroU32 :: Sends(ss, UidValidity(v)) ==> v == mb.uidValidity)
    && (forall n: NonZeroU32 :: Sends(ss, UidNext(n)) ==> n == mb.uidNext)
    && (forall m: NonZeroU64 :: Sends(ss, HighestModSeq(m)) ==> m == mb.highestModseq)
    && (c.sendsModseq && mb.highestModseq > 0 ==> Sends(ss, HighestModSeq(mb.highestModseq)))
    && LastExists(outcome.data) == |mb.live|
  }

  /**
   The answer to `UID FETCH start:end ALL`: an envelope for every message of the
   range that is in the mailbox, perhaps for some just removed, and for nothing
   else. Other data may be mixed in.
   */
  ghost predicate FetchAnswer(mb: Mailbox, start: U32, end: U32, data: seq<Data>) {
    && (forall d :: d in data && Ingestable(d) ==>
          var uid := LastUid(d.items).value;
          start <= uid <= end && (mb.uidValidity as U32, uid) in mb.log
            && LastDate(d.items) == Some(mb.log[(mb.uidValidity as U32, uid)]))
    && (forall u :: u in mb.live && start <= u <= end ==>
          exists d :: d in data && Ingestable(d) && LastUid(d.items) == Some(u))
  }

  // ----- The client -----

  function SaturatingInc(u: U32): U32 {
    if u == U32_MAX then u else u + 1
  }

  /** Upper end of a delta fetch for a reported UIDNEXT (0 when not reported). */
  function NextBound(uidNext: U32): U32 {
    if uidNext <= 1 then 1 else uidNext - 1
  }

  datatype Phase =
    | Reconcile
    | Purged
    | CursorsReset
    | Delta
    | Fetching(start: U32)
    | Ingesting(batch: seq<IngestMessage>)
    | Flags
    | PrefetchList
    | Prefetching(page: seq<Message>)

  /** `folder` is the row as it was listed at the start of the sweep. */
  datatype Client =
    | Down
    | Hierarchy
    | Sweeping(todo: seq<FolderRow>)
    | InFolder(folder: FolderRow, info: SelectInfo, phase: Phase, todo: seq<FolderRow>)
    | AtRest

  /**
   `literalZero`: the store writes a UIDVALIDITY of 0 as it is. `condstore`: the
   server advertises CONDSTORE. `sendsUidValidity`, `sendsModseq`: SELECT always
   reports UIDVALIDITY, HIGHESTMODSEQ.
   `purgeMayFail`, `cursorsMayFail`: the store may fail to purge a folder or to write
   its cursors, errors the engine drops.
   */
  datatype Config = Config(
    account: nat, prefetchLimit: nat, literalZero: bool, condstore: bool,
    sendsUidValidity: bool, sendsModseq: bool, purgeMayFail: bool, cursorsMayFail: bool)

  /** `seen` remembers the last OK SELECT of each folder of the current sweep. */
  datatype World = World(server: Server, mail: Mail, client: Client, seen: map<nat, SelectInfo>)

  datatype ClientStep =
    | Connect
    | UpsertListed(listed: NewFolder)
    | ListRows(rows: seq<FolderRow>)
    | SelectRefused
    | SelectOk(outcome: CommandOutcome)
    | ReconcileFolder
    | WriteZeroModseq
    | WriteModseq
    | PurgeFails
    | CursorFails
    | PlanDelta(maxUidRead: bool)
    | FetchEnvelopes(data: seq<Data>, clock: nat -> int)
    | IngestAll
    | LeaveFlags
    | WriteFlagCursor
    | ListPrefetch(listed_: bool)
    | SkipBody
    | IngestBody(hash: string, size: nat)
    | FinishFolder
    | FinishSweep
    | Drop

  /** Stored rows of the account; any of them may be missing because a read failed. */
  ghost predicate IsListing(mail: Mail, account: nat, rows: seq<FolderRow>) {
    && (forall r :: r in rows ==> RowOf(mail.folders, r.id) == Some(r) && r.account == account)
    && (forall i, j :: 0 <= i < j < |rows| ==> rows[i].id != rows[j].id)
  }

  /** Where a pass goes on after reading the largest stored UID. */
  function DeltaPhase(ms: seq<Message>, id: nat, info: SelectInfo, maxUidRead: bool): Phase {
    var start := if maxUidRead && MaxUid(ms, id).Some? then SaturatingInc(MaxUid(ms, id).value) else 1;
    if info.exists_ > 0 && start <= NextBound(info.uidNext) then Fetching(start) else Flags
  }

  /** UIDVALIDITY is known on both sides and has changed. */
  predicate EpochChanged(folder: FolderRow, info: SelectInfo) {
    folder.uidValidity != 0 && info.uidValidity != 0 && folder.uidValidity != info.uidValidity
  }

  function BodyMessage(folder: nat, m: Message, hash: string, size: nat): IngestMessage {
    IngestMessage(folder, m.uid, m.date, m.flags, Some(hash), size)
  }

  predicate At(w: World, phase: Phase) {
    w.client.InFolder? && w.client.phase == phase
  }

  /** The client moves on inside the current folder. */
  ghost predicate MovesTo(w: World, w': World, mail: Mail, phase: Phase)
    requires w.client.InFolder?
  {
    w' == w.(mail := mail, client := w.client.(phase := phase))
  }

  ghost predicate ClientNext(c: Config, w: World, w': World, step: ClientStep) {
    match step
    case Connect =>
      w.client == Down && w' == w.(client := Hierarchy)
    case UpsertListed(f) =>
      && w.client == Hierarchy && f.name in w.server && f.account == c.account && f.uidValidity == 0
      && f.highestModseq == 0
      && w' == w.(mail := UpsertFolder(w.mail, f))
    case ListRows(rows) =>
      && w.client in {Hierarchy, AtRest} && IsListing(w.mail, c.account, rows)
      && w' == w.(client := Sweeping(rows), seen := map[])
    case SelectRefused =>
      && w.client.Sweeping? && w.client.todo != []
      && w' == w.(client := Sweeping(w.client.todo[1..]))
    case SelectOk(outcome) =>
      && w.client.Sweeping? && w.client.todo != []
      && var folder := w.client.todo[0];
         && folder.name in w.server && SelectAnswer(w.server[folder.name], c, outcome)
         && w' == w.(client := InFolder(folder, InfoOf(outcome), Reconcile, w.client.todo[1..]),
                     seen := w.seen[folder.id := InfoOf(outcome)])
    case ReconcileFolder =>
      && At(w, Reconcile)
      && var folder, info := w.client.folder, w.client.info;
         if EpochChanged(folder, info) then MovesTo(w, w', Purge(w.mail, folder.id), Purged)
         else if info.uidValidity != 0 then
           MovesTo(w, w', UpdateCursors(w.mail, c.literalZero, folder.id, info.uidValidity,
                                        Some(info.highestModseq)), Delta)
         else MovesTo(w, w', w.mail, Delta)
    case WriteZeroModseq =>
      && At(w, Purged)
      && MovesTo(w, w', UpdateCursors(w.mail, c.literalZero, w.client.folder.id, w.client.info.uidValidity, Some(0)),
                 CursorsReset)
    case WriteModseq =>
      && At(w, CursorsReset)
      && MovesTo(w, w', UpdateCursors(w.mail, c.literalZero, w.client.folder.id, w.client.info.uidValidity,
                                      Some(w.client.info.highestModseq)), Delta)
    case PurgeFails =>
      && c.purgeMayFail && At(w, Reconcile) && EpochChanged(w.client.folder, w.client.info)
      && MovesTo(w, w', w.mail, Purged)
    case CursorFails =>
      && c.cursorsMayFail && w.client.InFolder? && w.client.phase in {Reconcile, Purged, CursorsReset}
      && (w.client.phase == Reconcile ==>
            !EpochChanged(w.client.folder, w.client.info) && w.client.info.uidValidity != 0)
      && MovesTo(w, w', w.mail, if w.client.phase == Purged then CursorsReset else Delta)
    case PlanDelta(maxUidRead) =>
      && At(w, Delta)
      && MovesTo(w, w', w.mail, DeltaPhase(w.mail.messages, w.client.folder.id, w.client.info, maxUidRead))
    case FetchEnvelopes(data, clock) =>
      && w.client.InFolder? && w.client.phase.Fetching? && w.client.folder.name in w.server
      && FetchAnswer(w.server[w.client.folder.name], w.client.phase.start, NextBound(w.client.info.uidNext), data)
      && var batch := BatchOf(w.client.folder.id, data, clock);
         MovesTo(w, w', w.mail, if batch == [] then Flags else Ingesting(batch))
    case IngestAll =>
      && w.client.InFolder? && w.client.phase.Ingesting?
      && MovesTo(w, w', Ingest(w.mail, w.client.phase.batch), Flags)
    case LeaveFlags =>
      At(w, Flags) && MovesTo(w, w', w.mail, PrefetchList)
    case WriteFlagCursor =>
      && At(w, Flags) && c.condstore && w.client.folder.highestModseq > 0
      && var folder, info := w.client.folder, w.client.info;
         MovesTo(w, w', if info.highestModseq > folder.highestModseq
                        then UpdateCursors(w.mail, c.literalZero, folder.id, 0, Some(info.highestModseq))
                        else w.mail, PrefetchList)
    case ListPrefetch(listed) =>
      && At(w, PrefetchList)
      && MovesTo(w, w', w.mail, Prefetching(
           if listed then Page(Listing(w.mail.messages, w.client.folder.id, ByDate, true), 0, c.prefetchLimit) else []))
    case SkipBody =>
      && w.client.InFolder? && w.client.phase.Prefetching? && w.client.phase.page != []
      && MovesTo(w, w', w.mail, Prefetching(w.client.phase.page[1..]))
    case IngestBody(hash, size) =>
      && w.client.InFolder? && w.client.phase.Prefetching? && w.client.phase.page != []
      && var page := w.client.phase.page;
         MovesTo(w, w', Ingest(w.mail, [BodyMessage(w.client.folder.id, page[0], hash, size)]), Prefetching(page[1..]))
    case FinishFolder =>
      && At(w, Prefetching([]))
      && w' == w.(client := Sweeping(w.client.todo))
    case FinishSweep =>
      w.client == Sweeping([]) && w' == w.(client := AtRest)
    case Drop =>
      w' == w.(client := Down, seen := map[])
  }

  // ----- Runs -----

  datatype Step = OnServer(s: ServerStep) | OnClient(k: ClientStep)

  /** A mailbox keeps its UIDVALIDITY while the client has it selected. */
  predicate Resets(client: Client, step: ServerStep) {
    step.Reset? && client.InFolder? && client.folder.name == step.name
  }

  ghost predicate Next(c: Config, w: World, w': World, step: Step) {
    match step
    case OnServer(s) => !Resets(w.client, s) && ServerNext(w.server, w'.server, s) && w' == w.(server := w'.server)
    case OnClient(k) => ClientNext(c, w, w', k)
  }

  /** An empty store, no connection, and a server in any state it may be in. */
  ghost predicate Init(w: World) {
    && w.mail == EmptyMail && w.client == Down && w.seen == map[]
    && forall name :: name in w.server ==> MailboxOk(w.server[name])
  }

  ghost predicate IsRun(c: Config, ws: seq<World>, steps: seq<Step>) {
    && |ws| == |steps| + 1 && Init(ws[0])
    && forall i :: 0 <= i < |steps| ==> Next(c, ws[i], ws[i + 1], steps[i])
  }

  ghost predicate Reachable(c: Config, w: World) {
    exists ws, steps :: IsRun(c, ws, steps) && ws[|steps|] == w
  }

  // ----- What the protocol is for -----

  /**
   No mixing of UID epochs: what is stored for a UID is the message the server
   filed under that UID and the UIDVALIDITY now stored with the folder.
   */
  ghost predicate EpochPure(w: World) {
    forall id, uid: U32 :: RowOf(w.mail.folders, id).Some? && Stored(w.mail.messages, id, uid) ==>
      var row := RowOf(w.mail.folders, id).value;
      && row.name in w.server && (row.uidValidity, uid) in w.server[row.name].log
      && w.server[row.name].log[(row.uidValidity, uid)] == Lookup(w.mail.messages, id, uid).value.date
  }

  /** No gaps: in the current epoch, whatever is live up to the largest stored UID is stored. */
  ghost predicate NoGaps(w: World) {
    forall id, uid: U32, u: U32 :: RowOf(w.mail.folders, id).Some? && Stored(w.mail.messages, id, uid) ==>
      var row := RowOf(w.mail.folders, id).value;
      row.name in w.server && row.uidValidity == w.server[row.name].uidValidity && u in w.server[row.name].live
        && u <= uid ==>
        Stored(w.mail.messages, id, u)
  }

  /** At rest, every folder of the sweep whose SELECT was OK has all that was there to fetch. */
  ghost predicate ConvergedAtRest(w: World) {
    w.client == AtRest ==>
      forall id, u: U32 :: id in w.seen ==>
        && RowOf(w.mail.folders, id).Some?
        && var row := RowOf(w.mail.folders, id).value;
           && row.name in w.server
           && (row.uidValidity == w.server[row.name].uidValidity && u in w.server[row.name].live
               && u < w.seen[id].uidNext ==>
                 Stored(w.mail.messages, id, u))
  }

  /** At rest, the cursors of those folders are the ones their SELECT reported. */
  ghost predicate CursorsAtRest(w: World) {
    w.client == AtRest ==>
      forall id :: id in w.seen ==>
        && RowOf(w.mail.folders, id).Some?
        && RowOf(w.mail.folders, id).value.uidValidity == w.seen[id].uidValidity
        && RowOf(w.mail.folders, id).value.highestModseq == w.seen[id].highestModseq
  }
}
