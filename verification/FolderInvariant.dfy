/**
 The inductive invariant of the folder-sync protocol, its preservation by every
 step, and the safety of whole runs that follows from it.
 */
module FolderInvariant {
  import opened Wrappers
  import opened Store
  import opened Wire
  import opened FolderProtocol

  // ----- The invariant -----

  /** Every stored message of the folder is the one filed under its UID in the row's epoch. */
  ghost predicate Filed(mb: Mailbox, ms: seq<Message>, row: FolderRow) {
    forall u: U32 :: Stored(ms, row.id, u) ==>
      (row.uidValidity, u) in mb.log && mb.log[(row.uidValidity, u)] == Lookup(ms, row.id, u).value.date
  }

  /** What is live below `bound` is stored. */
  ghost predicate Covered(mb: Mailbox, ms: seq<Message>, id: nat, bound: int) {
    forall u: U32 :: u in mb.live && u < bound ==> Stored(ms, id, u)
  }

  ghost predicate Gapless(mb: Mailbox, ms: seq<Message>, id: nat) {
    forall uid: U32 :: Stored(ms, id, uid) ==> Covered(mb, ms, id, uid)
  }

  ghost predicate FolderOk(mb: Mailbox, ms: seq<Message>, row: FolderRow) {
    && row.uidValidity <= mb.uidValidity
    && Filed(mb, ms, row)
    && (row.uidValidity == mb.uidValidity ==> Gapless(mb, ms, row.id) && row.highestModseq <= mb.highestModseq)
  }

  ghost predicate Empty(ms: seq<Message>, id: nat) {
    forall u: U32 :: !Stored(ms, id, u)
  }

  /** What an answered SELECT still says about a mailbox that has gone on changing. */
  ghost predicate InfoOk(mb: Mailbox, info: SelectInfo) {
    && info.uidValidity == mb.uidValidity && info.uidNext <= mb.uidNext && info.highestModseq <= mb.highestModseq
    && (info.exists_ == 0 ==> forall u :: u in mb.live ==> u >= info.uidNext)
    && (info.exists_ > 0 ==> NextBound(info.uidNext) < mb.uidNext)
  }

  ghost predicate BatchOk(mb: Mailbox, ms: seq<Message>, id: nat, info: SelectInfo, batch: seq<IngestMessage>) {
    && (forall m :: m in batch ==>
          m.folder == id && m.uid <= NextBound(info.uidNext) && (info.uidValidity, m.uid) in mb.log
            && mb.log[(info.uidValidity, m.uid)] == m.date)
    && (forall u: U32 :: u in mb.live && u <= NextBound(info.uidNext) ==>
          Stored(ms, id, u) || LastFor(batch, id, u).Some?)
  }

  ghost predicate PageOk(mb: Mailbox, ms: seq<Message>, id: nat, info: SelectInfo, page: seq<Message>) {
    forall m :: m in page ==>
      Stored(ms, id, m.uid) && (info.uidValidity, m.uid) in mb.log && mb.log[(info.uidValidity, m.uid)] == m.date
  }

  ghost predicate PhaseOk(c: Config, mb: Mailbox, ms: seq<Message>, row: FolderRow, folder: FolderRow,
                          info: SelectInfo, phase: Phase) {
    match phase
    case Reconcile =>
      row == folder && (row.uidValidity == info.uidValidity ==>
                          row.highestModseq <= info.highestModseq || (info.highestModseq == 0 && !c.sendsModseq))
    case Purged => row.uidValidity != info.uidValidity && Empty(ms, row.id)
    case CursorsReset => row.uidValidity == info.uidValidity && row.highestModseq == 0 && Empty(ms, row.id)
    case _ =>
      && row.uidValidity == info.uidValidity && row.highestModseq == info.highestModseq
      && match phase
         case Fetching(start) => info.exists_ > 0 && start <= NextBound(info.uidNext) && Covered(mb, ms, row.id, start)
         case Ingesting(batch) => info.exists_ > 0 && BatchOk(mb, ms, row.id, info, batch)
         case Flags => Covered(mb, ms, row.id, info.uidNext)
         case PrefetchList => Covered(mb, ms, row.id, info.uidNext)
         case Prefetching(page) => Covered(mb, ms, row.id, info.uidNext) && PageOk(mb, ms, row.id, info, page)
         case _ => true
  }

  /** A folder of the sweep whose pass has ended. */
  ghost predicate SeenOk(mb: Mailbox, ms: seq<Message>, row: FolderRow, info: SelectInfo) {
    && row.uidValidity == info.uidValidity && row.highestModseq == info.highestModseq
    && (info.uidValidity == mb.uidValidity ==> info.uidNext <= mb.uidNext && Covered(mb, ms, row.id, info.uidNext))
  }

  function Todo(client: Client): seq<FolderRow> {
    match client
    case Sweeping(todo) => todo
    case InFolder(_, _, _, todo) => todo
    case _ => []
  }

  ghost predicate ServerOk(s: Server) {
    forall name :: name in s ==> MailboxOk(s[name])
  }

  ghost predicate MailOk(s: Server, mail: Mail) {
    && WellFormed(mail)
    && (forall id, u: U32 :: Stored(mail.messages, id, u) ==> RowOf(mail.folders, id).Some?)
    && (forall id :: RowOf(mail.folders, id).Some? ==> RowOk(s, mail, id))
  }

  ghost predicate RowOk(s: Server, mail: Mail, id: nat)
    requires RowOf(mail.folders, id).Some?
  {
    var row := RowOf(mail.folders, id).value;
    row.name in s && FolderOk(s[row.name], mail.messages, row)
  }

  ghost predicate SeenIn(s: Server, mail: Mail, id: nat, info: SelectInfo) {
    && RowOf(mail.folders, id).Some?
    && var row := RowOf(mail.folders, id).value;
       row.name in s && SeenOk(s[row.name], mail.messages, row, info)
  }

  ghost predicate ClientOk(c: Config, w: World) {
    && IsListing(w.mail, c.account, Todo(w.client))
    && (w.client.InFolder? ==>
          var folder, info := w.client.folder, w.client.info;
          && (forall r :: r in w.client.todo ==> r.id != folder.id)
          && folder.id in w.seen && w.seen[folder.id] == info
          && RowOf(w.mail.folders, folder.id).Some?
          && var row := RowOf(w.mail.folders, folder.id).value;
             && row.name == folder.name && row.account == c.account && row.name in w.server
             && InfoOk(w.server[row.name], info)
             && PhaseOk(c, w.server[row.name], w.mail.messages, row, folder, info, w.client.phase))
    && (forall id :: id in w.seen && !(w.client.InFolder? && id == w.client.folder.id) ==>
          SeenIn(w.server, w.mail, id, w.seen[id]))
  }

  ghost predicate Inv(c: Config, w: World) {
    ServerOk(w.server) && MailOk(w.server, w.mail) && ClientOk(c, w)
  }

  /**
   A server that reports UIDVALIDITY, and a store whose purges and cursor writes
   succeed and that keeps UIDVALIDITY when told 0 unless the server lacks CONDSTORE.
   */
  predicate KeepsEpoch(c: Config) {
    !(c.literalZero && c.condstore) && c.sendsUidValidity && !c.purgeMayFail && !c.cursorsMayFail
  }

  // ----- Server steps -----

  /** A mailbox after any step that keeps its epoch. */
  ghost predicate Evolves(mb: Mailbox, mb': Mailbox) {
    && mb'.uidValidity == mb.uidValidity && mb.uidNext <= mb'.uidNext && mb.highestModseq <= mb'.highestModseq
    && (forall u :: u in mb'.live ==> u in mb.live || mb.uidNext <= u)
    && (forall k :: k in mb.log ==> k in mb'.log && mb'.log[k] == mb.log[k])
  }

  ghost predicate Renews(mb: Mailbox, mb': Mailbox) {
    mb.uidValidity < mb'.uidValidity && forall k :: k in mb.log ==> k in mb'.log && mb'.log[k] == mb.log[k]
  }

  lemma AppendEvolves(mb: Mailbox, uid: U32, next: U32, modseq: U64, date: int)
    requires MailboxOk(mb) && mb.uidNext <= uid < next && mb.highestModseq < modseq
    ensures var mb' := mb.(uidNext := next, live := mb.live[uid := modseq], highestModseq := modseq,
                           log := mb.log[(mb.uidValidity as U32, uid) := date]);
            MailboxOk(mb') && Evolves(mb, mb')
  {
    assert (mb.uidValidity as U32, uid) !in mb.log;
  }

  lemma ExpungeEvolves(mb: Mailbox, uid: U32, modseq: U64)
    requires MailboxOk(mb) && mb.highestModseq <= modseq
    ensures var mb' := mb.(live := mb.live - {uid}, highestModseq := modseq);
            MailboxOk(mb') && Evolves(mb, mb')
  {
  }

  lemma ReflagEvolves(mb: Mailbox, uid: U32, modseq: U64)
    requires MailboxOk(mb) && uid in mb.live && mb.highestModseq < modseq
    ensures var mb' := mb.(live := mb.live[uid := modseq], highestModseq := modseq);
            MailboxOk(mb') && Evolves(mb, mb')
  {
  }

  /** Between two states of the server every mailbox evolves, or is the one renewed. */
  ghost predicate Moves(s: Server, s': Server, renewed: Option<string>) {
    forall name :: name in s ==>
      name in s' && (Evolves(s[name], s'[name]) || (renewed == Some(name) && Renews(s[name], s'[name])))
  }

  lemma OneMailboxMoves(s: Server, name: string, mb: Mailbox, renewed: Option<string>)
    requires ServerOk(s) && MailboxOk(mb)
    requires name in s ==> Evolves(s[name], mb) || (renewed == Some(name) && Renews(s[name], mb))
    ensures ServerOk(s[name := mb]) && Moves(s, s[name := mb], renewed)
  {
  }

  lemma ServerStepShape(s: Server, s': Server, step: ServerStep)
    requires ServerOk(s) && ServerNext(s, s', step)
    ensures ServerOk(s') && Moves(s, s', if step.Reset? then Some(step.name) else None)
  {
    match step
    case Create(name, mb) =>
      OneMailboxMoves(s, name, mb, None);
    case Append(name, uid, next, modseq, date) =>
      AppendEvolves(s[name], uid, next, modseq, date);
      OneMailboxMoves(s, name, s'[name], None);
    case Expunge(name, uid, modseq) =>
      ExpungeEvolves(s[name], uid, modseq);
      OneMailboxMoves(s, name, s'[name], None);
    case Reflag(name, uid, modseq) =>
      ReflagEvolves(s[name], uid, modseq);
      OneMailboxMoves(s, name, s'[name], None);
    case Reset(name, mb) =>
      OneMailboxMoves(s, name, mb, Some(name));
  }

  lemma EvolvingKeepsFolder(mb: Mailbox, mb': Mailbox, ms: seq<Message>, row: FolderRow)
    requires MailboxOk(mb) && Evolves(mb, mb') && FolderOk(mb, ms, row)
    ensures FolderOk(mb', ms, row)
  {
    if row.uidValidity == mb'.uidValidity {
      forall uid: U32 | Stored(ms, row.id, uid)
        ensures Covered(mb', ms, row.id, uid)
      {
        assert Covered(mb, ms, row.id, uid);
      }
    }
  }

  lemma RenewingKeepsFolder(mb: Mailbox, mb': Mailbox, ms: seq<Message>, row: FolderRow)
    requires Renews(mb, mb') && FolderOk(mb, ms, row)
    ensures FolderOk(mb', ms, row)
  {
  }

  lemma EvolvingKeepsPhase(c: Config, mb: Mailbox, mb': Mailbox, ms: seq<Message>, row: FolderRow, folder: FolderRow,
                           info: SelectInfo, phase: Phase)
    requires MailboxOk(mb) && Evolves(mb, mb') && InfoOk(mb, info)
    requires PhaseOk(c, mb, ms, row, folder, info, phase)
    ensures InfoOk(mb', info) && PhaseOk(c, mb', ms, row, folder, info, phase)
  {
  }

  lemma ServerStepKeepsRow(s: Server, s': Server, mail: Mail, id: nat)
    requires RowOf(mail.folders, id).Some? && RowOk(s, mail, id) && ServerOk(s)
    requires var name := RowOf(mail.folders, id).value.name;
             name in s' && (Evolves(s[name], s'[name]) || Renews(s[name], s'[name]))
    ensures RowOk(s', mail, id)
  {
    var row := RowOf(mail.folders, id).value;
    if Evolves(s[row.name], s'[row.name]) {
      EvolvingKeepsFolder(s[row.name], s'[row.name], mail.messages, row);
    } else {
      RenewingKeepsFolder(s[row.name], s'[row.name], mail.messages, row);
    }
  }

  lemma ServerStepKeepsSeen(s: Server, s': Server, mail: Mail, id: nat, info: SelectInfo)
    requires SeenIn(s, mail, id, info) && RowOk(s, mail, id)
    requires var name := RowOf(mail.folders, id).value.name;
             name in s' && (Evolves(s[name], s'[name]) || Renews(s[name], s'[name]))
    ensures SeenIn(s', mail, id, info)
  {
    var row := RowOf(mail.folders, id).value;
    var mb, mb' := s[row.name], s'[row.name];
    if info.uidValidity == mb'.uidValidity {
      assert Evolves(mb, mb');
      assert Covered(mb, mail.messages, id, info.uidNext);
      assert Covered(mb', mail.messages, id, info.uidNext);
    }
  }

  lemma ServerStepKeepsInv(c: Config, w: World, w': World, step: ServerStep)
    requires Inv(c, w) && Next(c, w, w', OnServer(step))
    ensures Inv(c, w')
  {
    ServerStepShape(w.server, w'.server, step);
    forall id | RowOf(w.mail.folders, id).Some?
      ensures RowOk(w'.server, w.mail, id)
    {
      assert RowOk(w.server, w.mail, id);
      ServerStepKeepsRow(w.server, w'.server, w.mail, id);
    }
    assert MailOk(w'.server, w.mail);
    forall id | id in w.seen && !(w.client.InFolder? && id == w.client.folder.id)
      ensures SeenIn(w'.server, w.mail, id, w.seen[id])
    {
      assert SeenIn(w.server, w.mail, id, w.seen[id]);
      assert RowOk(w.server, w.mail, id);
      ServerStepKeepsSeen(w.server, w'.server, w.mail, id, w.seen[id]);
    }
    if w.client.InFolder? {
      var row := RowOf(w.mail.folders, w.client.folder.id).value;
      EvolvingKeepsPhase(c, w.server[row.name], w'.server[row.name], w.mail.messages, row, w.client.folder,
                         w.client.info, w.client.phase);
    }
  }

  // ----- Client steps -----

  /** Nothing but the folder `id` is touched. */
  ghost predicate Frames(mail: Mail, mail': Mail, id: nat) {
    && (forall other :: other != id ==> RowOf(mail'.folders, other) == RowOf(mail.folders, other))
    && (forall other, u: U32 :: other != id ==> Lookup(mail'.messages, other, u) == Lookup(mail.messages, other, u))
  }

  lemma FramesOthers(s: Server, mail: Mail, mail': Mail, id: nat, other: nat)
    requires Frames(mail, mail', id) && other != id
    ensures RowOf(mail.folders, other).Some? && RowOk(s, mail, other) ==> RowOk(s, mail', other)
    ensures forall info :: SeenIn(s, mail, other, info) ==> SeenIn(s, mail', other, info)
  {
    assert forall u: U32 :: Stored(mail'.messages, other, u) <==> Stored(mail.messages, other, u);
    if RowOf(mail.folders, other).Some? {
      var row := RowOf(mail.folders, other).value;
      if row.name in s && row.uidValidity == s[row.name].uidValidity && Gapless(s[row.name], mail.messages, other) {
        forall uid: U32 | Stored(mail'.messages, other, uid)
          ensures Covered(s[row.name], mail'.messages, other, uid)
        {
          assert Covered(s[row.name], mail.messages, other, uid);
        }
      }
    }
  }

  /** A move inside the current folder keeps the invariant when it keeps it for that folder. */
  lemma MoveKeepsInv(c: Config, w: World, w': World, mail': Mail, phase': Phase)
    requires Inv(c, w) && w.client.InFolder? && MovesTo(w, w', mail', phase')
    requires WellFormed(mail') && Frames(w.mail, mail', w.client.folder.id)
    requires var row := RowOf(w.mail.folders, w.client.folder.id).value;
             && RowOf(mail'.folders, row.id).Some?
             && var row' := RowOf(mail'.folders, row.id).value;
                && row'.name == row.name && row'.account == row.account
                && FolderOk(w.server[row.name], mail'.messages, row')
                && PhaseOk(c, w.server[row.name], mail'.messages, row', w.client.folder, w.client.info, phase')
    ensures Inv(c, w')
  {
    var id := w.client.folder.id;
    forall other | other != id
      ensures RowOf(w.mail.folders, other).Some? && RowOk(w.server, w.mail, other) ==> RowOk(w.server, mail', other)
      ensures forall info :: SeenIn(w.server, w.mail, other, info) ==> SeenIn(w.server, mail', other, info)
    {
      FramesOthers(w.server, w.mail, mail', id, other);
    }
    forall other | RowOf(mail'.folders, other).Some?
      ensures RowOk(w.server, mail', other)
    {
      if other != id {
        assert RowOk(w.server, w.mail, other);
      }
    }
    forall other, u: U32 | Stored(mail'.messages, other, u)
      ensures RowOf(mail'.folders, other).Some?
    {
      assert other != id ==> Stored(w.mail.messages, other, u);
    }
  }

  lemma UpdateCursorsFrames(mail: Mail, literal: bool, id: nat, v: U32, q: Option<U64>)
    ensures Frames(mail, UpdateCursors(mail, literal, id, v, q), id)
    ensures UpdateCursors(mail, literal, id, v, q).messages == mail.messages
  {
    forall other
      ensures other != id ==> RowOf(UpdateCursors(mail, literal, id, v, q).folders, other) == RowOf(mail.folders, other)
    {
      CursorRow(mail, literal, id, v, q, other);
    }
  }

  lemma PurgeFrames(mail: Mail, id: nat)
    ensures Frames(mail, Purge(mail, id), id) && Empty(Purge(mail, id).messages, id)
  {
    forall other, u: U32
      ensures Lookup(Purge(mail, id).messages, other, u) ==
                if other == id then None else Lookup(mail.messages, other, u)
    {
      PurgeLookup(mail.messages, id, other, u);
    }
  }

  lemma IngestFrames(mail: Mail, batch: seq<IngestMessage>, id: nat)
    requires forall m :: m in batch ==> m.folder == id
    ensures Frames(mail, Ingest(mail, batch), id)
    ensures forall u: U32 :: match LastFor(batch, id, u)
              case None => Lookup(Ingest(mail, batch).messages, id, u) == Lookup(mail.messages, id, u)
              case Some(m) =>
                Stored(Ingest(mail, batch).messages, id, u)
                && Lookup(Ingest(mail, batch).messages, id, u).value.date == m.date
  {
    IngestKeepsFolders(mail, batch);
    forall other, u: U32
      ensures other != id ==> Lookup(Ingest(mail, batch).messages, other, u) == Lookup(mail.messages, other, u)
      ensures match LastFor(batch, id, u)
              case None => Lookup(Ingest(mail, batch).messages, id, u) == Lookup(mail.messages, id, u)
              case Some(m) =>
                Stored(Ingest(mail, batch).messages, id, u)
                && Lookup(Ingest(mail, batch).messages, id, u).value.date == m.date
    {
      IngestLookup(mail, batch, other, u);
      IngestLookup(mail, batch, id, u);
    }
  }

  /** An answered SELECT describes the mailbox truthfully. */
  lemma SelectInfoOk(mb: Mailbox, c: Config, outcome: CommandOutcome)
    requires MailboxOk(mb) && SelectAnswer(mb, c, outcome)
    ensures c.sendsUidValidity ==> InfoOk(mb, InfoOf(outcome))
    ensures InfoOf(outcome).uidValidity in {0, mb.uidValidity as U32}
    ensures InfoOf(outcome).uidNext in {0, mb.uidNext as U32}
    ensures InfoOf(outcome).highestModseq in {0, mb.highestModseq}
    ensures c.sendsModseq ==> InfoOf(outcome).highestModseq == mb.highestModseq
  {
    CodesAreSent(Statuses(outcome));
    if mb.live != map[] {
      var u :| u in mb.live;
      assert 1 <= u < mb.uidNext;
    }
  }

  lemma SelectKeepsInv(c: Config, w: World, w': World, outcome: CommandOutcome)
    requires KeepsEpoch(c) && Inv(c, w) && ClientNext(c, w, w', SelectOk(outcome))
    ensures Inv(c, w')
  {
    var folder, info := w.client.todo[0], InfoOf(outcome);
    SelectInfoOk(w.server[folder.name], c, outcome);
    assert folder in w.client.todo;
    var row := RowOf(w.mail.folders, folder.id).value;
    assert row == folder;
    assert RowOk(w.server, w.mail, folder.id);
  }

  lemma ReconcileKeepsInv(c: Config, w: World, w': World)
    requires Inv(c, w) && ClientNext(c, w, w', ReconcileFolder)
    ensures Inv(c, w')
  {
    var folder, info, row := w.client.folder, w.client.info, RowOf(w.mail.folders, w.client.folder.id).value;
    var mb, ms := w.server[row.name], w.mail.messages;
    assert RowOk(w.server, w.mail, folder.id);
    if EpochChanged(folder, info) {
      PurgeKeepsWellFormed(w.mail, folder.id);
      PurgeFrames(w.mail, folder.id);
      MoveKeepsInv(c, w, w', Purge(w.mail, folder.id), Purged);
    } else {
      var mail' := UpdateCursors(w.mail, c.literalZero, folder.id, info.uidValidity, Some(info.highestModseq));
      CursorsKeepWellFormed(w.mail, c.literalZero, folder.id, info.uidValidity, Some(info.highestModseq));
      UpdateCursorsFrames(w.mail, c.literalZero, folder.id, info.uidValidity, Some(info.highestModseq));
      CursorRow(w.mail, c.literalZero, folder.id, info.uidValidity, Some(info.highestModseq), folder.id);
      if row.uidValidity == 0 {
        EpochlessIsEmpty(mb, ms, row);
      }
      MoveKeepsInv(c, w, w', mail', Delta);
    }
  }

  /** Before the first SELECT of a folder nothing is stored for it. */
  lemma EpochlessIsEmpty(mb: Mailbox, ms: seq<Message>, row: FolderRow)
    requires MailboxOk(mb) && FolderOk(mb, ms, row) && row.uidValidity == 0
    ensures Empty(ms, row.id)
  {
    forall u: U32
      ensures !Stored(ms, row.id, u)
    {
      assert Stored(ms, row.id, u) ==> (row.uidValidity, u) in mb.log;
    }
  }

  lemma CursorStepKeepsInv(c: Config, w: World, w': World, step: ClientStep)
    requires step == WriteZeroModseq || step == WriteModseq
    requires Inv(c, w) && ClientNext(c, w, w', step)
    ensures Inv(c, w')
  {
    var folder, info := w.client.folder, w.client.info;
    var q: Option<U64> := if step == WriteModseq then Some(info.highestModseq) else Some(0);
    assert RowOk(w.server, w.mail, folder.id);
    CursorsKeepWellFormed(w.mail, c.literalZero, folder.id, info.uidValidity, q);
    UpdateCursorsFrames(w.mail, c.literalZero, folder.id, info.uidValidity, q);
    CursorRow(w.mail, c.literalZero, folder.id, info.uidValidity, q, folder.id);
    MoveKeepsInv(c, w, w', UpdateCursors(w.mail, c.literalZero, folder.id, info.uidValidity, q), w'.client.phase);
  }

  /** A move that leaves the store alone. */
  lemma PhaseMoveKeepsInv(c: Config, w: World, w': World, phase': Phase)
    requires Inv(c, w) && w.client.InFolder? && MovesTo(w, w', w.mail, phase')
    requires var row := RowOf(w.mail.folders, w.client.folder.id).value;
             PhaseOk(c, w.server[row.name], w.mail.messages, row, w.client.folder, w.client.info, phase')
    ensures Inv(c, w')
  {
    assert RowOk(w.server, w.mail, w.client.folder.id);
    MoveKeepsInv(c, w, w', w.mail, phase');
  }

  lemma PlanIsOk(c: Config, mb: Mailbox, ms: seq<Message>, row: FolderRow, folder: FolderRow, info: SelectInfo,
                 maxUidRead: bool)
    requires MailboxOk(mb) && FolderOk(mb, ms, row) && InfoOk(mb, info)
    requires PhaseOk(c, mb, ms, row, folder, info, Delta)
    ensures PhaseOk(c, mb, ms, row, folder, info, DeltaPhase(ms, row.id, info, maxUidRead))
  {
    MaxUidIsMaximum(ms, row.id);
    var max := MaxUid(ms, row.id);
    if max.Some? {
      assert Covered(mb, ms, row.id, max.value);
      assert max.value < mb.uidNext;
    }
  }

  lemma PlanKeepsInv(c: Config, w: World, w': World, maxUidRead: bool)
    requires Inv(c, w) && ClientNext(c, w, w', PlanDelta(maxUidRead))
    ensures Inv(c, w')
  {
    var folder, info := w.client.folder, w.client.info;
    var row := RowOf(w.mail.folders, folder.id).value;
    assert RowOk(w.server, w.mail, folder.id) && MailboxOk(w.server[row.name]);
    PlanIsOk(c, w.server[row.name], w.mail.messages, row, folder, info, maxUidRead);
    PhaseMoveKeepsInv(c, w, w', DeltaPhase(w.mail.messages, folder.id, info, maxUidRead));
  }

  /** A fetch answer fills every gap up to the bound of the request. */
  lemma FetchFillsGaps(mb: Mailbox, ms: seq<Message>, id: nat, info: SelectInfo, start: U32, data: seq<Data>,
                       clock: nat -> int)
    requires Covered(mb, ms, id, start) && info.uidValidity == mb.uidValidity
    requires FetchAnswer(mb, start, NextBound(info.uidNext), data)
    ensures BatchOk(mb, ms, id, info, BatchOf(id, data, clock))
  {
    var batch := BatchOf(id, data, clock);
    var at := BatchIsSubsequence(id, data, clock);
    forall m | m in batch
      ensures m.folder == id && m.uid <= NextBound(info.uidNext)
      ensures (info.uidValidity, m.uid) in mb.log && mb.log[(info.uidValidity, m.uid)] == m.date
    {
      var i :| 0 <= i < |batch| && batch[i] == m;
      assert data[at[i]] in data;
    }
    forall u: U32 | u in mb.live && start <= u <= NextBound(info.uidNext)
      ensures LastFor(batch, id, u).Some?
    {
      var d :| d in data && Ingestable(d) && LastUid(d.items) == Some(u);
      var k :| 0 <= k < |data| && data[k] == d;
      var i :| 0 <= i < |at| && at[i] == k;
      assert batch[i] in batch;
    }
  }

  lemma FetchIsOk(c: Config, mb: Mailbox, ms: seq<Message>, row: FolderRow, folder: FolderRow, info: SelectInfo,
                  start: U32,
                  data: seq<Data>, clock: nat -> int)
    requires InfoOk(mb, info) && PhaseOk(c, mb, ms, row, folder, info, Fetching(start))
    requires FetchAnswer(mb, start, NextBound(info.uidNext), data)
    ensures var batch := BatchOf(row.id, data, clock);
            PhaseOk(c, mb, ms, row, folder, info, if batch == [] then Flags else Ingesting(batch))
  {
    FetchFillsGaps(mb, ms, row.id, info, start, data, clock);
  }

  lemma FetchKeepsInv(c: Config, w: World, w': World, data: seq<Data>, clock: nat -> int)
    requires Inv(c, w) && ClientNext(c, w, w', FetchEnvelopes(data, clock))
    ensures Inv(c, w')
  {
    var folder, info := w.client.folder, w.client.info;
    var row := RowOf(w.mail.folders, folder.id).value;
    FetchIsOk(c, w.server[row.name], w.mail.messages, row, folder, info, w.client.phase.start, data, clock);
    PhaseMoveKeepsInv(c, w, w', w'.client.phase);
  }

  lemma IngestKeepsFolderOk(mb: Mailbox, mail: Mail, row: FolderRow, info: SelectInfo, batch: seq<IngestMessage>)
    requires FolderOk(mb, mail.messages, row) && InfoOk(mb, info) && row.uidValidity == info.uidValidity
    requires BatchOk(mb, mail.messages, row.id, info, batch)
    ensures FolderOk(mb, Ingest(mail, batch).messages, row)
    ensures Covered(mb, Ingest(mail, batch).messages, row.id, NextBound(info.uidNext) + 1)
  {
    var ms, ms' := mail.messages, Ingest(mail, batch).messages;
    IngestFrames(mail, batch, row.id);
    forall uid: U32 | Stored(ms', row.id, uid)
      ensures (row.uidValidity, uid) in mb.log && mb.log[(row.uidValidity, uid)] == Lookup(ms', row.id, uid).value.date
      ensures Covered(mb, ms', row.id, uid)
    {
      if LastFor(batch, row.id, uid).Some? {
        assert LastFor(batch, row.id, uid).value in batch;
      } else {
        assert Stored(ms, row.id, uid);
        assert Covered(mb, ms, row.id, uid);
      }
    }
  }

  /** A move that ingests into the folder. */
  lemma IngestMoveKeepsInv(c: Config, w: World, w': World, batch: seq<IngestMessage>, phase': Phase)
    requires Inv(c, w) && w.client.InFolder? && MovesTo(w, w', Ingest(w.mail, batch), phase')
    requires forall m :: m in batch ==> m.folder == w.client.folder.id
    requires var row, ms' := RowOf(w.mail.folders, w.client.folder.id).value, Ingest(w.mail, batch).messages;
             && FolderOk(w.server[row.name], ms', row)
             && PhaseOk(c, w.server[row.name], ms', row, w.client.folder, w.client.info, phase')
    ensures Inv(c, w')
  {
    IngestKeepsWellFormed(w.mail, batch);
    IngestKeepsFolders(w.mail, batch);
    IngestFrames(w.mail, batch, w.client.folder.id);
    MoveKeepsInv(c, w, w', Ingest(w.mail, batch), phase');
  }

  lemma IngestKeepsInv(c: Config, w: World, w': World)
    requires Inv(c, w) && ClientNext(c, w, w', IngestAll)
    ensures Inv(c, w')
  {
    var folder, info, batch := w.client.folder, w.client.info, w.client.phase.batch;
    var row := RowOf(w.mail.folders, folder.id).value;
    assert RowOk(w.server, w.mail, folder.id);
    IngestKeepsFolderOk(w.server[row.name], w.mail, row, info, batch);
    IngestMoveKeepsInv(c, w, w', batch, Flags);
  }

  lemma FlagCursorKeepsInv(c: Config, w: World, w': World)
    requires KeepsEpoch(c) && Inv(c, w) && ClientNext(c, w, w', WriteFlagCursor)
    ensures Inv(c, w')
  {
    var folder, info := w.client.folder, w.client.info;
    assert RowOk(w.server, w.mail, folder.id);
    CursorsKeepWellFormed(w.mail, c.literalZero, folder.id, 0, Some(info.highestModseq));
    UpdateCursorsFrames(w.mail, c.literalZero, folder.id, 0, Some(info.highestModseq));
    CursorRow(w.mail, c.literalZero, folder.id, 0, Some(info.highestModseq), folder.id);
    MoveKeepsInv(c, w, w', w'.mail, PrefetchList);
  }

  lemma ListPrefetchKeepsInv(c: Config, w: World, w': World, listed: bool)
    requires Inv(c, w) && ClientNext(c, w, w', ListPrefetch(listed))
    ensures Inv(c, w')
  {
    var folder, ms := w.client.folder, w.mail.messages;
    assert RowOk(w.server, w.mail, folder.id);
    var page := w'.client.phase.page;
    forall m | m in page
      ensures Lookup(ms, folder.id, m.uid) == Some(m)
    {
      assert m in Listing(ms, folder.id, ByDate, true);
      ListingMembers(ms, folder.id, ByDate, true, m);
      LookupIsMembership(w.mail, m);
    }
    PhaseMoveKeepsInv(c, w, w', Prefetching(page));
  }

  /** Re-ingesting a listed message with its body adds no UID, and keeps each under the message filed for it. */
  lemma BodyFrames(mb: Mailbox, mail: Mail, row: FolderRow, info: SelectInfo, page: seq<Message>, hash: string,
                   size: nat)
    requires page != [] && row.uidValidity == info.uidValidity
    requires FolderOk(mb, mail.messages, row) && PageOk(mb, mail.messages, row.id, info, page)
    ensures var ms' := Ingest(mail, [BodyMessage(row.id, page[0], hash, size)]).messages;
            && FolderOk(mb, ms', row) && PageOk(mb, ms', row.id, info, page[1..])
            && forall u: U32 :: Stored(ms', row.id, u) <==> Stored(mail.messages, row.id, u)
  {
    var ms, body := mail.messages, [BodyMessage(row.id, page[0], hash, size)];
    var ms' := Ingest(mail, body).messages;
    assert page[0] in page && body[0] in body;
    forall u: U32
      ensures Stored(ms', row.id, u) <==> Stored(ms, row.id, u)
      ensures Stored(ms, row.id, u) ==>
                Lookup(ms', row.id, u).value.date ==
                if u == page[0].uid then page[0].date else Lookup(ms, row.id, u).value.date
    {
      IngestLookup(mail, body, row.id, u);
      var m := LastFor(body, row.id, u);
    }
    forall uid: U32 | Stored(ms', row.id, uid)
      ensures Covered(mb, ms', row.id, uid) || row.uidValidity != mb.uidValidity
    {
      assert Stored(ms, row.id, uid);
      assert row.uidValidity == mb.uidValidity ==> Covered(mb, ms, row.id, uid);
    }
  }

  lemma IngestBodyKeepsInv(c: Config, w: World, w': World, hash: string, size: nat)
    requires Inv(c, w) && ClientNext(c, w, w', IngestBody(hash, size))
    ensures Inv(c, w')
  {
    var folder, info, page := w.client.folder, w.client.info, w.client.phase.page;
    var row := RowOf(w.mail.folders, folder.id).value;
    assert RowOk(w.server, w.mail, folder.id);
    BodyFrames(w.server[row.name], w.mail, row, info, page, hash, size);
    IngestMoveKeepsInv(c, w, w', [BodyMessage(folder.id, page[0], hash, size)], Prefetching(page[1..]));
  }

  lemma UpsertKeepsInv(c: Config, w: World, w': World, f: NewFolder)
    requires Inv(c, w) && ClientNext(c, w, w', UpsertListed(f))
    ensures Inv(c, w')
  {
    UpsertFolderKeepsWellFormed(w.mail, f);
    forall id | RowOf(w'.mail.folders, id).Some?
      ensures RowOk(w'.server, w'.mail, id)
    {
      UpsertRow(w.mail, f, id);
      assert RowOf(w.mail.folders, id).Some? ==> RowOk(w.server, w.mail, id);
    }
    forall id, u: U32 | Stored(w'.mail.messages, id, u)
      ensures RowOf(w'.mail.folders, id).Some?
    {
      UpsertRow(w.mail, f, id);
      UpsertKeepsRows(w.mail, f, id);
    }
    forall id | id in w.seen
      ensures SeenIn(w'.server, w'.mail, id, w.seen[id])
    {
      UpsertRow(w.mail, f, id);
      assert SeenIn(w.server, w.mail, id, w.seen[id]);
    }
  }

  lemma UpsertKeepsRows(mail: Mail, f: NewFolder, id: nat)
    requires WellFormed(mail) && RowOf(mail.folders, id).Some?
    ensures RowOf(UpsertFolder(mail, f).folders, id).Some?
  {
    UpsertRow(mail, f, id);
  }

  /** Steps between folders. */
  predicate Sweeps(step: ClientStep) {
    step.Connect? || step.ListRows? || step.SelectRefused? || step.FinishSweep? || step.Drop? || step.FinishFolder?
  }

  /** Steps that write cursors, or fail to. */
  predicate MovesCursors(step: ClientStep) {
    || step.ReconcileFolder? || step.WriteZeroModseq? || step.WriteModseq? || step.WriteFlagCursor?
    || step.PurgeFails? || step.CursorFails?
  }

  /** Steps that fetch and store envelopes. */
  predicate Fetches(step: ClientStep) {
    step.PlanDelta? || step.FetchEnvelopes? || step.IngestAll?
  }

  lemma ClientStepKeepsInv(c: Config, w: World, w': World, step: ClientStep)
    requires KeepsEpoch(c) && Inv(c, w) && ClientNext(c, w, w', step)
    ensures Inv(c, w')
  {
    if Sweeps(step) {
      SweepStepKeepsInv(c, w, w', step);
    } else if MovesCursors(step) {
      CursorMoveKeepsInv(c, w, w', step);
    } else if Fetches(step) {
      FetchStepKeepsInv(c, w, w', step);
    } else {
      OtherStepKeepsInv(c, w, w', step);
    }
  }

  lemma FetchStepKeepsInv(c: Config, w: World, w': World, step: ClientStep)
    requires Fetches(step) && Inv(c, w) && ClientNext(c, w, w', step)
    ensures Inv(c, w')
  {
    match step
    case PlanDelta(maxUidRead) => PlanKeepsInv(c, w, w', maxUidRead);
    case FetchEnvelopes(data, clock) => FetchKeepsInv(c, w, w', data, clock);
    case IngestAll => IngestKeepsInv(c, w, w');
  }

  lemma OtherStepKeepsInv(c: Config, w: World, w': World, step: ClientStep)
    requires !Sweeps(step) && !MovesCursors(step) && !Fetches(step)
    requires KeepsEpoch(c) && Inv(c, w) && ClientNext(c, w, w', step)
    ensures Inv(c, w')
  {
    match step
    case UpsertListed(f) => UpsertKeepsInv(c, w, w', f);
    case SelectOk(outcome) => SelectKeepsInv(c, w, w', outcome);
    case ListPrefetch(listed) => ListPrefetchKeepsInv(c, w, w', listed);
    case IngestBody(hash, size) => IngestBodyKeepsInv(c, w, w', hash, size);
    case LeaveFlags => PassiveMoveKeepsInv(c, w, w', step);
    case SkipBody => PassiveMoveKeepsInv(c, w, w', step);
  }

  lemma CursorMoveKeepsInv(c: Config, w: World, w': World, step: ClientStep)
    requires MovesCursors(step) && KeepsEpoch(c) && Inv(c, w) && ClientNext(c, w, w', step)
    ensures Inv(c, w')
  {
    match step
    case ReconcileFolder => ReconcileKeepsInv(c, w, w');
    case WriteFlagCursor => FlagCursorKeepsInv(c, w, w');
    case WriteZeroModseq => CursorStepKeepsInv(c, w, w', step);
    case WriteModseq => CursorStepKeepsInv(c, w, w', step);
    case _ => assert false;
  }

  lemma PassiveMoveKeepsInv(c: Config, w: World, w': World, step: ClientStep)
    requires step == LeaveFlags || step == SkipBody
    requires Inv(c, w) && ClientNext(c, w, w', step)
    ensures Inv(c, w')
  {
    PhaseMoveKeepsInv(c, w, w', w'.client.phase);
  }

  lemma SweepStepKeepsInv(c: Config, w: World, w': World, step: ClientStep)
    requires Sweeps(step) && Inv(c, w) && ClientNext(c, w, w', step)
    ensures Inv(c, w')
  {
    if step.FinishFolder? {
      FinishKeepsInv(c, w, w');
    } else {
      assert MailOk(w'.server, w'.mail);
    }
  }

  lemma FinishKeepsInv(c: Config, w: World, w': World)
    requires Inv(c, w) && ClientNext(c, w, w', FinishFolder)
    ensures Inv(c, w')
  {
    var id := w.client.folder.id;
    assert SeenIn(w.server, w.mail, id, w.client.info);
    forall other | other in w'.seen
      ensures SeenIn(w'.server, w'.mail, other, w'.seen[other])
    {
      assert other != id ==> SeenIn(w.server, w.mail, other, w.seen[other]);
    }
    assert IsListing(w'.mail, c.account, Todo(w'.client));
  }
}
