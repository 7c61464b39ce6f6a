/**
 What holds in every run of the folder-sync protocol, for configurations that keep
 UID epochs apart, and when a cursor falls.
 */
module FolderSafety {
  import opened Wrappers
  import opened Store
  import opened Wire
  import opened FolderProtocol
  import opened FolderInvariant

  lemma StepKeepsInv(c: Config, w: World, w': World, step: Step)
    requires KeepsEpoch(c) && Inv(c, w) && Next(c, w, w', step)
    ensures Inv(c, w')
  {
    match step
    case OnServer(s) => ServerStepKeepsInv(c, w, w', s);
    case OnClient(k) => ClientStepKeepsInv(c, w, w', k);
  }

  /** What holds first and is kept by every step holds throughout. */
  lemma {:induction false} Throughout(holds: World -> bool, ws: seq<World>, i: nat)
    requires i < |ws| && holds(ws[0])
    requires forall k :: 0 <= k < |ws| - 1 && holds(ws[k]) ==> holds(ws[k + 1])
    ensures holds(ws[i])
  {
    if i > 0 {
      Throughout(holds, ws, i - 1);
      assert holds(ws[i - 1 + 1]);
    }
  }

  lemma RunKeepsInv(c: Config, ws: seq<World>, steps: seq<Step>, i: nat)
    requires KeepsEpoch(c) && IsRun(c, ws, steps) && i < |ws|
    ensures Inv(c, ws[i])
  {
    assert IsPath(c, ws, steps);
    PathKeepsInv(c, ws, steps, i);
  }

  lemma InvIsSafe(c: Config, w: World)
    requires Inv(c, w)
    ensures EpochPure(w) && NoGaps(w) && ConvergedAtRest(w) && CursorsAtRest(w)
  {
    forall id, uid: U32 | RowOf(w.mail.folders, id).Some? && Stored(w.mail.messages, id, uid)
      ensures RowOk(w.server, w.mail, id)
      ensures var row := RowOf(w.mail.folders, id).value;
              row.uidValidity == w.server[row.name].uidValidity ==>
                Covered(w.server[row.name], w.mail.messages, id, uid)
    {
      assert RowOk(w.server, w.mail, id);
    }
    assert NoGaps(w) by {
      forall id, uid: U32, u: U32 | RowOf(w.mail.folders, id).Some? && Stored(w.mail.messages, id, uid)
        ensures var row := RowOf(w.mail.folders, id).value;
                row.name in w.server && row.uidValidity == w.server[row.name].uidValidity
                  && u in w.server[row.name].live && u <= uid ==>
                  Stored(w.mail.messages, id, u)
      {
        assert RowOk(w.server, w.mail, id);
      }
    }
    if w.client == AtRest {
      forall id, u: U32 | id in w.seen
        ensures SeenIn(w.server, w.mail, id, w.seen[id])
        ensures var row := RowOf(w.mail.folders, id).value;
                row.uidValidity == w.server[row.name].uidValidity && u in w.server[row.name].live
                  && u < w.seen[id].uidNext ==>
                  Stored(w.mail.messages, id, u)
      {
        assert SeenIn(w.server, w.mail, id, w.seen[id]);
      }
    }
  }

  /**
   Safety over whole runs: whatever the server does between the client's steps,
   and wherever a pass is cut off, no state mixes UID epochs, none has a gap below
   the largest stored UID, and each time the client comes to rest the folders of
   the sweep have converged and carry the cursors their SELECT reported.
   */
  lemma RunsAreSafe(c: Config, ws: seq<World>, steps: seq<Step>)
    requires KeepsEpoch(c) && IsRun(c, ws, steps)
    ensures forall w :: w in ws ==> EpochPure(w) && NoGaps(w) && ConvergedAtRest(w) && CursorsAtRest(w)
  {
    forall i | 0 <= i < |ws|
      ensures EpochPure(ws[i]) && NoGaps(ws[i]) && ConvergedAtRest(ws[i]) && CursorsAtRest(ws[i])
    {
      RunKeepsInv(c, ws, steps, i);
      InvIsSafe(c, ws[i]);
    }
  }

  // ----- The cursors -----

  /** No folder goes, none falls back to an earlier epoch, and within an epoch no modseq falls. */
  ghost predicate CursorsRise(mail: Mail, mail': Mail) {
    forall id :: RowOf(mail.folders, id).Some? ==>
      && RowOf(mail'.folders, id).Some?
      && RowRises(RowOf(mail.folders, id).value, RowOf(mail'.folders, id).value)
  }

  predicate RowRises(row: FolderRow, row': FolderRow) {
    || row.uidValidity < row'.uidValidity
    || (row.uidValidity == row'.uidValidity && row.highestModseq <= row'.highestModseq)
  }

  /** SELECT has just left out HIGHESTMODSEQ, for a folder listed with a cursor of the same epoch. */
  predicate ZeroesCursor(w: World) {
    && At(w, Reconcile) && w.client.info.uidValidity == w.client.folder.uidValidity
    && w.client.info.highestModseq == 0 < w.client.folder.highestModseq
  }

  /** A step lowers a cursor exactly when it writes the 0 that stands for a HIGHESTMODSEQ left out. */
  lemma CursorFallsExactlyWhen(c: Config, w: World, w': World, step: Step)
    requires KeepsEpoch(c) && Inv(c, w) && Next(c, w, w', step)
    ensures !CursorsRise(w.mail, w'.mail) <==> step == OnClient(ReconcileFolder) && ZeroesCursor(w)
  {
    if step == OnClient(ReconcileFolder) && ZeroesCursor(w) {
      ZeroFalls(c, w, w');
    } else {
      OtherStepsRise(c, w, w', step);
    }
  }

  lemma ZeroFalls(c: Config, w: World, w': World)
    requires KeepsEpoch(c) && Inv(c, w) && ClientNext(c, w, w', ReconcileFolder) && ZeroesCursor(w)
    ensures !CursorsRise(w.mail, w'.mail)
  {
    var folder, info := w.client.folder, w.client.info;
    CursorRow(w.mail, c.literalZero, folder.id, info.uidValidity, Some(info.highestModseq), folder.id);
    assert RowOf(w.mail.folders, folder.id).Some?;
  }

  lemma OtherStepsRise(c: Config, w: World, w': World, step: Step)
    requires KeepsEpoch(c) && Inv(c, w) && Next(c, w, w', step)
    requires !(step == OnClient(ReconcileFolder) && ZeroesCursor(w))
    ensures CursorsRise(w.mail, w'.mail)
  {
    match step
    case OnServer(_) =>
    case OnClient(k) =>
      if k.UpsertListed? {
        UpsertRises(w.mail, k.listed);
      } else if k in {ReconcileFolder, WriteZeroModseq, WriteModseq, WriteFlagCursor} {
        CursorWriteRises(c, w, w', k);
      } else if k.IngestAll? {
        IngestKeepsFolders(w.mail, w.client.phase.batch);
      } else if k.IngestBody? {
        IngestKeepsFolders(w.mail, [BodyMessage(w.client.folder.id, w.client.phase.page[0], k.hash, k.size)]);
      }
  }

  lemma StepNeverLowersModseq(c: Config, w: World, w': World, step: Step)
    requires KeepsEpoch(c) && c.sendsModseq && Inv(c, w) && Next(c, w, w', step)
    ensures CursorsRise(w.mail, w'.mail)
  {
    OtherStepsRise(c, w, w', step);
  }

  /** A run from any state. */
  ghost predicate IsPath(c: Config, ws: seq<World>, steps: seq<Step>) {
    |ws| == |steps| + 1 && forall i :: 0 <= i < |steps| ==> Next(c, ws[i], ws[i + 1], steps[i])
  }

  lemma PathKeepsInv(c: Config, ws: seq<World>, steps: seq<Step>, i: nat)
    requires KeepsEpoch(c) && IsPath(c, ws, steps) && Inv(c, ws[0]) && i < |ws|
    ensures Inv(c, ws[i])
  {
    ghost var holds := (w: World) => Inv(c, w);
    forall k | 0 <= k < |ws| - 1 && holds(ws[k])
      ensures holds(ws[k + 1])
    {
      assert Next(c, ws[k], ws[k + 1], steps[k]);
      StepKeepsInv(c, ws[k], ws[k + 1], steps[k]);
    }
    Throughout(holds, ws, i);
  }

  /**
   Over whole runs, with a server that always reports HIGHESTMODSEQ: whatever is cut
   off or changes meanwhile, no folder's cursor ever falls within an epoch, and no
   folder returns to an epoch it has left.
   */
  lemma CursorsNeverFall(c: Config, ws: seq<World>, steps: seq<Step>, i: nat, j: nat)
    requires KeepsEpoch(c) && c.sendsModseq && IsPath(c, ws, steps) && Inv(c, ws[0]) && i <= j < |ws|
    ensures CursorsRise(ws[i].mail, ws[j].mail)
  {
    var mails := seq(|ws|, k requires 0 <= k < |ws| => ws[k].mail);
    forall k | 0 <= k < |steps|
      ensures CursorsRise(mails[k], mails[k + 1])
    {
      PathStepRises(c, ws, steps, k);
    }
    RiseChain(mails, i, j);
  }

  lemma PathStepRises(c: Config, ws: seq<World>, steps: seq<Step>, k: nat)
    requires KeepsEpoch(c) && c.sendsModseq && IsPath(c, ws, steps) && Inv(c, ws[0]) && k < |steps|
    ensures CursorsRise(ws[k].mail, ws[k + 1].mail)
  {
    PathKeepsInv(c, ws, steps, k);
    assert Next(c, ws[k], ws[k + 1], steps[k]);
    StepNeverLowersModseq(c, ws[k], ws[k + 1], steps[k]);
  }

  lemma {:induction false} RiseChain(mails: seq<Mail>, i: nat, j: nat)
    requires i <= j < |mails| && forall k :: 0 <= k < |mails| - 1 ==> CursorsRise(mails[k], mails[k + 1])
    ensures CursorsRise(mails[i], mails[j])
  {
    if i < j {
      RiseChain(mails, i, j - 1);
      assert CursorsRise(mails[j - 1], mails[j - 1 + 1]);
      RiseIsTransitive(mails[i], mails[j - 1], mails[j]);
    }
  }

  lemma RiseIsTransitive(a: Mail, b: Mail, c: Mail)
    requires CursorsRise(a, b) && CursorsRise(b, c)
    ensures CursorsRise(a, c)
  {
  }

  lemma UpsertRises(mail: Mail, f: NewFolder)
    requires WellFormed(mail)
    ensures CursorsRise(mail, UpsertFolder(mail, f))
  {
    forall id
      ensures RowOf(mail.folders, id).Some? ==>
                RowOf(UpsertFolder(mail, f).folders, id).Some?
                && RowOf(UpsertFolder(mail, f).folders, id).value.highestModseq
                    == RowOf(mail.folders, id).value.highestModseq
    {
      UpsertRow(mail, f, id);
    }
  }

  lemma CursorWriteRises(c: Config, w: World, w': World, k: ClientStep)
    requires KeepsEpoch(c) && Inv(c, w) && ClientNext(c, w, w', k)
    requires k in {ReconcileFolder, WriteZeroModseq, WriteModseq, WriteFlagCursor}
             && !(k.ReconcileFolder? && ZeroesCursor(w))
    ensures CursorsRise(w.mail, w'.mail)
  {
    var info := w.client.info;
    match k
    case ReconcileFolder => CursorStepRises(c, w, info.uidValidity, Some(info.highestModseq));
    case WriteZeroModseq => CursorStepRises(c, w, info.uidValidity, Some(0));
    case WriteModseq => CursorStepRises(c, w, info.uidValidity, Some(info.highestModseq));
    case WriteFlagCursor => CursorStepRises(c, w, 0, Some(info.highestModseq));
  }

  lemma CursorStepRises(c: Config, w: World, v: U32, q: Option<U64>)
    requires KeepsEpoch(c) && Inv(c, w) && w.client.InFolder? && !ZeroesCursor(w)
    requires w.client.phase in {Reconcile, Purged, CursorsReset, Flags}
    requires v == w.client.info.uidValidity || (v == 0 && c.condstore && w.client.phase == Flags)
    requires q == Some(if w.client.phase == Purged then 0 else w.client.info.highestModseq)
    ensures CursorsRise(w.mail, UpdateCursors(w.mail, c.literalZero, w.client.folder.id, v, q))
  {
    forall id
      ensures RowOf(UpdateCursors(w.mail, c.literalZero, w.client.folder.id, v, q).folders, id)
           == (if id == w.client.folder.id && RowOf(w.mail.folders, id).Some? then
                 Some(RowOf(w.mail.folders, id).value.(
                        uidValidity := if v != 0 || c.literalZero then v
                                       else RowOf(w.mail.folders, id).value.uidValidity,
                        highestModseq := q.GetOr(RowOf(w.mail.folders, id).value.highestModseq)))
               else RowOf(w.mail.folders, id))
    {
      CursorRow(w.mail, c.literalZero, w.client.folder.id, v, q, id);
    }
  }

  // ----- Reachability -----

  lemma ReachableStep(c: Config, w: World, w': World, step: Step)
    requires Reachable(c, w) && Next(c, w, w', step)
    ensures Reachable(c, w')
  {
    var ws, steps :| IsRun(c, ws, steps) && ws[|steps|] == w;
    var ws', steps' := ws + [w'], steps + [step];
    forall i | 0 <= i < |steps'|
      ensures Next(c, ws'[i], ws'[i + 1], steps'[i])
    {
      if i < |steps| {
        assert Next(c, ws[i], ws[i + 1], steps[i]);
      }
    }
    assert IsRun(c, ws', steps') && ws'[|steps'|] == w';
  }

  lemma ReachableInit(c: Config, w: World)
    requires Init(w)
    ensures Reachable(c, w)
  {
    var ws, steps: seq<Step> := [w], [];
    assert IsRun(c, ws, steps) && ws[|steps|] == w;
  }
}
