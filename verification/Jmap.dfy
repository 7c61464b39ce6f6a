/**
 Ingestion of JMAP responses. The cursor of a folder is a state token, kept where
 the IMAP service keeps its HIGHESTMODSEQ, and UIDs are made up from JMAP ids.
 */
module Jmap {
  import opened Wrappers
  import opened Store
  import opened ReferenceStore
  import opened SyncPass
  import Decimal
  import PassTheorems

  // ----- Responses -----

  /** `receivedAt` is None when it is missing or not a date. */
  datatype Email = Email(id: string, receivedAt: Option<int>, keywords: seq<string>, size: Option<nat>)

  /** One method response; `list` is None when its data has no list. */
  datatype Item = NotAnArray | TooShort | Call(name: string, list: Option<seq<Email>>)

  datatype Response = Response(items: seq<Item>, newState: Option<string>)

  /** The emails of the first Email/get; none when there is none, an error when the list cannot be read. */
  function EmailsIn(items: seq<Item>): Option<seq<Email>> {
    if items == [] then Some([])
    else
      match items[0]
      case NotAnArray => None
      case TooShort => EmailsIn(items[1..])
      case Call(name, list) => if name == "Email/get" then list else EmailsIn(items[1..])
  }

  /** The item settles what the response holds: it cannot be read, or it is an Email/get. */
  predicate Settles(item: Item) {
    item.NotAnArray? || (item.Call? && item.name == "Email/get")
  }

  predicate SettledAt(items: seq<Item>, k: nat) {
    k < |items| && Settles(items[k]) && forall i :: 0 <= i < k ==> !Settles(items[i])
  }

  /** The first item that settles it decides. */
  lemma {:induction false} EmailsExactly(items: seq<Item>, k: nat)
    requires SettledAt(items, k)
    ensures EmailsIn(items) == match items[k] case Call(_, list) => list case _ => None
  {
    if k > 0 {
      assert items[1..][k - 1] == items[k];
      assert forall i :: 0 <= i < k - 1 ==> items[1..][i] == items[i + 1];
      EmailsExactly(items[1..], k - 1);
    }
  }

  /** With no such item there are no emails. */
  lemma {:induction false} NoEmailsExactly(items: seq<Item>)
    requires forall i :: 0 <= i < |items| ==> !Settles(items[i])
    ensures EmailsIn(items) == Some([])
  {
    if items != [] {
      NoEmailsExactly(items[1..]);
    }
  }

  /** Reading a new state token as a cursor. */
  function CursorOf(resp: Response): Option<U64> {
    if resp.newState.None? then None else Decimal.ParseU64(resp.newState.value)
  }

  /** The state token to ask for changes since. */
  function SinceState(row: FolderRow): Option<string> {
    if row.highestModseq > 0 then Some(Decimal.Print(row.highestModseq)) else None
  }

  /** A state token is sent exactly when there is a cursor, and stands for it. */
  lemma SinceStateReadsBack(row: FolderRow)
    ensures SinceState(row).Some? <==> row.highestModseq != 0
    ensures SinceState(row).Some? ==> CursorOf(Response([], SinceState(row))) == Some(row.highestModseq)
  {
    Decimal.ParsePrint(row.highestModseq);
  }

  // ----- Messages -----

  /** `hash` is the 64-bit hash of the standard library. */
  datatype Account = Account(id: nat, literalZero: bool, hash: string -> U64)

  /** A UID made up from a JMAP id. */
  function UidOf(a: Account, id: string): (uid: U32)
    ensures 1 <= uid <= U32_MAX
  {
    a.hash(id) % U32_MAX + 1
  }

  /**
   The UID is one more than the hash, wrapped around below 2^32, so two ids share a
   row exactly when their hashes differ by a multiple of 2^32 - 1.
   */
  lemma CollideExactlyWhen(a: Account, x: string, y: string)
    ensures a.hash(x) < U32_MAX ==> UidOf(a, x) == a.hash(x) + 1
    ensures UidOf(a, x) == UidOf(a, y) <==> exists q: int :: a.hash(x) - a.hash(y) == q * U32_MAX
  {
    var h, k := a.hash(x), a.hash(y);
    var q := h / U32_MAX - k / U32_MAX;
    assert h == h / U32_MAX * U32_MAX + h % U32_MAX && k == k / U32_MAX * U32_MAX + k % U32_MAX;
    if UidOf(a, x) == UidOf(a, y) {
      assert h - k == q * U32_MAX;
    }
  }

  /** Each flag has its keyword, whatever else is among them and in whatever order. */
  lemma FlagsAreKeywords(keywords: seq<string>)
    ensures Flag.Seen in FlagsOf(keywords) <==> "$seen" in keywords
    ensures Flag.Answered in FlagsOf(keywords) <==> "$answered" in keywords
    ensures Flag.Flagged in FlagsOf(keywords) <==> "$flagged" in keywords
    ensures Flag.Draft in FlagsOf(keywords) <==> "$draft" in keywords
    ensures forall f :: f in FlagsOf(keywords) ==> f in {Flag.Seen, Flag.Answered, Flag.Flagged, Flag.Draft}
    ensures forall i, j :: 0 <= i < j < |FlagsOf(keywords)| ==> FlagsOf(keywords)[i] != FlagsOf(keywords)[j]
  {
  }

  function FlagsOf(keywords: seq<string>): seq<Flag> {
    (if "$seen" in keywords then [Flag.Seen] else [])
    + (if "$answered" in keywords then [Flag.Answered] else [])
    + (if "$flagged" in keywords then [Flag.Flagged] else [])
    + if "$draft" in keywords then [Flag.Draft] else []
  }

  function ToMessage(a: Account, folder: nat, e: Email, now: int): IngestMessage {
    IngestMessage(folder, UidOf(a, e.id), e.receivedAt.GetOr(now), FlagsOf(e.keywords), None, e.size.GetOr(0))
  }

  function Batch(a: Account, folder: nat, emails: seq<Email>, clock: nat -> int): (batch: seq<IngestMessage>)
    ensures |batch| == |emails|
    ensures forall i :: 0 <= i < |emails| ==> batch[i] == ToMessage(a, folder, emails[i], clock(i))
  {
    if emails == [] then []
    else
      var n := |emails| - 1;
      Batch(a, folder, emails[..n], clock) + [ToMessage(a, folder, emails[n], clock(n))]
  }

  // ----- One response -----

  /** Where the process dies while it deals with a response, if it does. */
  datatype Cut = RunsThrough | DiesAfterIngest | DiesAfterEvent

  /**
   What ingestion learns from outside: the clock, which store calls succeed, and
   where it is cut off. A failed cursor write is dropped.
   */
  datatype Env = Env(clock: nat -> int, ingestOk: bool, summariesRead: bool, cut: Cut, cursorOk: bool)

  datatype End = Returned(ok: bool) | Died

  /** The second of the two writes: the cursor. */
  function Advanced(mail: Mail, a: Account, folder: nat, resp: Response): Mail {
    if CursorOf(resp).None? then mail else UpdateCursors(mail, a.literalZero, folder, 0, CursorOf(resp))
  }

  /** A response that has emails, all of them ingested. */
  predicate Ingested(resp: Response, env: Env) {
    EmailsIn(resp.items).Some? && EmailsIn(resp.items).value != [] && env.ingestOk
  }

  /** Ingested, not cut off, and the cursor write went through. */
  predicate Finishes(resp: Response, env: Env) {
    Ingested(resp, env) && env.cut.RunsThrough? && env.cursorOk
  }

  /** The mail tables after the first write. */
  function Taken(mail: Mail, a: Account, folder: nat, resp: Response, env: Env): Mail
    requires Ingested(resp, env)
  {
    Ingest(mail, Batch(a, folder, EmailsIn(resp.items).value, env.clock))
  }

  function MailAfter(mail: Mail, a: Account, folder: nat, resp: Response, env: Env): Mail {
    if !Ingested(resp, env) then mail
    else if Finishes(resp, env) then Advanced(Taken(mail, a, folder, resp, env), a, folder, resp)
    else Taken(mail, a, folder, resp, env)
  }

  function EventsAfter(mail: Mail, a: Account, folder: nat, resp: Response, env: Env): seq<EngineEvent> {
    if !Ingested(resp, env) || env.cut.DiesAfterIngest? then []
    else
      var batch := Batch(a, folder, EmailsIn(resp.items).value, env.clock);
      if Stats(mail, batch).inserted == 0 then []
      else [Arrival(Taken(mail, a, folder, resp, env), a.id, folder, |batch|, env.summariesRead)]
  }

  function EndAfter(resp: Response, env: Env): End {
    if Ingested(resp, env) then if env.cut.RunsThrough? then Returned(true) else Died
    else Returned(EmailsIn(resp.items) == Some([]))
  }

  /** Ingestion ends well without emails, or with all of them taken in and no cut. */
  lemma EndsExactly(resp: Response, env: Env)
    ensures EndAfter(resp, env) == Returned(true) <==>
              && EmailsIn(resp.items).Some?
              && (EmailsIn(resp.items).value != [] ==> env.ingestOk && env.cut == RunsThrough)
    ensures EndAfter(resp, env) == Returned(false) <==>
              EmailsIn(resp.items).None? || (EmailsIn(resp.items).value != [] && !env.ingestOk)
  {
  }

  ghost predicate HasEmails(mail: Mail, a: Account, folder: nat, emails: seq<Email>) {
    forall e :: e in emails ==> Stored(mail.messages, folder, UidOf(a, e.id))
  }

  lemma BatchKeys(a: Account, folder: nat, emails: seq<Email>, clock: nat -> int, uid: U32)
    ensures LastFor(Batch(a, folder, emails, clock), folder, uid).Some? <==>
              exists e :: e in emails && UidOf(a, e.id) == uid
    ensures forall m :: m in Batch(a, folder, emails, clock) ==> m.folder == folder
  {
    var batch := Batch(a, folder, emails, clock);
    forall e | e in emails && UidOf(a, e.id) == uid
      ensures LastFor(batch, folder, uid).Some?
    {
      var i :| 0 <= i < |emails| && emails[i] == e;
      assert batch[i] in batch;
    }
    if LastFor(batch, folder, uid).Some? {
      var i :| 0 <= i < |batch| && batch[i] == LastFor(batch, folder, uid).value;
      assert emails[i] in emails && UidOf(a, emails[i].id) == uid;
    }
  }

  /**
   Every path out of ingestion, deaths between its two writes included: either
   nothing at all changed, or all emails of the response are stored, no stored
   message was lost and no other appeared. Only then may the cursor have moved, of
   this one folder, to the state the response reports.
   */
  lemma CursorFollowsBatch(mail: Mail, a: Account, folder: nat, resp: Response, env: Env, other: nat, uid: U32)
    ensures !Ingested(resp, env) ==>
              MailAfter(mail, a, folder, resp, env) == mail && EventsAfter(mail, a, folder, resp, env) == []
    ensures Ingested(resp, env) ==>
              HasEmails(MailAfter(mail, a, folder, resp, env), a, folder, EmailsIn(resp.items).value)
    ensures Stored(MailAfter(mail, a, folder, resp, env).messages, other, uid) <==>
              || Stored(mail.messages, other, uid)
              || (Ingested(resp, env) && other == folder
                  && exists e :: e in EmailsIn(resp.items).value && UidOf(a, e.id) == uid)
    ensures RowOf(MailAfter(mail, a, folder, resp, env).folders, other)
         == MovedRow(RowOf(mail.folders, other), a, folder, resp, env)
  {
    if Ingested(resp, env) {
      var emails := EmailsIn(resp.items).value;
      var once := Taken(mail, a, folder, resp, env);
      CursorRow(once, a.literalZero, folder, 0, CursorOf(resp), other);
      IngestKeepsFolders(mail, Batch(a, folder, emails, env.clock));
      EmailsAreStored(mail, a, folder, emails, env.clock, other, uid);
      forall e | e in emails
        ensures Stored(once.messages, folder, UidOf(a, e.id))
      {
        EmailsAreStored(mail, a, folder, emails, env.clock, folder, UidOf(a, e.id));
      }
    }
  }

  lemma EmailsAreStored(mail: Mail, a: Account, folder: nat, emails: seq<Email>, clock: nat -> int, other: nat,
                        uid: U32)
    ensures Stored(Ingest(mail, Batch(a, folder, emails, clock)).messages, other, uid) <==>
              Stored(mail.messages, other, uid) || (other == folder && exists e :: e in emails && UidOf(a, e.id) == uid)
  {
    IngestLookup(mail, Batch(a, folder, emails, clock), other, uid);
    BatchKeys(a, folder, emails, clock, uid);
  }

  /** A folder row after a response for `folder`. */
  function MovedRow(row: Option<FolderRow>, a: Account, folder: nat, resp: Response, env: Env): Option<FolderRow> {
    if row.Some? && row.value.id == folder && Finishes(resp, env) && CursorOf(resp).Some? then
      Some(WithCursor(row.value, a, CursorOf(resp).value))
    else row
  }

  /** The row with its state token moved; its UIDVALIDITY stays unless the store writes the 0. */
  function WithCursor(row: FolderRow, a: Account, cursor: U64): FolderRow {
    row.(highestModseq := cursor, uidValidity := if a.literalZero then 0 else row.uidValidity)
  }

  // ----- Flags -----

  /** The last message of a batch for a key is the one nothing of the same key follows. */
  lemma {:induction false} LastOfKey(batch: seq<IngestMessage>, folder: nat, uid: U32) returns (i: nat)
    requires LastFor(batch, folder, uid).Some?
    ensures i < |batch| && LastFor(batch, folder, uid) == Some(batch[i])
    ensures forall j :: i < j < |batch| ==> !(batch[j].folder == folder && batch[j].uid == uid)
  {
    i := |batch| - 1;
    if !(batch[i].folder == folder && batch[i].uid == uid) {
      i := LastOfKey(batch[..i], folder, uid);
    }
  }

  ghost predicate ListsUid(a: Account, emails: seq<Email>, uid: U32) {
    exists e :: e in emails && UidOf(a, e.id) == uid
  }

  /** The last of the listed emails with the UID. */
  ghost predicate LastListed(a: Account, emails: seq<Email>, uid: U32, i: nat) {
    && i < |emails| && UidOf(a, emails[i].id) == uid
    && forall j :: i < j < |emails| ==> UidOf(a, emails[j].id) != uid
  }

  lemma LastEmail(a: Account, folder: nat, emails: seq<Email>, clock: nat -> int, uid: U32) returns (i: nat)
    requires LastFor(Batch(a, folder, emails, clock), folder, uid).Some?
    ensures LastListed(a, emails, uid, i)
    ensures var m := LastFor(Batch(a, folder, emails, clock), folder, uid).value;
            m.flags == FlagsOf(emails[i].keywords) && m.date == emails[i].receivedAt.GetOr(clock(i))
  {
    var batch := Batch(a, folder, emails, clock);
    i := LastOfKey(batch, folder, uid);
    forall j | i < j < |emails|
      ensures UidOf(a, emails[j].id) != uid
    {
      assert batch[j].folder == folder && batch[j].uid == UidOf(a, emails[j].id);
    }
  }

  /**
   A message stored before, or just added, has the flags and the date of the last
   email listed for its UID once a response is taken in, the date being the time it
   was looked at when there is none; a message not listed stays as it is.
   */
  lemma FlagsFollowEmails(mail: Mail, a: Account, folder: nat, resp: Response, env: Env, uid: U32) returns (i: nat)
    ensures var before := Lookup(mail.messages, folder, uid);
            var after := Lookup(MailAfter(mail, a, folder, resp, env).messages, folder, uid);
            if Ingested(resp, env) && ListsUid(a, EmailsIn(resp.items).value, uid) then
              var emails := EmailsIn(resp.items).value;
              && LastListed(a, emails, uid, i) && after.Some?
              && (Flag.Seen in after.value.flags <==> "$seen" in emails[i].keywords)
              && (Flag.Answered in after.value.flags <==> "$answered" in emails[i].keywords)
              && (Flag.Flagged in after.value.flags <==> "$flagged" in emails[i].keywords)
              && (Flag.Draft in after.value.flags <==> "$draft" in emails[i].keywords)
              && after.value.flags == FlagsOf(emails[i].keywords)
              && after.value.date == emails[i].receivedAt.GetOr(env.clock(i))
            else after == before
  {
    i := 0;
    if Ingested(resp, env) {
      var emails := EmailsIn(resp.items).value;
      OnlyFoldersAfterTaken(mail, a, folder, resp, env);
      IngestLookup(mail, Batch(a, folder, emails, env.clock), folder, uid);
      BatchKeys(a, folder, emails, env.clock, uid);
      if ListsUid(a, emails, uid) {
        i := LastEmail(a, folder, emails, env.clock, uid);
        FlagsAreKeywords(emails[i].keywords);
      }
    }
  }

  // ----- When the cursor moves and an arrival is announced -----

  /** All went well: the emails were read and taken in, nothing cut it off, and the cursor write succeeded. */
  ghost predicate WentThrough(resp: Response, env: Env) {
    && env.ingestOk && env.cut == RunsThrough && env.cursorOk
    && exists emails: seq<Email> :: EmailsIn(resp.items) == Some(emails) && emails != []
  }

  /** A cursor comes to read `n` exactly when all went well and the response's state token spells `n`. */
  lemma CursorMovesExactlyWhen(mail: Mail, a: Account, folder: nat, resp: Response, env: Env, n: U64)
    requires RowOf(mail.folders, folder).Some? && RowOf(mail.folders, folder).value.highestModseq != n
    ensures var after := RowOf(MailAfter(mail, a, folder, resp, env).folders, folder);
            && after.Some?
            && (after.value.highestModseq == n <==>
                  WentThrough(resp, env) && exists token :: resp.newState == Some(token) && Decimal.Spells(token, n))
  {
    CursorFollowsBatch(mail, a, folder, resp, env, folder, 0);
    if resp.newState.Some? {
      Decimal.ParseExactly(resp.newState.value, n);
    }
  }

  /** Some email of the response is not stored. */
  ghost predicate BringsNew(mail: Mail, a: Account, folder: nat, emails: seq<Email>) {
    exists e :: e in emails && !Stored(mail.messages, folder, UidOf(a, e.id))
  }

  /**
   An arrival is announced exactly when the response was taken in with an email that
   was not stored, unless the process died before.
   */
  lemma ArrivalExactlyWhen(mail: Mail, a: Account, folder: nat, resp: Response, env: Env)
    ensures EventsAfter(mail, a, folder, resp, env) != [] <==>
              && EmailsIn(resp.items).Some? && env.ingestOk && env.cut != DiesAfterIngest
              && BringsNew(mail, a, folder, EmailsIn(resp.items).value)
  {
    if Ingested(resp, env) {
      BatchBringsNew(mail, a, folder, EmailsIn(resp.items).value, env.clock);
    }
  }

  /** It tells how many emails were listed, and what the folder holds then. */
  lemma ArrivalSays(mail: Mail, a: Account, folder: FolderRow, resp: Response, env: Env)
    requires WellFormed(mail) && folder in mail.folders && folder.account == a.id
    requires EventsAfter(mail, a, folder.id, resp, env) != []
    ensures Tells(EventsAfter(mail, a, folder.id, resp, env)[0], a.id, folder, |EmailsIn(resp.items).value|,
                  env.summariesRead, MailAfter(mail, a, folder.id, resp, env).messages)
  {
    ArrivalTells(mail, a, folder, resp, env);
  }

  lemma ArrivalTells(mail: Mail, a: Account, folder: FolderRow, resp: Response, env: Env)
    requires WellFormed(mail) && folder in mail.folders && folder.account == a.id && Ingested(resp, env)
    ensures var taken, listed := Taken(mail, a, folder.id, resp, env), |EmailsIn(resp.items).value|;
            && MailAfter(mail, a, folder.id, resp, env).messages == taken.messages
            && Tells(Arrival(taken, a.id, folder.id, listed, env.summariesRead), a.id, folder, listed,
                     env.summariesRead, taken.messages)
  {
    var batch := Batch(a, folder.id, EmailsIn(resp.items).value, env.clock);
    IngestKeepsWellFormed(mail, batch);
    IngestKeepsFolders(mail, batch);
    ArrivalCounts(Taken(mail, a, folder.id, resp, env), a.id, folder, |batch|, env.summariesRead);
    OnlyFoldersAfterTaken(mail, a, folder.id, resp, env);
  }

  lemma BatchBringsNew(mail: Mail, a: Account, folder: nat, emails: seq<Email>, clock: nat -> int)
    ensures Stats(mail, Batch(a, folder, emails, clock)).inserted > 0 <==> BringsNew(mail, a, folder, emails)
  {
    var batch := Batch(a, folder, emails, clock);
    InsertsSomeExactlyWhen(mail, batch);
    if m :| m in batch && !Stored(mail.messages, m.folder, m.uid) {
      var i :| 0 <= i < |batch| && batch[i] == m;
      assert emails[i] in emails;
    }
    if e :| e in emails && !Stored(mail.messages, folder, UidOf(a, e.id)) {
      var i :| 0 <= i < |emails| && emails[i] == e;
      assert batch[i] in batch;
    }
  }

  // ----- Replay -----

  /** The same rows in the same order; dates and flags may differ. */
  ghost predicate SameRows(ms: seq<Message>, ms': seq<Message>) {
    |ms'| == |ms| && forall i :: 0 <= i < |ms| ==> SameRow(ms[i], ms'[i])
  }

  predicate SameRow(m: Message, m': Message) {
    m.id == m'.id && m.folder == m'.folder && m.uid == m'.uid
  }

  /** Ingesting stored keys inserts nothing and moves no row. */
  lemma {:induction false} StoredBatchOnlyUpdates(mail: Mail, batch: seq<IngestMessage>)
    requires forall m :: m in batch ==> Stored(mail.messages, m.folder, m.uid)
    ensures var after := Ingest(mail, batch);
            SameRows(mail.messages, after.messages) && after.nextId == mail.nextId && after.folders == mail.folders
    ensures Stats(mail, batch).inserted == 0
  {
    if batch != [] {
      var init, last := batch[..|batch| - 1], batch[|batch| - 1];
      StoredBatchOnlyUpdates(mail, init);
      IngestLookup(mail, init, last.folder, last.uid);
      assert last in batch;
    }
  }

  /** Ingesting the same batch twice is ingesting it once. */
  lemma IngestIdempotent(mail: Mail, batch: seq<IngestMessage>)
    requires WellFormed(mail)
    ensures Ingest(Ingest(mail, batch), batch) == Ingest(mail, batch)
  {
    var once := Ingest(mail, batch);
    var twice := Ingest(once, batch);
    OwnBatchIsStored(mail, batch);
    StoredBatchOnlyUpdates(once, batch);
    IngestKeepsWellFormed(mail, batch);
    IngestKeepsWellFormed(once, batch);
    forall i | 0 <= i < |once.messages|
      ensures twice.messages[i] == once.messages[i]
    {
      var m, m' := once.messages[i], twice.messages[i];
      assert SameRow(m, m');
      LookupIsMembership(once, m);
      LookupIsMembership(twice, m');
      IngestLookup(mail, batch, m.folder, m.uid);
      IngestLookup(once, batch, m.folder, m.uid);
    }
    assert twice.messages == once.messages;
  }

  lemma OwnBatchIsStored(mail: Mail, batch: seq<IngestMessage>)
    ensures forall m :: m in batch ==> Stored(Ingest(mail, batch).messages, m.folder, m.uid)
  {
    forall m | m in batch
      ensures Stored(Ingest(mail, batch).messages, m.folder, m.uid)
    {
      IngestLookup(mail, batch, m.folder, m.uid);
    }
  }

  lemma {:induction false} IngestIgnoresFolders(mail: Mail, rows: seq<FolderRow>, batch: seq<IngestMessage>)
    ensures Ingest(mail.(folders := rows), batch) == Ingest(mail, batch).(folders := rows)
    ensures Stats(mail.(folders := rows), batch) == Stats(mail, batch)
  {
    if batch != [] {
      IngestIgnoresFolders(mail, rows, batch[..|batch| - 1]);
    }
  }

  predicate Dated(emails: seq<Email>) {
    forall i :: 0 <= i < |emails| ==> emails[i].receivedAt.Some?
  }

  lemma DatedBatch(a: Account, folder: nat, emails: seq<Email>, clock: nat -> int, clock': nat -> int)
    ensures var b, b' := Batch(a, folder, emails, clock), Batch(a, folder, emails, clock');
            && (forall m :: m in b' ==> exists m' :: m' in b && m'.folder == m.folder && m'.uid == m.uid)
            && (Dated(emails) ==> b' == b)
  {
    var b, b' := Batch(a, folder, emails, clock), Batch(a, folder, emails, clock');
    forall m | m in b'
      ensures exists m' :: m' in b && m'.folder == m.folder && m'.uid == m.uid
    {
      var i :| 0 <= i < |b'| && b'[i] == m;
      assert b[i] in b && b[i].folder == m.folder && b[i].uid == m.uid;
    }
  }

  /**
   Answering a response again announces nothing and adds, drops or renames no
   message; when every email has a date it changes no message at all. It moves no
   cursor but the one the first answer was cut off before.
   */
  lemma ReplayChangesNothing(mail: Mail, a: Account, folder: nat, resp: Response, env: Env, again: Env)
    requires WellFormed(mail) && Ingested(resp, env)
    ensures var once := MailAfter(mail, a, folder, resp, env);
            var twice := MailAfter(once, a, folder, resp, again);
            && EventsAfter(once, a, folder, resp, again) == []
            && SameRows(once.messages, twice.messages) && twice.nextId == once.nextId
            && (Dated(EmailsIn(resp.items).value) ==> twice.messages == once.messages)
            && (!Finishes(resp, again) || Finishes(resp, env) ==> twice.folders == once.folders)
  {
    var once := MailAfter(mail, a, folder, resp, env);
    OnlyFoldersAfterTaken(mail, a, folder, resp, env);
    var emails := EmailsIn(resp.items).value;
    var b, b' := Batch(a, folder, emails, env.clock), Batch(a, folder, emails, again.clock);
    DatedBatch(a, folder, emails, env.clock, again.clock);
    ReplayedBatch(mail, b, b', once.folders);
    if Ingested(resp, again) {
      OnlyFoldersAfterTaken(once, a, folder, resp, again);
      if Finishes(resp, again) && Finishes(resp, env) {
        AdvancedTwice(Ingest(mail, b), a, folder, resp);
        AdvancedFolders(Ingest(once, b'), once, a, folder, resp);
      }
    }
  }

  /** After the messages only folder rows change, and those only when the answer finishes. */
  lemma OnlyFoldersAfterTaken(mail: Mail, a: Account, folder: nat, resp: Response, env: Env)
    requires Ingested(resp, env)
    ensures var after := MailAfter(mail, a, folder, resp, env);
            after == Taken(mail, a, folder, resp, env).(folders := after.folders)
  {
  }

  /** Ingesting the same keys again, whatever became of the folder rows in between. */
  lemma ReplayedBatch(mail: Mail, b: seq<IngestMessage>, b': seq<IngestMessage>, rows: seq<FolderRow>)
    requires WellFormed(mail)
    requires forall m :: m in b' ==> exists m' :: m' in b && m'.folder == m.folder && m'.uid == m.uid
    ensures var once := Ingest(mail, b).(folders := rows);
            && Stats(once, b').inserted == 0
            && SameRows(once.messages, Ingest(once, b').messages) && Ingest(once, b').nextId == once.nextId
            && Ingest(once, b').folders == rows
            && (b' == b ==> Ingest(once, b') == once)
  {
    var once := Ingest(mail, b);
    OwnBatchIsStored(mail, b);
    StoredBatchOnlyUpdates(once, b');
    IngestIgnoresFolders(once, rows, b');
    if b' == b {
      IngestIdempotent(mail, b);
    }
  }

  /**
   A replay that runs through finishes what the first answer was cut off from: the
   cursors are those of an answer never cut off, and with dated emails the whole
   store is. Only the arrival is never announced if the process died before that.
   */
  lemma ReplayCompletes(mail: Mail, a: Account, folder: nat, resp: Response, env: Env, again: Env)
    requires WellFormed(mail) && Ingested(resp, env) && Finishes(resp, again)
    ensures var uncut := env.(cut := RunsThrough, cursorOk := true);
            var whole, once := MailAfter(mail, a, folder, resp, uncut), MailAfter(mail, a, folder, resp, env);
            var twice := MailAfter(once, a, folder, resp, again);
            && twice.folders == whole.folders
            && SameRows(whole.messages, twice.messages)
            && (Dated(EmailsIn(resp.items).value) ==> twice == whole)
            && (EventsAfter(mail, a, folder, resp, env) + EventsAfter(once, a, folder, resp, again)
                == EventsAfter(mail, a, folder, resp, uncut)
                <==> !env.cut.DiesAfterIngest? || EventsAfter(mail, a, folder, resp, uncut) == [])
  {
    var emails := EmailsIn(resp.items).value;
    var taken := Taken(mail, a, folder, resp, env);
    var once := MailAfter(mail, a, folder, resp, env);
    ReplayChangesNothing(mail, a, folder, resp, env, again);
    AdvancedTwice(taken, a, folder, resp);
    IngestKeepsFolders(once, Batch(a, folder, emails, again.clock));
    AdvancedFolders(Taken(once, a, folder, resp, again), once, a, folder, resp);
  }

  /** Where a cursor write leads depends on the folder rows alone. */
  lemma AdvancedFolders(mail: Mail, other: Mail, a: Account, folder: nat, resp: Response)
    requires mail.folders == other.folders
    ensures Advanced(mail, a, folder, resp).folders == Advanced(other, a, folder, resp).folders
  {
  }

  lemma AdvancedTwice(mail: Mail, a: Account, folder: nat, resp: Response)
    ensures var rows := Advanced(mail, a, folder, resp).folders;
            && Advanced(mail, a, folder, resp) == mail.(folders := rows)
            && Advanced(mail.(folders := rows), a, folder, resp) == mail.(folders := rows)
  {
    if CursorOf(resp).Some? {
      var rows := Advanced(mail, a, folder, resp).folders;
      var i := FindFolder(mail.folders, folder);
      assert |rows| == |mail.folders| && forall j :: 0 <= j < |rows| ==> rows[j].id == mail.folders[j].id;
      assert FindFolder(rows, folder) == i;
      assert i < |rows| ==> rows[i := rows[i]] == rows;
    }
  }

  /**
   The announced number is that of the emails listed, not of the messages added.
   The two agree exactly when every listed email is new and no two share a UID.
   */
  lemma AnnouncedExactlyWhenFresh(mail: Mail, a: Account, folder: nat, resp: Response, env: Env)
    requires EventsAfter(mail, a, folder, resp, env) != []
    ensures var emails, events := EmailsIn(resp.items).value, EventsAfter(mail, a, folder, resp, env);
            var added := Count(MailAfter(mail, a, folder, resp, env).messages, folder) - Count(mail.messages, folder);
            && |events| == 1 && Announces(events[0], |emails|)
            && (|emails| == added <==> AllNew(mail, a, folder, emails))
  {
    var emails := EmailsIn(resp.items).value;
    GrowthExactlyWhenFresh(mail, a, folder, emails, env.clock);
    ArrivalAnnounces(Taken(mail, a, folder, resp, env), a.id, folder, |emails|, env.summariesRead);
  }

  predicate Announces(e: EngineEvent, n: nat) {
    e.MailArrived? && e.arrived == Saturate(n)
  }

  lemma ArrivalAnnounces(mail: Mail, account: nat, folder: nat, n: nat, summariesRead: bool)
    ensures Announces(Arrival(mail, account, folder, n, summariesRead), n)
  {
  }

  ghost predicate AllNew(mail: Mail, a: Account, folder: nat, emails: seq<Email>) {
    && (forall e :: e in emails ==> !Stored(mail.messages, folder, UidOf(a, e.id)))
    && (forall i, j :: 0 <= i < j < |emails| ==> UidOf(a, emails[i].id) != UidOf(a, emails[j].id))
  }

  lemma GrowthExactlyWhenFresh(mail: Mail, a: Account, folder: nat, emails: seq<Email>, clock: nat -> int)
    ensures var after := Ingest(mail, Batch(a, folder, emails, clock));
            |emails| == Count(after.messages, folder) - Count(mail.messages, folder) <==>
              AllNew(mail, a, folder, emails)
  {
    var batch := Batch(a, folder, emails, clock);
    BatchKeys(a, folder, emails, clock, 0);
    IngestCount(mail, batch, folder, folder);
    PassTheorems.InsertsAllExactlyWhenFresh(mail, batch);
    FreshEmails(mail, a, folder, emails, clock);
  }

  lemma FreshEmails(mail: Mail, a: Account, folder: nat, emails: seq<Email>, clock: nat -> int)
    ensures PassTheorems.NoneStored(mail, Batch(a, folder, emails, clock)) <==>
              forall e :: e in emails ==> !Stored(mail.messages, folder, UidOf(a, e.id))
    ensures PassTheorems.DistinctKeys(Batch(a, folder, emails, clock)) <==>
              forall i, j :: 0 <= i < j < |emails| ==> UidOf(a, emails[i].id) != UidOf(a, emails[j].id)
  {
    var batch := Batch(a, folder, emails, clock);
    if PassTheorems.NoneStored(mail, batch) {
      forall e | e in emails
        ensures !Stored(mail.messages, folder, UidOf(a, e.id))
      {
        var i :| 0 <= i < |emails| && emails[i] == e;
        assert batch[i] in batch;
      }
    }
    if PassTheorems.DistinctKeys(batch) {
      forall i, j | 0 <= i < j < |emails|
        ensures UidOf(a, emails[i].id) != UidOf(a, emails[j].id)
      {
        assert !PassTheorems.SameKey(batch[i], batch[j]);
      }
    }
  }

  // ----- Runs -----

  /** One folder pass; no response means that the query failed. */
  datatype Step = Step(folder: nat, resp: Option<Response>, env: Env)

  predicate Adopted(s: Step, folder: nat) {
    s.folder == folder && s.resp.Some? && Ingested(s.resp.value, s.env)
  }

  predicate Moves(s: Step, folder: nat) {
    Adopted(s, folder) && Finishes(s.resp.value, s.env) && CursorOf(s.resp.value).Some?
  }

  function Stepped(mail: Mail, a: Account, s: Step): Mail {
    if s.resp.None? then mail else MailAfter(mail, a, s.folder, s.resp.value, s.env)
  }

  function Ran(mail: Mail, a: Account, steps: seq<Step>): Mail {
    if steps == [] then mail else Stepped(Ran(mail, a, steps[..|steps| - 1]), a, steps[|steps| - 1])
  }

  /** Every message of every response taken in so far is stored. */
  lemma {:induction false} RunKeepsEmails(mail: Mail, a: Account, steps: seq<Step>, folder: nat, k: nat)
    requires k < |steps| && Adopted(steps[k], folder)
    ensures HasEmails(Ran(mail, a, steps), a, folder, EmailsIn(steps[k].resp.value.items).value)
  {
    var n := |steps| - 1;
    var before, s, emails := Ran(mail, a, steps[..n]), steps[n], EmailsIn(steps[k].resp.value.items).value;
    if k < n {
      RunKeepsEmails(mail, a, steps[..n], folder, k);
    }
    if s.resp.Some? {
      forall e | e in emails
        ensures Stored(Stepped(before, a, s).messages, folder, UidOf(a, e.id))
      {
        CursorFollowsBatch(before, a, s.folder, s.resp.value, s.env, folder, UidOf(a, e.id));
      }
    }
  }

  /** The step whose state token a folder's cursor holds, if any step moved it. */
  function LastMove(steps: seq<Step>, folder: nat): (k: nat)
    ensures k <= |steps|
    ensures k < |steps| ==> Moves(steps[k], folder)
    ensures forall j :: (if k < |steps| then k < j else 0 <= j) && j < |steps| ==> !Moves(steps[j], folder)
  {
    if steps == [] then 0
    else if Moves(steps[|steps| - 1], folder) then |steps| - 1
    else
      var k := LastMove(steps[..|steps| - 1], folder);
      if k < |steps| - 1 then k else |steps|
  }

  /**
   The cursor never runs ahead of the store: over any run, with any step failing or
   cut off anywhere, also between its two writes, a cursor is still what it was or the state of the last response that
   was taken in with one, and that response's emails are all stored.
   */
  lemma CursorNeverAhead(mail: Mail, a: Account, steps: seq<Step>, folder: nat)
    requires RowOf(mail.folders, folder).Some?
    ensures var before, after, k := RowOf(mail.folders, folder).value, RowOf(Ran(mail, a, steps).folders, folder),
            LastMove(steps, folder);
            if k == |steps| then after == Some(before)
            else
              && after == Some(WithCursor(before, a, CursorOf(steps[k].resp.value).value))
              && HasEmails(Ran(mail, a, steps), a, folder, EmailsIn(steps[k].resp.value.items).value)
  {
    CursorIsLastMove(mail, a, steps, folder);
    var k := LastMove(steps, folder);
    if k < |steps| {
      RunKeepsEmails(mail, a, steps, folder, k);
    }
  }

  lemma StepMovesRow(mail: Mail, a: Account, s: Step, folder: nat)
    ensures var before, after := RowOf(mail.folders, folder), RowOf(Stepped(mail, a, s).folders, folder);
            if before.Some? && Moves(s, folder) then
              after == Some(WithCursor(before.value, a, CursorOf(s.resp.value).value))
            else after == before
  {
    if s.resp.Some? {
      CursorFollowsBatch(mail, a, s.folder, s.resp.value, s.env, folder, 0);
    }
  }

  lemma {:induction false} CursorIsLastMove(mail: Mail, a: Account, steps: seq<Step>, folder: nat)
    requires RowOf(mail.folders, folder).Some?
    ensures var before, k := RowOf(mail.folders, folder).value, LastMove(steps, folder);
            RowOf(Ran(mail, a, steps).folders, folder) ==
            Some(if k == |steps| then before else WithCursor(before, a, CursorOf(steps[k].resp.value).value))
  {
    if steps != [] {
      var n := |steps| - 1;
      CursorIsLastMove(mail, a, steps[..n], folder);
      StepMovesRow(Ran(mail, a, steps[..n]), a, steps[n], folder);
    }
  }

  // ----- The service -----

  class JmapSyncService {
    const a: Account
    const store: MemStore
    var bus: seq<EngineEvent>
    /** The state tokens sent with the queries. */
    var asked: seq<Option<string>>

    constructor (a: Account, store: MemStore)
      requires store.literalZero == a.literalZero
      ensures Valid() && this.a == a && this.store == store && bus == [] && asked == []
    {
      this.a, this.store, bus, asked := a, store, [], [];
    }

    predicate Valid() {
      store.literalZero == a.literalZero
    }

    method ParseEmailGet(resp: Response) returns (emails: Option<seq<Email>>)
      ensures emails == EmailsIn(resp.items)
    {
      var items := resp.items;
      for k := 0 to |items|
        invariant EmailsIn(items) == EmailsIn(items[k..])
      {
        assert items[k..][1..] == items[k + 1..];
        match items[k] {
          case NotAnArray => return None;
          case TooShort =>
          case Call(name, list) =>
            if name == "Email/get" {
              return list;
            }
        }
      }
      emails := Some([]);
    }

    method BuildBatch(folder: nat, emails: seq<Email>, clock: nat -> int) returns (batch: seq<IngestMessage>)
      ensures batch == Batch(a, folder, emails, clock)
    {
      batch := [];
      for k := 0 to |emails|
        invariant batch == Batch(a, folder, emails[..k], clock)
      {
        assert emails[..k + 1][..k] == emails[..k];
        var e := emails[k];
        batch := batch + [IngestMessage(folder, UidOf(a, e.id), e.receivedAt.GetOr(clock(k)), FlagsOf(e.keywords),
                                        None, e.size.GetOr(0))];
      }
      assert emails[..|emails|] == emails;
    }

    /** Ingests a response; where `env` cuts it off, nothing after that point is done. */
    method IngestEmailResponse(folder: FolderRow, resp: Response, env: Env) returns (end: End)
      requires Valid()
      modifies this`bus, store`messages, store`folders, store`nextId, store`ingestInserted
      ensures store.State() == MailAfter(old(store.State()), a, folder.id, resp, env)
      ensures bus == old(bus) + EventsAfter(old(store.State()), a, folder.id, resp, env)
      ensures end == EndAfter(resp, env)
    {
      var emails := ParseEmailGet(resp);
      if emails.None? {
        return Returned(false);
      }
      if emails.value == [] {
        return Returned(true);
      }
      end := TakeIn(folder, emails.value, resp, env);
    }

    /** The two writes and the event between them. */
    method TakeIn(folder: FolderRow, emails: seq<Email>, resp: Response, env: Env) returns (end: End)
      requires Valid() && EmailsIn(resp.items) == Some(emails) && emails != []
      modifies this`bus, store`messages, store`folders, store`nextId, store`ingestInserted
      ensures store.State() == MailAfter(old(store.State()), a, folder.id, resp, env)
      ensures bus == old(bus) + EventsAfter(old(store.State()), a, folder.id, resp, env)
      ensures end == EndAfter(resp, env)
    {
      var batch := BuildBatch(folder.id, emails, env.clock);
      if !env.ingestOk {
        return Returned(false);
      }
      var stats := store.IngestBatch(batch);
      end := Finish(folder.id, |batch|, stats.inserted, resp, env);
    }

    /** What follows the first write: the event, and then the second write. */
    method Finish(folder: nat, listed: nat, inserted: nat, resp: Response, env: Env) returns (end: End)
      requires Valid()
      modifies this`bus, store`folders
      ensures bus == old(bus) + if env.cut == DiesAfterIngest || inserted == 0 then []
                                else [Arrival(old(store.State()), a.id, folder, listed, env.summariesRead)]
      ensures store.State() == if env.cut
              == RunsThrough && env.cursorOk then Advanced(old(store.State()), a, folder, resp)
                               else old(store.State())
      ensures end == if env.cut == RunsThrough then Returned(true) else Died
    {
      if env.cut == DiesAfterIngest {
        return Died;
      }
      if inserted > 0 {
        Announce(folder, listed, env.summariesRead);
      }
      if env.cut == DiesAfterEvent {
        return Died;
      }
      MoveCursor(folder, resp, env.cursorOk);
      end := Returned(true);
    }

    method Announce(folder: nat, arrived: nat, summariesRead: bool)
      modifies this`bus
      ensures bus == old(bus) + [Arrival(store.State(), a.id, folder, arrived, summariesRead)]
    {
      var summaries := store.ListFolders(a.id);
      var summary := if summariesRead then SummaryIn(summaries, folder) else None;
      bus := bus + [MailArrived(a.id, folder, Saturate(arrived),
                                if summary.Some? then summary.value.total else 0,
                                if summary.Some? then summary.value.unread else 0)];
    }

    method MoveCursor(folder: nat, resp: Response, ok: bool)
      requires Valid()
      modifies store`folders
      ensures store.State() == if ok then Advanced(old(store.State()), a, folder, resp) else old(store.State())
    {
      if resp.newState.Some? {
        var cursor := Decimal.ParseU64(resp.newState.value);
        if cursor.Some? && ok {
          var _ := store.UpdateSyncCursors(folder, 0, cursor);
        }
      }
    }

    /** One folder pass; `resp` is what the server answers, or None when the query fails. */
    method SyncFolder(folder: FolderRow, resp: Option<Response>, env: Env) returns (end: End)
      requires Valid()
      modifies this, store`messages, store`folders, store`nextId, store`ingestInserted
      ensures asked == old(asked) + [SinceState(folder)]
      ensures store.State() == Stepped(old(store.State()), a, Step(folder.id, resp, env))
      ensures if resp.None? then end == Returned(false) && bus == old(bus)
              else
                && bus == old(bus) + EventsAfter(old(store.State()), a, folder.id, resp.value, env)
                && end == EndAfter(resp.value, env)
    {
      asked := asked + [if folder.highestModseq > 0 then Some(Decimal.Print(folder.highestModseq)) else None];
      if resp.None? {
        return Returned(false);
      }
      end := IngestEmailResponse(folder, resp.value, env);
    }
  }
}
